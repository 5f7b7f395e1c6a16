/**
 * What a friendship action leaves behind, told by the rows alone, in every interleaving; how long a block stands; and
 * what an invitation must be when it is redeemed.
 */
module FriendshipEffects {
  import opened Wrappers
  import opened Friendship
  import opened FriendshipRuns
  import opened FriendshipSafety

  // ----- one write -----

  /** The pair has exactly one row, and that is `r`. */
  ghost predicate OnlyRow(rows: map<Id, Record>, one: Id, other: Id, r: Record) {
    exists row ::
      && row in rows && rows[row] == r && OfPair(r, one, other)
      && forall q | q in rows && OfPair(rows[q], one, other) :: q == row
  }

  ghost predicate NoRow(rows: map<Id, Record>, one: Id, other: Id) {
    forall q | q in rows :: !OfPair(rows[q], one, other)
  }

  /** The row as it was read, in its fields: nothing, or a status with who asked and who blocked. */
  predicate AskedBy(found: Option<Found>, person: Id) {
    found.Some? && found.value.record.status == Pending && found.value.record.requestedBy == person
  }

  predicate HasStatus(found: Option<Found>, status: Status) {
    found.Some? && found.value.record.status == status
  }

  /** When an action of `actor` on a row that was read may go through. */
  predicate Allowed(found: Option<Found>, action: Action, actor: Id) {
    match action
    case Request => found.None? || HasStatus(found, Declined) || (HasStatus(found, Pending) && !AskedBy(found, actor))
    case Accept => HasStatus(found, Pending) && !AskedBy(found, actor)
    case Decline => HasStatus(found, Pending) && !AskedBy(found, actor)
    case Remove => found.Some? && (HasStatus(found, Blocked) ==> found.value.record.blockedBy == Some(actor))
    case Block => !HasStatus(found, Blocked)
    case Invite => !HasStatus(found, Blocked)
  }

  /** The row that the action is about to leave: its status, who stands in it as having asked, and who as having blocked. */
  function LeftRow(found: Option<Found>, action: Action, actor: Id, other: Id): Record {
    var asked := if found.None? then actor else found.value.record.requestedBy;
    var (status, requestedBy, blockedBy) :=
      match action
      case Request => if HasStatus(found, Pending) then (Accepted, other, None) else (Pending, actor, None)
      case Accept => (Accepted, other, None)
      case Decline => (Declined, other, None)
      case Block => (Blocked, asked, Some(actor))
      case Invite => (Accepted, if found.None? then other else asked, None)
      case Remove => (Declined, asked, None);
    if actor < other then Record(actor, other, status, requestedBy, blockedBy)
    else Record(other, actor, status, requestedBy, blockedBy)
  }

  /** What an action leaves behind: no row after a removal, otherwise the pair's only one. */
  ghost predicate Leaves(found: Option<Found>, rows: map<Id, Record>, action: Action, actor: Id, other: Id) {
    if action == Remove then NoRow(rows, actor, other)
    else OnlyRow(rows, actor, other, LeftRow(found, action, actor, other))
  }

  /** The row that was read still has the status it was read with; where none was read, there is none. */
  predicate AsRead(s: State, found: Option<Found>, one: Id, other: Id) {
    if found.None? then !PairTaken(s, one, other)
    else found.value.row in s.rows && s.rows[found.value.row].status == found.value.record.status
  }

  /** The table allows exactly these actions, and writes exactly these rows. */
  lemma TableAllows(found: Option<Found>, action: Action, actor: Id, other: Id)
    requires actor != other
    requires found.Some? ==> RecordOk(found.value.record) && OfPair(found.value.record, actor, other)
    ensures OutcomeOf(RecordOf(found), action, actor).Refused? <==> !Allowed(found, action, actor)
    ensures
      Allowed(found, action, actor) ==>
        match OutcomeOf(RecordOf(found), action, actor)
        case Create(status) => found.None? && action != Remove && Created(actor, other, action, status) == LeftRow(found, action, actor, other)
        case Update(to) => found.Some? && action != Remove && Updated(found.value.record, actor, to) == LeftRow(found, action, actor, other)
        case Delete => found.Some? && action == Remove
        case Unchanged => action == Invite && HasStatus(found, Accepted)
        case Refused(_) => false
  {
  }

  /** And each refusal has its own reason. */
  lemma TableRefuses(found: Option<Found>, action: Action, actor: Id)
    requires !Allowed(found, action, actor)
    ensures OutcomeOf(RecordOf(found), action, actor)
         == Refused(if HasStatus(found, Blocked) then PairBlocked
                    else if action == Request then Exists
                    else if AskedBy(found, actor) then WrongRole
                    else WrongState)
  {
  }

  lemma LeftRowIsOfPair(found: Option<Found>, action: Action, actor: Id, other: Id)
    requires actor != other
    ensures OfPair(LeftRow(found, action, actor, other), actor, other)
  {
  }

  // ----- the rows after a write -----

  lemma AddedIsOnly(rows: map<Id, Record>, row: Id, r: Record, one: Id, other: Id)
    requires OfPair(r, one, other) && NoRow(rows, one, other)
    ensures OnlyRow(rows[row := r], one, other, r)
  {
    assert rows[row := r][row] == r;
  }

  lemma ChangedIsOnly(s: State, row: Id, r: Record, one: Id, other: Id)
    requires RowsOk(s) && row in s.rows && OfPair(s.rows[row], one, other) && OfPair(r, one, other)
    ensures OnlyRow(s.rows[row := r], one, other, r)
    ensures NoRow(map q | q in s.rows && q != row :: s.rows[q], one, other)
  {
    assert s.rows[row := r][row] == r;
  }

  /** The rows of all other pairs are as they were. */
  predicate OthersStay(rows: map<Id, Record>, after: map<Id, Record>, one: Id, other: Id) {
    && (forall q | q in rows && !OfPair(rows[q], one, other) :: q in after && after[q] == rows[q])
    && (forall q | q in after && !OfPair(after[q], one, other) :: q in rows && rows[q] == after[q])
  }

  lemma OtherPairsStay(rows: map<Id, Record>, row: Id, r: Record, one: Id, other: Id)
    requires OfPair(r, one, other) && (row in rows ==> OfPair(rows[row], one, other))
    ensures OthersStay(rows, rows, one, other)
    ensures OthersStay(rows, rows[row := r], one, other)
    ensures OthersStay(rows, map q | q in rows && q != row :: rows[q], one, other)
  {
  }

  lemma WriteStaysInPair(s: State, t: Id)
    requires RowsOk(s) && Enabled(s, Writes(t)) && TxOk(s, t)
    ensures OthersStay(s.rows, Written(s, t).rows, ActorOf(s.txs[t].job), s.txs[t].phase.other)
  {
    var found := s.txs[t].phase.found;
    var actor, other, action := ActorOf(s.txs[t].job), s.txs[t].phase.other, ActionOf(s.txs[t].job);
    TableAllows(found, action, actor, other);
    LeftRowIsOfPair(found, action, actor, other);
    assert s.nextRow in s.rows ==> RowOk(s, s.nextRow);
    OtherPairsStay(s.rows, s.nextRow, LeftRow(found, action, actor, other), actor, other);
    if found.Some? {
      OtherPairsStay(s.rows, found.value.row, LeftRow(found, action, actor, other), actor, other);
    }
    hide Created, Updated, LeftRow, ResolveTransition, Allowed, ConsentOk, RecordOk, ConsentsOf, Uses, PairTaken, OfPair, RowsOk, TxOk,
         OthersStay;
  }

  /** Which writes succeed and what they leave; the rest leaves all rows as they are. */
  lemma WriteLeavesBehind(s: State, t: Id)
    requires RowsOk(s) && Enabled(s, Writes(t)) && TxOk(s, t)
    ensures
      var v, job, other, found := Written(s, t), s.txs[t].job, s.txs[t].phase.other, s.txs[t].phase.found;
      var actor, action := ActorOf(job), ActionOf(job);
      var kept := action == Invite && HasStatus(found, Accepted);
      && (v.txs[t].phase == Finished(Succeeded) <==> Allowed(found, action, actor) && (kept || AsRead(s, found, actor, other)))
      && (v.txs[t].phase == Finished(Succeeded) && !kept ==> Leaves(found, v.rows, action, actor, other))
      && (v.txs[t].phase != Finished(Succeeded) || kept ==> v.rows == s.rows)
  {
    var job, other, found := s.txs[t].job, s.txs[t].phase.other, s.txs[t].phase.found;
    var actor, action := ActorOf(job), ActionOf(job);
    TableAllows(found, action, actor, other);
    LeftRowIsOfPair(found, action, actor, other);
    if found.None? && AsRead(s, found, actor, other) {
      AddedIsOnly(s.rows, s.nextRow, LeftRow(found, action, actor, other), actor, other);
    } else if found.Some? && AsRead(s, found, actor, other) {
      ChangedIsOnly(s, found.value.row, LeftRow(found, action, actor, other), actor, other);
    }
    hide Created, Updated, LeftRow, ResolveTransition, Allowed, OfPair, ConsentOk, RecordOk, RowsOk, ConsentsOf, OnlyRow, NoRow, Uses;
  }

  /** What a route is told when its write does not succeed; a first insert that meets a row starts again. */
  lemma WriteAnswers(s: State, t: Id)
    requires Enabled(s, Writes(t)) && TxOk(s, t) && s.txs[t].job.Plain?
    ensures
      var v, job, found := Written(s, t), s.txs[t].job, s.txs[t].phase.found;
      var read := AsRead(s, found, job.actor, s.txs[t].phase.other);
      v.txs[t].phase ==
        if Allowed(found, job.action, job.actor) then
          if read then Finished(Succeeded)
          else if found.Some? then Finished(Conflict)
          else if s.txs[t].retried then Finished(UniqueViolation)
          else Ready
        else if HasStatus(found, Blocked) then Finished(RefusedBy(PairBlocked))
        else if job.action == Request then Finished(RefusedBy(Exists))
        else if AskedBy(found, job.actor) then Finished(RefusedBy(WrongRole))
        else Finished(RefusedBy(WrongState))
  {
    var job, other, found := s.txs[t].job, s.txs[t].phase.other, s.txs[t].phase.found;
    TableAllows(found, job.action, job.actor, other);
    if !Allowed(found, job.action, job.actor) {
      TableRefuses(found, job.action, job.actor);
    }
    hide Created, Updated, OfPair, ConsentOk, RecordOk, ConsentsOf, Uses, ResolveTransition, Allowed, LeftRow, PairTaken;
  }

  // ----- in every run -----

  /** In every interleaving: which actions succeed, and what they leave of the pair's rows. */
  lemma ActionLeavesBehind(steps: seq<Step>, t: Id)
    requires Enabled(Run(steps), Writes(t)) && Run(steps).txs[t].job.Plain?
    ensures
      var s, v := Run(steps), Next(Run(steps), Writes(t));
      var job, other, found := s.txs[t].job, s.txs[t].phase.other, s.txs[t].phase.found;
      && (v.txs[t].phase == Finished(Succeeded) <==> Allowed(found, job.action, job.actor) && AsRead(s, found, job.actor, other))
      && (v.txs[t].phase == Finished(Succeeded) ==> Leaves(found, v.rows, job.action, job.actor, other))
      && (v.txs[t].phase != Finished(Succeeded) ==> v.rows == s.rows)
      && OthersStay(s.rows, v.rows, job.actor, other)
  {
    RunKeepsInv(steps);
    assert TxOk(Run(steps), t);
    hide Run, Written, RowsOk, Leaves, OthersStay;
    WriteLeavesBehind(Run(steps), t);
    WriteStaysInPair(Run(steps), t);
  }

  /** The pair is blocked by `a`, in its one row. */
  ghost predicate BlockedBy(rows: map<Id, Record>, a: Id, b: Id) {
    exists row ::
      && row in rows && rows[row].status == Blocked && rows[row].blockedBy == Some(a) && OfPair(rows[row], a, b)
      && forall q | q in rows && OfPair(rows[q], a, b) :: q == row
  }

  /** A block that succeeds blocks, whatever the two were to each other. */
  lemma BlockBlocks(steps: seq<Step>, t: Id, a: Id)
    requires Enabled(Run(steps), Writes(t)) && Run(steps).txs[t].job.Plain?
    requires Run(steps).txs[t].job.actor == a && Run(steps).txs[t].job.action == Block
    requires Next(Run(steps), Writes(t)).txs[t].phase == Finished(Succeeded)
    ensures BlockedBy(Next(Run(steps), Writes(t)).rows, a, Run(steps).txs[t].phase.other)
  {
    var s, v := Run(steps), Next(Run(steps), Writes(t));
    var other := s.txs[t].phase.other;
    ActionLeavesBehind(steps, t);
    hide Run, Next;
    var r := LeftRow(s.txs[t].phase.found, Block, a, other);
    var row :| row in v.rows && v.rows[row] == r && OfPair(r, a, other) && forall q | q in v.rows && OfPair(v.rows[q], a, other) :: q == row;
  }

  /** A step in which `a` removes what is between them and somebody. */
  predicate Removes(s: State, step: Step, a: Id) {
    step.Writes? && step.t in s.txs && s.txs[step.t].job.Plain? && s.txs[step.t].job.actor == a && s.txs[step.t].job.action == Remove
  }

  lemma BlockStandsOnce(steps: seq<Step>, step: Step, row: Id, a: Id)
    requires row in Run(steps).rows && Run(steps).rows[row].status == Blocked && Run(steps).rows[row].blockedBy == Some(a)
    requires !Removes(Run(steps), step, a)
    ensures row in Run(steps + [step]).rows && Run(steps + [step]).rows[row] == Run(steps).rows[row]
  {
    assert (steps + [step])[..|steps|] == steps;
    if Enabled(Run(steps), step) {
      OnlyBlockerEndsBlock(steps, step, row);
    }
    hide Next;
  }

  /** Whatever anyone does afterwards, requests, acceptances and invitations included: only a removal by `a` ends it. */
  lemma {:induction false} BlockStands(before: seq<Step>, steps: seq<Step>, row: Id, a: Id)
    requires row in Run(before).rows && Run(before).rows[row].status == Blocked && Run(before).rows[row].blockedBy == Some(a)
    requires forall i | 0 <= i < |steps| :: !Removes(Run(before + steps[..i]), steps[i], a)
    ensures row in Run(before + steps).rows && Run(before + steps).rows[row] == Run(before).rows[row]
  {
    hide Run, Removes;
    if |steps| == 0 {
      assert before + steps == before;
    } else {
      var init, step := steps[..|steps| - 1], steps[|steps| - 1];
      forall i | 0 <= i < |init|
        ensures !Removes(Run(before + init[..i]), init[i], a)
      {
        assert init[..i] == steps[..i] && init[i] == steps[i];
      }
      BlockStands(before, init, row, a);
      BlockStandsOnce(before + init, step, row, a);
      assert before + init + [step] == before + steps;
    }
  }

  // ----- redeeming an invitation -----

  /** The clock that transaction `t` went by when it last read. */
  ghost function ClockRead(steps: seq<Step>, t: Id): Option<nat> {
    if |steps| == 0 then None
    else
      var init, step := steps[..|steps| - 1], steps[|steps| - 1];
      if step.Reads? && step.t == t && Enabled(Run(init), step) then Some(step.now) else ClockRead(init, t)
  }

  /** The invitation as a redeemer in the middle of it must see it. */
  ghost predicate Open(s: State, invitation: Id, user: Id, clock: Option<nat>) {
    && invitation in s.invitations && s.invitations[invitation].inviter != user
    && s.invitations[invitation].revokedAt.None?
    && clock.Some? && clock.value < s.invitations[invitation].expiresAt
    && Uses(s.acceptances, invitation) < s.invitations[invitation].maxUses
    && Acceptance(invitation, user) !in s.acceptances
  }

  lemma ReadFindsOpen(s: State, t: Id, now: nat)
    requires Enabled(s, Reads(t, now)) && s.txs[t].job.Redeem? && Next(s, Reads(t, now)).txs[t].phase.Read?
    ensures Open(Next(s, Reads(t, now)), s.txs[t].job.invitation, s.txs[t].job.user, Some(now))
  {
  }

  /** While a redeemer holds the invitation, nobody revokes it or spends a use of it. */
  lemma OpenStays(s: State, step: Step, t: Id, clock: Option<nat>)
    requires Inv(s) && Enabled(s, step) && t in s.txs && s.txs[t].job.Redeem? && s.txs[t].phase.Read?
    requires t in Next(s, step).txs && Next(s, step).txs[t] == s.txs[t]
    requires Open(s, s.txs[t].job.invitation, s.txs[t].job.user, clock)
    ensures Open(Next(s, step), s.txs[t].job.invitation, s.txs[t].job.user, clock)
  {
    hide RowsOk, UsesOk, Written;
    if step.Writes? {
      WriteTouchesOneTx(s, step.t);
      assert TxOk(s, step.t);
      WriteUses(s, step.t);
      if s.txs[step.t].job.Redeem? {
        UsesGrow(s.acceptances, Acceptance(s.txs[step.t].job.invitation, s.txs[step.t].job.user), s.txs[t].job.invitation);
      }
    }
  }

  lemma {:induction false} HoldersAreOpen(steps: seq<Step>, t: Id)
    requires t in Run(steps).txs && Run(steps).txs[t].job.Redeem? && Run(steps).txs[t].phase.Read?
    ensures Open(Run(steps), Run(steps).txs[t].job.invitation, Run(steps).txs[t].job.user, ClockRead(steps, t))
  {
    if |steps| > 0 {
      var init, step := steps[..|steps| - 1], steps[|steps| - 1];
      var s := Run(init);
      RunKeepsInv(init);
      if !Enabled(s, step) {
        HoldersAreOpen(init, t);
      } else if step.Reads? && step.t == t {
        ReadFindsOpen(s, t, step.now);
      } else {
        WaitingStays(s, step, t);
        HoldersAreOpen(init, t);
        OpenStays(s, step, t, ClockRead(init, t));
      }
    }
  }

  lemma WaitingStays(s: State, step: Step, t: Id)
    requires Enabled(s, step) && t in Next(s, step).txs && Next(s, step).txs[t].phase.Read?
    requires !(step.Reads? && step.t == t)
    ensures t in s.txs && Next(s, step).txs[t] == s.txs[t]
  {
    hide Written;
    if step.Writes? {
      WriteTouchesOneTx(s, step.t);
    }
  }

  /**
   * A use is spent only on an open invitation: the clock the redeemer had read lay before its expiry, and at the write
   * it was not revoked, had uses left, was somebody else's and had not been redeemed by the same person.
   */
  lemma UseNeedsOpenInvitation(steps: seq<Step>, step: Step)
    requires Enabled(Run(steps), step) && Next(Run(steps), step).acceptances != Run(steps).acceptances
    ensures
      var s := Run(steps);
      && step.Writes? && s.txs[step.t].job.Redeem?
      && var invitation, user := s.txs[step.t].job.invitation, s.txs[step.t].job.user;
      && Next(s, step).acceptances == s.acceptances + [Acceptance(invitation, user)]
      && Open(s, invitation, user, ClockRead(steps, step.t))
  {
    hide Run, Written, Open, PhaseAfterRead;
    if step.Writes? {
      WriteUses(Run(steps), step.t);
      if Run(steps).txs[step.t].job.Redeem? {
        HoldersAreOpen(steps, step.t);
      }
    }
  }

  /** How a redeemer's read ends: only an open invitation is gone on with, and each refusal has its own reason. */
  lemma RedeemerReads(s: State, t: Id, now: nat)
    requires Enabled(s, Reads(t, now)) && s.txs[t].job.Redeem?
    ensures
      var job, phase := s.txs[t].job, Next(s, Reads(t, now)).txs[t].phase;
      if job.invitation !in s.invitations then phase == Finished(InviteInvalid)
      else
        var i := s.invitations[job.invitation];
        && (phase == Finished(InviteSelf) <==> i.inviter == job.user)
        && (phase == Finished(AlreadyRedeemed) <==> i.inviter != job.user && Acceptance(job.invitation, job.user) in s.acceptances)
        && (phase == Finished(InviteGone) <==>
              && i.inviter != job.user && Acceptance(job.invitation, job.user) !in s.acceptances
              && (i.revokedAt.Some? || i.expiresAt <= now || Uses(s.acceptances, job.invitation) >= i.maxUses))
        && (phase.Read? <==> Open(s, job.invitation, job.user, Some(now)))
        && (phase.Read? ==> phase.other == i.inviter)
  {
  }

  // ----- reading and keeping -----

  lemma OnlyRowOf(s: State, one: Id, other: Id, row: Id)
    requires RowsOk(s) && row in s.rows && OfPair(s.rows[row], one, other)
    ensures OnlyRow(s.rows, one, other, s.rows[row])
  {
  }

  /** How a route's read ends: a request is found by its members only, a person by whatever row the pair has. */
  lemma RouteReads(s: State, t: Id, now: nat)
    requires Inv(s) && Enabled(s, Reads(t, now)) && s.txs[t].job.Plain?
    ensures
      var actor, phase := s.txs[t].job.actor, Next(s, Reads(t, now)).txs[t].phase;
      match s.txs[t].job.target
      case RequestRow(row) =>
        if row in s.rows && s.rows[row].userA == actor then phase == Read(s.rows[row].userB, Some(Found(row, s.rows[row])))
        else if row in s.rows && s.rows[row].userB == actor then phase == Read(s.rows[row].userA, Some(Found(row, s.rows[row])))
        else phase == Finished(NotFound)
      case User(other) =>
        && phase.Read? && phase.other == other
        && match phase.found
           case None => NoRow(s.rows, actor, other)
           case Some(found) => found.row in s.rows && s.rows[found.row] == found.record && OnlyRow(s.rows, actor, other, found.record)
  {
    assert TxOk(s, t);
    if s.txs[t].job.target.User? {
      var found := PairRow(s.rows, s.txs[t].job.actor, s.txs[t].job.target.id);
      if found.Some? {
        OnlyRowOf(s, s.txs[t].job.actor, s.txs[t].job.target.id, found.value.row);
      }
    }
    hide RowsOk;
  }

  /** An invitation is stored as issued, and revoked at its inviter's word, once and for good; no other step touches it. */
  lemma InvitationsAreKept(s: State, step: Step, i: Id)
    requires Enabled(s, step)
    ensures
      var v := Next(s, step);
      if i !in s.invitations then
        i in v.invitations <==> step.Issues? && step.invitation == i
      else
        && i in v.invitations
        && v.invitations[i] == if step.Revokes? && step.invitation == i && s.invitations[i].revokedAt.None?
                               then s.invitations[i].(revokedAt := Some(step.now)) else s.invitations[i]
    ensures step.Issues? ==>
              step.invitation in Next(s, step).invitations
              && Next(s, step).invitations[step.invitation] == Invitation(step.inviter, step.maxUses, step.expiresAt, None)
    ensures step.Revokes? ==> step.invitation in s.invitations && s.invitations[step.invitation].inviter == step.inviter
  {
    if step.Writes? {
      WriteUses(s, step.t);
    }
    hide Written;
  }
}
