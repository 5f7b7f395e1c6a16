/**
 * The tables of friendships and invitations, and the two transactions that write them as the services
 * perform them: each is proved to be the run of its read and its write in `FriendshipRuns`.
 */
module FriendshipDb {
  import opened Wrappers
  import opened Friendship
  import opened FriendshipRuns
  import opened FriendshipEffects

  /** Job `job` from beginning to end, with nobody else at work. */
  ghost function Alone(s: State, job: Job, now: nat): State {
    var begun := s.(txs := map[0 := Tx(job, Ready, false)]);
    var read := begun.(txs := map[0 := Tx(job, PhaseAfterRead(begun, job, now), false)]);
    if read.txs[0].phase.Read? && ActorOf(job) != read.txs[0].phase.other then Written(read, 0) else read
  }

  /** What `acceptInviteIn` hands back: the error it swallows, or whether a friendship was made. */
  datatype Transitioned = Made | Kept | Thrown(result: Ending)

  class Tables {
    var rows: map<Id, Record>
    var nextRow: Id
    var invitations: map<Id, Invitation>
    var acceptances: seq<Acceptance>
    ghost var consents: set<Consent>

    ghost function Now(): State
      reads this
    {
      State(rows, nextRow, map[], consents, invitations, acceptances)
    }

    ghost predicate Valid()
      reads this
    {
      Inv(Now())
    }

    constructor ()
      ensures Valid() && Now() == START
    {
      rows, nextRow, invitations, acceptances := map[], 0, map[], [];
      consents := {};
    }

    /** `findPair`: a pair's row, if it has one. */
    method FindPair(one: Id, other: Id) returns (found: Option<Found>)
      requires Valid()
      ensures found == PairRow(rows, one, other)
    {
      if row :| row in rows && OfPair(rows[row], one, other) {
        OnlyRowOfPair(Now(), one, other, row);
        return Some(Found(row, rows[row]));
      }
      return None;
    }

    /** `transitionIn` on the row that was read, for an actor and the other member of the pair. */
    method TransitionIn(actor: Id, other: Id, action: Action, found: Option<Found>, ghost job: Job) returns (done: Transitioned)
      requires Valid() && actor != other && ActorOf(job) == actor && ActionOf(job) == action
      requires found.Some? ==> found.value.row in rows && rows[found.value.row] == found.value.record
      requires found.None? ==> !PairTaken(Now(), actor, other)
      modifies this`rows, this`nextRow, this`consents
      ensures
        var outcome := OutcomeOf(RecordOf(found), action, actor);
        match outcome
        case Refused(reason) => done == Thrown(RefusedBy(reason)) && unchanged(this)
        case Unchanged => done == Kept && unchanged(this)
        case Create(status) =>
          && done == (if status == Accepted then Made else Kept)
          && rows == old(rows)[old(nextRow) := Created(actor, other, action, status)] && nextRow == old(nextRow) + 1
          && consents == old(consents) + ConsentsOf(job, other, old(nextRow))
        case Update(to) =>
          && done == (if to == Accepted then Made else Kept)
          && (found.None? || (rows == old(rows)[found.value.row := Updated(found.value.record, actor, to)] && nextRow == old(nextRow)))
          && (found.None? || consents == old(consents) + ConsentsOf(job, other, found.value.row))
        case Delete =>
          && done == Kept
          && (found.None? || (rows == map p | p in old(rows) && p != found.value.row :: old(rows)[p]))
          && nextRow == old(nextRow) && consents == old(consents)
    {
      var outcome := OutcomeOf(RecordOf(found), action, actor);
      match outcome {
        case Refused(reason) =>
          return Thrown(RefusedBy(reason));
        case Unchanged =>
          return Kept;
        case Create(status) =>
          consents := consents + ConsentsOf(job, other, nextRow);
          rows := rows[nextRow := Created(actor, other, action, status)];
          nextRow := nextRow + 1;
          return if status == Accepted then Made else Kept;
        case Update(to) =>
          var before := found.value;
          rows := rows[before.row := Updated(before.record, actor, to)];
          consents := consents + ConsentsOf(job, other, before.row);
          return if to == Accepted then Made else Kept;
        case Delete =>
          var before := found.value;
          rows := map p | p in rows && p != before.row :: rows[p];
          return Kept;
      }
    }

    /** A friendship route that addresses a person. */
    method Apply(actor: Id, other: Id, action: Action) returns (result: Ending)
      requires Valid() && Addressed(Plain(actor, User(other), action))
      modifies this`rows, this`nextRow, this`consents
      ensures Now() == Alone(old(Now()), Plain(actor, User(other), action), 0).(txs := map[])
      ensures Finished(result) == Alone(old(Now()), Plain(actor, User(other), action), 0).txs[0].phase
      ensures result == Succeeded <==> Allowed(PairRow(old(rows), actor, other), action, actor)
      ensures
        if result == Succeeded then Leaves(PairRow(old(rows), actor, other), rows, action, actor, other) else rows == old(rows)
      ensures Valid()
    {
      hide Inv, RecordOk, OfPair, NormalizePair, Uses, PairRow, Alone, Allowed, Leaves;
      AloneKeepsInv(Now(), Plain(actor, User(other), action), 0);
      var found := FindPair(actor, other);
      FoundIsThere(Now(), actor, other);
      AloneByOutcome(Now(), Plain(actor, User(other), action), other, found, 0);
      AloneLeaves(Now(), Plain(actor, User(other), action), other, found, 0);
      var done := TransitionIn(actor, other, action, found, Plain(actor, User(other), action));
      return if done.Thrown? then done.result else Succeeded;
    }

    /** `acceptOnce`: every refusal of the friendship is reported as an invalid invitation. */
    method AcceptOnce(user: Id, invitation: Id, now: nat) returns (result: Ending)
      requires Valid()
      modifies this
      ensures Now() == Alone(old(Now()), Redeem(user, invitation), now).(txs := map[])
      ensures Finished(result) == Alone(old(Now()), Redeem(user, invitation), now).txs[0].phase
      ensures invitation !in old(invitations) ==> result == InviteInvalid
      ensures
        invitation in old(invitations) ==>
          var i := old(invitations)[invitation];
          && (result == InviteSelf <==> i.inviter == user)
          && (result == AlreadyRedeemed <==> i.inviter != user && Acceptance(invitation, user) in old(acceptances))
          && (result == InviteGone <==>
                && i.inviter != user && Acceptance(invitation, user) !in old(acceptances)
                && (i.revokedAt.Some? || i.expiresAt <= now || Uses(old(acceptances), invitation) >= i.maxUses))
          && (result == Succeeded && !HasStatus(PairRow(old(rows), user, i.inviter), Accepted) ==>
                && Leaves(PairRow(old(rows), user, i.inviter), rows, Invite, user, i.inviter)
                && acceptances == old(acceptances) + [Acceptance(invitation, user)])
      ensures Valid()
    {
      hide Inv, RecordOk, OfPair, NormalizePair, Uses, PairRow, Alone, Allowed, Leaves, PhaseAfterRead;
      AloneKeepsInv(Now(), Redeem(user, invitation), now);
      AloneRedeems(Now(), user, invitation, now);
      if invitation !in invitations {
        return InviteInvalid;
      }
      var row := invitations[invitation];
      if row.inviter == user {
        return InviteSelf;
      }
      if Acceptance(invitation, user) in acceptances {
        return AlreadyRedeemed;
      }
      if row.revokedAt.Some? || row.expiresAt <= now || Uses(acceptances, invitation) >= row.maxUses {
        return InviteGone;
      }
      var found := FindPair(user, row.inviter);
      FoundIsThere(Now(), user, row.inviter);
      AloneByOutcome(Now(), Redeem(user, invitation), row.inviter, found, now);
      AloneLeaves(Now(), Redeem(user, invitation), row.inviter, found, now);
      var done := TransitionIn(user, row.inviter, Invite, found, Redeem(user, invitation));
      if done.Thrown? {
        return InviteInvalid;
      }
      if done.Made? {
        acceptances := acceptances + [Acceptance(invitation, user)];
      }
      return Succeeded;
    }

    /** `revoke`: once, by the inviter; a second time changes nothing. */
    method Revoke(inviter: Id, invitation: Id, now: nat) returns (result: Ending)
      requires Valid()
      modifies this`invitations
      ensures
        var known := invitation in old(invitations) && old(invitations)[invitation].inviter == inviter;
        && result == (if known then Succeeded else NotFound)
        && Now() == if known then Next(old(Now()), Revokes(invitation, inviter, now)) else old(Now())
      ensures Valid()
    {
      hide Inv;
      if invitation in invitations && invitations[invitation].inviter == inviter {
        NextKeepsInv(Now(), Revokes(invitation, inviter, now));
      }
      if invitation !in invitations || invitations[invitation].inviter != inviter {
        return NotFound;
      }
      if invitations[invitation].revokedAt.None? {
        invitations := invitations[invitation := invitations[invitation].(revokedAt := Some(now))];
      }
      return Succeeded;
    }
  }

  lemma AloneKeepsInv(s: State, job: Job, now: nat)
    requires Inv(s) && s.txs == map[] && Addressed(job)
    ensures Inv(Alone(s, job, now).(txs := map[]))
  {
    hide RowsOk, UsesOk, TxOk, Written, PhaseAfterRead;
    NextKeepsInv(s, Begin(0, job));
    var begun := Next(s, Begin(0, job));
    assert begun == s.(txs := map[0 := Tx(job, Ready, false)]);
    NextKeepsInv(begun, Reads(0, now));
    var read := Next(begun, Reads(0, now));
    assert read == begun.(txs := map[0 := Tx(job, PhaseAfterRead(begun, job, now), false)]);
    if Enabled(read, Writes(0)) {
      NextKeepsInv(read, Writes(0));
    }
    WithoutTransactions(Alone(s, job, now));
  }

  lemma WithoutTransactions(s: State)
    requires Inv(s)
    ensures Inv(s.(txs := map[]))
  {
    var v := s.(txs := map[]);
    forall row | row in v.rows
      ensures RowOk(v, row)
    {
      assert RowOk(s, row);
      ConsentStays(s, v, row, s.rows[row]);
    }
  }

  /** The run alone, told by the outcome the table gives for the row that was found. */
  lemma AloneByOutcome(s: State, job: Job, other: Id, found: Option<Found>, now: nat)
    requires s.txs == map[] && ActorOf(job) != other
    requires PhaseAfterRead(s.(txs := map[0 := Tx(job, Ready, false)]), job, now) == Read(other, found)
    requires if found.None? then !PairTaken(s, ActorOf(job), other)
             else found.value.row in s.rows && s.rows[found.value.row] == found.value.record
    ensures
      var end := Alone(s, job, now);
      var actor, action := ActorOf(job), ActionOf(job);
      match OutcomeOf(RecordOf(found), action, actor)
      case Refused(reason) =>
        end.(txs := map[]) == s && end.txs[0].phase == Finished(if job.Redeem? then InviteInvalid else RefusedBy(reason))
      case Unchanged => end.(txs := map[]) == s && end.txs[0].phase == Finished(Succeeded)
      case Create(status) =>
        && end.txs[0].phase == Finished(Succeeded)
        && end.(txs := map[]) == s.(rows := s.rows[s.nextRow := Created(actor, other, action, status)], nextRow := s.nextRow + 1,
                                    consents := s.consents + ConsentsOf(job, other, s.nextRow),
                                    acceptances := WithUse(s, job, status).acceptances)
      case Update(to) =>
        found.Some? ==>
          && end.txs[0].phase == Finished(Succeeded)
          && end.(txs := map[]) == s.(rows := s.rows[found.value.row := Updated(found.value.record, actor, to)],
                                      consents := s.consents + ConsentsOf(job, other, found.value.row),
                                      acceptances := WithUse(s, job, to).acceptances)
      case Delete =>
        found.Some? ==>
          && end.txs[0].phase == Finished(Succeeded)
          && end.(txs := map[]) == s.(rows := map p | p in s.rows && p != found.value.row :: s.rows[p])
  {
  }

  /** The run alone, told by what it leaves of the pair's rows. */
  lemma AloneLeaves(s: State, job: Job, other: Id, found: Option<Found>, now: nat)
    requires Inv(s) && s.txs == map[] && ActorOf(job) != other && Addressed(job)
    requires PhaseAfterRead(s.(txs := map[0 := Tx(job, Ready, false)]), job, now) == Read(other, found)
    requires if found.None? then !PairTaken(s, ActorOf(job), other)
             else found.value.row in s.rows && s.rows[found.value.row] == found.value.record
    ensures
      var end := Alone(s, job, now);
      var actor, action := ActorOf(job), ActionOf(job);
      var kept := action == Invite && HasStatus(found, Accepted);
      && (end.txs[0].phase == Finished(Succeeded) <==> Allowed(found, action, actor))
      && (end.txs[0].phase == Finished(Succeeded) && !kept ==> Leaves(found, end.rows, action, actor, other))
      && (end.txs[0].phase != Finished(Succeeded) || kept ==> end.rows == s.rows)
  {
    NextKeepsInv(s, Begin(0, job));
    var begun := s.(txs := map[0 := Tx(job, Ready, false)]);
    assert Next(s, Begin(0, job)) == begun;
    NextKeepsInv(begun, Reads(0, now));
    var read := begun.(txs := map[0 := Tx(job, Read(other, found), false)]);
    assert Next(begun, Reads(0, now)) == read;
    assert TxOk(read, 0);
    hide RowsOk, UsesOk, TxOk, Written, Leaves, Allowed;
    WriteLeavesBehind(read, 0);
  }

  /** A redemption alone: refused without a write, or gone on with by the row of the pair. */
  lemma AloneRedeems(s: State, user: Id, invitation: Id, now: nat)
    requires s.txs == map[]
    ensures
      var end := Alone(s, Redeem(user, invitation), now);
      if invitation !in s.invitations then end.(txs := map[]) == s && end.txs[0].phase == Finished(InviteInvalid)
      else
        var i := s.invitations[invitation];
        if i.inviter == user then end.(txs := map[]) == s && end.txs[0].phase == Finished(InviteSelf)
        else if Acceptance(invitation, user) in s.acceptances then
          end.(txs := map[]) == s && end.txs[0].phase == Finished(AlreadyRedeemed)
        else if i.revokedAt.Some? || i.expiresAt <= now || Uses(s.acceptances, invitation) >= i.maxUses then
          end.(txs := map[]) == s && end.txs[0].phase == Finished(InviteGone)
        else
          PhaseAfterRead(s.(txs := map[0 := Tx(Redeem(user, invitation), Ready, false)]), Redeem(user, invitation), now)
          == Read(i.inviter, PairRow(s.rows, user, i.inviter))
  {
    hide PairRow, Uses;
  }

  lemma OnlyRowOfPair(s: State, one: Id, other: Id, row: Id)
    requires RowsOk(s) && row in s.rows && OfPair(s.rows[row], one, other)
    ensures PairRow(s.rows, one, other) == Some(Found(row, s.rows[row]))
  {
    var found := PairRow(s.rows, one, other).value;
    assert found.row in s.rows && OfPair(s.rows[found.row], one, other);
  }

  lemma FoundIsThere(s: State, one: Id, other: Id)
    ensures
      var found := PairRow(s.rows, one, other);
      if found.None? then !PairTaken(s, one, other)
      else found.value.row in s.rows && s.rows[found.value.row] == found.value.record
  {
  }
}
