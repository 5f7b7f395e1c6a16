/**
 * Friendships and invitations under concurrency. A transaction reads the pair's row, decides by the table
 * and writes under a condition: an insert may hit the unique pair, an update or delete requires the row to
 * have the status that was read. Redeeming an invitation holds its row locked from the read to the write.
 * Between the two statements of one transaction any others may commit.
 */
module FriendshipRuns {
  import opened Wrappers
  import opened Friendship

  datatype Target = User(id: Id) | RequestRow(row: Id)

  datatype Job = Plain(actor: Id, target: Target, action: Action) | Redeem(user: Id, invitation: Id)

  datatype Ending =
    | Succeeded
    | RefusedBy(reason: Reason)
    | NotFound
    | Conflict
    | UniqueViolation
    | InviteInvalid
    | InviteGone
    | InviteSelf
    | AlreadyRedeemed

  datatype Found = Found(row: Id, record: Record)

  datatype Phase = Ready | Read(other: Id, found: Option<Found>) | Finished(result: Ending)

  datatype Tx = Tx(job: Job, phase: Phase, retried: bool)

  datatype Invitation = Invitation(inviter: Id, maxUses: nat, expiresAt: nat, revokedAt: Option<nat>)

  datatype Acceptance = Acceptance(invitation: Id, user: Id)

  /** A person's act of consent to the friendship of one row: an own act, or an invitation that was redeemed. */
  datatype Consent = Acted(row: Id, person: Id) | Issued(row: Id, person: Id, invitation: Id)

  datatype State = State(
    rows: map<Id, Record>,
    nextRow: Id,
    txs: map<Id, Tx>,
    consents: set<Consent>,
    invitations: map<Id, Invitation>,
    acceptances: seq<Acceptance>)

  const START := State(map[], 0, map[], {}, map[], [])

  // ----- reading -----

  predicate OfPair(r: Record, one: Id, other: Id) {
    one != other && (r.userA, r.userB) == NormalizePair(one, other)
  }

  ghost function PairRow(rows: map<Id, Record>, one: Id, other: Id): Option<Found> {
    if exists row | row in rows :: OfPair(rows[row], one, other) then
      var row :| row in rows && OfPair(rows[row], one, other);
      Some(Found(row, rows[row]))
    else None
  }

  predicate InvitationLocked(s: State, invitation: Id) {
    exists t | t in s.txs :: s.txs[t].job.Redeem? && s.txs[t].job.invitation == invitation && s.txs[t].phase.Read?
  }

  function Uses(acceptances: seq<Acceptance>, invitation: Id): nat {
    if |acceptances| == 0 then 0
    else
      Uses(acceptances[..|acceptances| - 1], invitation)
      + if acceptances[|acceptances| - 1].invitation == invitation then 1 else 0
  }

  /** `invitationStatusOf`: revoked before expired before used up. */
  predicate InvitationActive(s: State, invitation: Id, now: nat)
    requires invitation in s.invitations
  {
    var i := s.invitations[invitation];
    i.revokedAt.None? && now < i.expiresAt && Uses(s.acceptances, invitation) < i.maxUses
  }

  /** `locate`, and for an invitation the checks made under its lock. */
  ghost function PhaseAfterRead(s: State, job: Job, now: nat): Phase {
    match job
    case Plain(actor, User(other), _) => Read(other, PairRow(s.rows, actor, other))
    case Plain(actor, RequestRow(row), _) =>
      if row !in s.rows || !IsMember(s.rows[row], actor) then Finished(NotFound)
      else Read(OtherOf(s.rows[row], actor), Some(Found(row, s.rows[row])))
    case Redeem(user, invitation) =>
      if invitation !in s.invitations then Finished(InviteInvalid)
      else if s.invitations[invitation].inviter == user then Finished(InviteSelf)
      else if Acceptance(invitation, user) in s.acceptances then Finished(AlreadyRedeemed)
      else if !InvitationActive(s, invitation, now) then Finished(InviteGone)
      else
        var inviter := s.invitations[invitation].inviter;
        Read(inviter, PairRow(s.rows, user, inviter))
  }

  // ----- writing -----

  function ActorOf(job: Job): Id {
    if job.Plain? then job.actor else job.user
  }

  function ActionOf(job: Job): Action {
    if job.Plain? then job.action else Invite
  }

  function RecordOf(found: Option<Found>): Option<Record> {
    if found.None? then None else Some(found.value.record)
  }

  /** Asking, accepting and redeeming are acts of consent to the friendship of the row that is written. */
  function ConsentsOf(job: Job, other: Id, row: Id): set<Consent> {
    match job
    case Redeem(user, invitation) => {Acted(row, user), Issued(row, other, invitation)}
    case Plain(actor, _, action) => if action == Request || action == Accept then {Acted(row, actor)} else {}
  }

  function WithConsent(s: State, job: Job, other: Id, row: Id): State {
    s.(consents := s.consents + ConsentsOf(job, other, row))
  }

  function WithUse(s: State, job: Job, status: Status): State {
    if job.Redeem? && status == Accepted
    then s.(acceptances := s.acceptances + [Acceptance(job.invitation, job.user)]) else s
  }

  function Ended(s: State, t: Id, result: Ending): State
    requires t in s.txs
  {
    s.(txs := s.txs[t := s.txs[t].(phase := Finished(result))])
  }

  /** A refusal or a lost race: redeeming an invitation reports both as an invalid invitation. */
  function Failed(s: State, t: Id, result: Ending): State
    requires t in s.txs
  {
    Ended(s, t, if s.txs[t].job.Redeem? then InviteInvalid else result)
  }

  predicate PairTaken(s: State, one: Id, other: Id) {
    exists row | row in s.rows :: OfPair(s.rows[row], one, other)
  }

  function Inserted(s: State, t: Id, status: Status): State
    requires t in s.txs && s.txs[t].phase.Read? && ActorOf(s.txs[t].job) != s.txs[t].phase.other
  {
    var job, other := s.txs[t].job, s.txs[t].phase.other;
    if PairTaken(s, ActorOf(job), other) then
      if s.txs[t].retried then Ended(s, t, UniqueViolation)
      else s.(txs := s.txs[t := Tx(job, Ready, true)])
    else
      Ended(WithUse(WithConsent(s.(rows := s.rows[s.nextRow := Created(ActorOf(job), other, ActionOf(job), status)],
                                   nextRow := s.nextRow + 1), job, other, s.nextRow), job, status),
            t, Succeeded)
  }

  predicate StillThere(s: State, found: Found) {
    found.row in s.rows && s.rows[found.row].status == found.record.status
  }

  function Written(s: State, t: Id): State
    requires t in s.txs && s.txs[t].phase.Read? && ActorOf(s.txs[t].job) != s.txs[t].phase.other
  {
    var job, other, found := s.txs[t].job, s.txs[t].phase.other, s.txs[t].phase.found;
    match OutcomeOf(RecordOf(found), ActionOf(job), ActorOf(job))
    case Refused(reason) => Failed(s, t, RefusedBy(reason))
    case Unchanged => Ended(s, t, Succeeded)
    case Create(status) => Inserted(s, t, status)
    case Delete =>
      if found.None? || !StillThere(s, found.value) then Failed(s, t, Conflict)
      else Ended(s.(rows := map row | row in s.rows && row != found.value.row :: s.rows[row]), t, Succeeded)
    case Update(to) =>
      if found.None? || !StillThere(s, found.value) then Failed(s, t, Conflict)
      else
        Ended(WithUse(WithConsent(s.(rows := s.rows[found.value.row := Updated(found.value.record, ActorOf(job), to)]),
                                  job, other, found.value.row), job, to), t, Succeeded)
  }

  // ----- steps -----

  datatype Step =
    | Begin(t: Id, job: Job)
    | Reads(t: Id, now: nat)
    | Writes(t: Id)
    | Issues(invitation: Id, inviter: Id, maxUses: nat, expiresAt: nat)
    | Revokes(invitation: Id, inviter: Id, now: nat)

  /** What the routes let through: nobody acts on a pair with themselves, and `invite` is not a route. */
  predicate Addressed(job: Job) {
    job.Plain? ==> job.action != Invite && (job.target.User? ==> job.target.id != job.actor)
  }

  predicate Enabled(s: State, step: Step) {
    match step
    case Begin(t, job) => t !in s.txs && Addressed(job)
    case Reads(t, _) =>
      t in s.txs && s.txs[t].phase.Ready? && (s.txs[t].job.Redeem? ==> !InvitationLocked(s, s.txs[t].job.invitation))
    case Writes(t) => t in s.txs && s.txs[t].phase.Read? && ActorOf(s.txs[t].job) != s.txs[t].phase.other
    case Issues(invitation, _, _, _) => invitation !in s.invitations
    case Revokes(invitation, inviter, _) =>
      invitation in s.invitations && s.invitations[invitation].inviter == inviter && !InvitationLocked(s, invitation)
  }

  ghost function Next(s: State, step: Step): State
    requires Enabled(s, step)
  {
    match step
    case Begin(t, job) => s.(txs := s.txs[t := Tx(job, Ready, false)])
    case Reads(t, now) => s.(txs := s.txs[t := s.txs[t].(phase := PhaseAfterRead(s, s.txs[t].job, now))])
    case Writes(t) => Written(s, t)
    case Issues(invitation, inviter, maxUses, expiresAt) =>
      s.(invitations := s.invitations[invitation := Invitation(inviter, maxUses, expiresAt, None)])
    case Revokes(invitation, _, now) =>
      if s.invitations[invitation].revokedAt.Some? then s
      else s.(invitations := s.invitations[invitation := s.invitations[invitation].(revokedAt := Some(now))])
  }

  ghost function Run(steps: seq<Step>): State {
    if |steps| == 0 then START
    else
      var s := Run(steps[..|steps| - 1]);
      var step := steps[|steps| - 1];
      if Enabled(s, step) then Next(s, step) else s
  }

  // ----- the invariant -----

  /** The friendship of `row` was made by `other` redeeming an invitation that `one` had issued. */
  predicate Invited(s: State, row: Id, one: Id, other: Id) {
    exists c | c in s.consents ::
      && c.Issued? && c.row == row && c.person == one
      && c.invitation in s.invitations && s.invitations[c.invitation].inviter == one
      && Acceptance(c.invitation, other) in s.acceptances
  }

  /** `one` has consented to the friendship of this row, by an act of their own or an invitation. */
  predicate Willing(s: State, row: Id, one: Id, other: Id) {
    Acted(row, one) in s.consents || Invited(s, row, one, other)
  }

  predicate ConsentOk(s: State, row: Id, r: Record) {
    && (r.status == Pending ==> Willing(s, row, r.requestedBy, OtherOf(r, r.requestedBy)))
    && (r.status == Accepted ==> Willing(s, row, r.userA, r.userB) && Willing(s, row, r.userB, r.userA))
  }

  /** What a transaction has read was a good row, and it still is about the same pair, if it exists. */
  predicate FoundOk(s: State, job: Job, other: Id, found: Found) {
    && found.row < s.nextRow
    && RecordOk(found.record) && ConsentOk(s, found.row, found.record)
    && OfPair(found.record, ActorOf(job), other)
    && (found.row in s.rows ==> OfPair(s.rows[found.row], ActorOf(job), other))
    && (found.row in s.rows && found.record.status == Blocked ==> s.rows[found.row] == found.record)
  }

  predicate TxOk(s: State, t: Id)
    requires t in s.txs
  {
    var job, phase := s.txs[t].job, s.txs[t].phase;
    && Addressed(job)
    && (phase.Read? ==>
          && ActorOf(job) != phase.other
          && (phase.found.Some? ==> FoundOk(s, job, phase.other, phase.found.value))
          && (job.Redeem? ==>
                && job.invitation in s.invitations && s.invitations[job.invitation].inviter == phase.other
                && Uses(s.acceptances, job.invitation) < s.invitations[job.invitation].maxUses
                && Acceptance(job.invitation, job.user) !in s.acceptances))
  }

  predicate RowOk(s: State, row: Id)
    requires row in s.rows
  {
    row < s.nextRow && RecordOk(s.rows[row]) && ConsentOk(s, row, s.rows[row])
  }

  predicate RowsOk(s: State) {
    && (forall row | row in s.rows :: RowOk(s, row))
    && (forall p, q | p in s.rows && q in s.rows && p != q ::
          (s.rows[p].userA, s.rows[p].userB) != (s.rows[q].userA, s.rows[q].userB))
  }

  predicate OneRedeemer(s: State) {
    forall t, u | t in s.txs && u in s.txs && s.txs[t].job.Redeem? && s.txs[u].job.Redeem?
                  && s.txs[t].phase.Read? && s.txs[u].phase.Read?
                  && s.txs[t].job.invitation == s.txs[u].job.invitation :: t == u
  }

  predicate UsesOk(s: State) {
    && (forall k | 0 <= k < |s.acceptances| :: s.acceptances[k].invitation in s.invitations)
    && (forall i | i in s.invitations :: Uses(s.acceptances, i) <= s.invitations[i].maxUses)
    && (forall j, k | 0 <= j < k < |s.acceptances| :: s.acceptances[j] != s.acceptances[k])
  }

  predicate Inv(s: State) {
    RowsOk(s) && (forall t | t in s.txs :: TxOk(s, t)) && OneRedeemer(s) && UsesOk(s)
  }

  // ----- consent only grows -----

  predicate ConsentGrows(s: State, v: State) {
    && s.consents <= v.consents
    && s.acceptances <= v.acceptances
    && forall i | i in s.invitations :: i in v.invitations && v.invitations[i].inviter == s.invitations[i].inviter
  }

  lemma WillingStays(s: State, v: State, row: Id, one: Id, other: Id)
    requires ConsentGrows(s, v) && Willing(s, row, one, other)
    ensures Willing(v, row, one, other)
  {
    if Acted(row, one) !in s.consents {
      var c :| c in s.consents && c.Issued? && c.row == row && c.person == one
               && c.invitation in s.invitations && s.invitations[c.invitation].inviter == one
               && Acceptance(c.invitation, other) in s.acceptances;
      var k :| 0 <= k < |s.acceptances| && s.acceptances[k] == Acceptance(c.invitation, other);
      assert v.acceptances[k] == s.acceptances[k] && c in v.consents;
    }
  }

  lemma ConsentStays(s: State, v: State, row: Id, r: Record)
    requires ConsentGrows(s, v) && ConsentOk(s, row, r)
    ensures ConsentOk(v, row, r)
  {
    if r.status == Pending {
      WillingStays(s, v, row, r.requestedBy, OtherOf(r, r.requestedBy));
    } else if r.status == Accepted {
      WillingStays(s, v, row, r.userA, r.userB);
      WillingStays(s, v, row, r.userB, r.userA);
    }
  }

  lemma NextGrowsConsent(s: State, step: Step)
    requires Enabled(s, step)
    ensures ConsentGrows(s, Next(s, step))
  {
  }

  // ----- reading -----

  lemma FoundIsOk(s: State, job: Job, other: Id, row: Id)
    requires RowsOk(s) && row in s.rows && OfPair(s.rows[row], ActorOf(job), other)
    ensures FoundOk(s, job, other, Found(row, s.rows[row]))
  {
    assert RowOk(s, row);
  }

  lemma ReadIsOk(s: State, t: Id, now: nat)
    requires Inv(s) && Enabled(s, Reads(t, now))
    ensures TxOk(Next(s, Reads(t, now)), t)
  {
    var job := s.txs[t].job;
    assert TxOk(s, t);
    match job {
      case Plain(actor, User(other), _) =>
        if PairRow(s.rows, actor, other).Some? {
          FoundIsOk(s, job, other, PairRow(s.rows, actor, other).value.row);
        }
      case Plain(actor, RequestRow(row), _) =>
        if row in s.rows && IsMember(s.rows[row], actor) {
          assert RowOk(s, row);
          FoundIsOk(s, job, OtherOf(s.rows[row], actor), row);
        }
      case Redeem(user, invitation) =>
        if PhaseAfterRead(s, job, now).Read? {
          var inviter := s.invitations[invitation].inviter;
          if PairRow(s.rows, user, inviter).Some? {
            FoundIsOk(s, job, inviter, PairRow(s.rows, user, inviter).value.row);
          }
        }
    }
  }

  // ----- writing -----

  /** What a write does to the rows. */
  datatype Effect = Nothing | Adds(record: Record) | Drops(row: Id) | Changes(row: Id, record: Record)

  predicate HasEffect(s: State, v: State, one: Id, other: Id, e: Effect) {
    match e
    case Nothing => v.rows == s.rows && v.nextRow == s.nextRow
    case Adds(r) =>
      && !PairTaken(s, one, other) && OfPair(r, one, other) && RecordOk(r) && ConsentOk(v, s.nextRow, r)
      && v.rows == s.rows[s.nextRow := r] && v.nextRow == s.nextRow + 1
    case Drops(row) =>
      && row in s.rows && OfPair(s.rows[row], one, other)
      && v.nextRow == s.nextRow && v.rows == map p | p in s.rows && p != row :: s.rows[p]
    case Changes(row, r) =>
      && row in s.rows && s.rows[row].status != Blocked && OfPair(s.rows[row], one, other)
      && OfPair(r, one, other) && RecordOk(r) && ConsentOk(v, row, r)
      && v.rows == s.rows[row := r] && v.nextRow == s.nextRow
  }

  /** The record a write inserts or puts in place is good, and carries the consents it needs. */
  lemma NewRecordOk(s: State, t: Id, row: Id, r: Record)
    requires t in s.txs && TxOk(s, t) && Enabled(s, Writes(t)) && ConsentGrows(s, Written(s, t))
    requires
      var job, other, found := s.txs[t].job, s.txs[t].phase.other, s.txs[t].phase.found;
      && ConsentsOf(job, other, row) <= Written(s, t).consents
      && match OutcomeOf(RecordOf(found), ActionOf(job), ActorOf(job))
         case Create(status) =>
           && r == Created(ActorOf(job), other, ActionOf(job), status)
           && (job.Redeem? ==> Acceptance(job.invitation, job.user) in Written(s, t).acceptances)
         case Update(to) =>
           && found.Some? && row == found.value.row && r == Updated(found.value.record, ActorOf(job), to)
           && (job.Redeem? ==> Acceptance(job.invitation, job.user) in Written(s, t).acceptances)
         case _ => false
    ensures RecordOk(r) && OfPair(r, ActorOf(s.txs[t].job), s.txs[t].phase.other) && ConsentOk(Written(s, t), row, r)
  {
    var v := Written(s, t);
    var job, other, found := s.txs[t].job, s.txs[t].phase.other, s.txs[t].phase.found;
    hide Written;
    if job.Redeem? {
      assert Issued(row, other, job.invitation) in v.consents;
      assert job.invitation in v.invitations && v.invitations[job.invitation].inviter == other;
      assert Willing(v, row, other, ActorOf(job));
    }
    if found.Some? {
      ConsentStays(s, v, found.value.row, found.value.record);
    }
  }

  lemma WriteHasEffect(s: State, t: Id) returns (e: Effect)
    requires t in s.txs && TxOk(s, t) && Enabled(s, Writes(t))
    ensures HasEffect(s, Written(s, t), ActorOf(s.txs[t].job), s.txs[t].phase.other, e)
  {
    var v := Written(s, t);
    var job, other, found := s.txs[t].job, s.txs[t].phase.other, s.txs[t].phase.found;
    NextGrowsConsent(s, Writes(t));
    e := Nothing;
    match OutcomeOf(RecordOf(found), ActionOf(job), ActorOf(job)) {
      case Create(status) =>
        if !PairTaken(s, ActorOf(job), other) {
          e := Adds(Created(ActorOf(job), other, ActionOf(job), status));
          NewRecordOk(s, t, s.nextRow, e.record);
        }
      case Update(to) =>
        if found.Some? && StillThere(s, found.value) {
          e := Changes(found.value.row, Updated(found.value.record, ActorOf(job), to));
          NewRecordOk(s, t, e.row, e.record);
        }
      case Delete =>
        if found.Some? && StillThere(s, found.value) {
          e := Drops(found.value.row);
        }
      case _ =>
    }
  }

  /** The rows after a write: still one ordered row per pair, each with its consents. */
  lemma EffectKeepsRows(s: State, v: State, one: Id, other: Id, e: Effect)
    requires RowsOk(s) && ConsentGrows(s, v) && HasEffect(s, v, one, other, e)
    ensures RowsOk(v)
  {
    forall row | row in v.rows
      ensures RowOk(v, row)
    {
      if row in s.rows && v.rows[row] == s.rows[row] {
        assert RowOk(s, row);
        ConsentStays(s, v, row, s.rows[row]);
      } else if e.Changes? {
        assert RowOk(s, row);
      }
    }
    forall p, q | p in v.rows && q in v.rows && p != q
      ensures (v.rows[p].userA, v.rows[p].userB) != (v.rows[q].userA, v.rows[q].userB)
    {
      assert p in s.rows ==> RowOk(s, p);
      assert q in s.rows ==> RowOk(s, q);
    }
  }

  lemma WriteKeepsRows(s: State, t: Id)
    requires Inv(s) && Enabled(s, Writes(t))
    ensures RowsOk(Written(s, t))
  {
    hide RowsOk, TxOk, UsesOk, HasEffect, Written;
    var e := WriteHasEffect(s, t);
    NextGrowsConsent(s, Writes(t));
    EffectKeepsRows(s, Written(s, t), ActorOf(s.txs[t].job), s.txs[t].phase.other, e);
  }

  /** A transaction in the middle of its work is not disturbed by another one's write. */
  lemma EffectKeepsFound(s: State, v: State, one: Id, partner: Id, e: Effect, job: Job, other: Id, found: Found)
    requires RowsOk(s) && ConsentGrows(s, v) && HasEffect(s, v, one, partner, e) && FoundOk(s, job, other, found)
    ensures FoundOk(v, job, other, found)
  {
    ConsentStays(s, v, found.row, found.record);
  }

  lemma WriteKeepsFound(s: State, t: Id, job: Job, other: Id, found: Found)
    requires Inv(s) && Enabled(s, Writes(t)) && FoundOk(s, job, other, found)
    ensures FoundOk(Written(s, t), job, other, found)
  {
    hide RowsOk, TxOk, UsesOk, HasEffect, Written, FoundOk;
    var e := WriteHasEffect(s, t);
    NextGrowsConsent(s, Writes(t));
    EffectKeepsFound(s, Written(s, t), ActorOf(s.txs[t].job), s.txs[t].phase.other, e, job, other, found);
  }

  lemma {:induction false} UsesUnlessNew(acceptances: seq<Acceptance>, i: Id)
    requires forall k | 0 <= k < |acceptances| :: acceptances[k].invitation != i
    ensures Uses(acceptances, i) == 0
  {
    if |acceptances| > 0 {
      UsesUnlessNew(acceptances[..|acceptances| - 1], i);
    }
  }

  lemma UsesGrow(acceptances: seq<Acceptance>, a: Acceptance, i: Id)
    ensures Uses(acceptances + [a], i) == Uses(acceptances, i) + if a.invitation == i then 1 else 0
  {
    assert (acceptances + [a])[..|acceptances + [a]| - 1] == acceptances;
  }

  /** What a write does to the acceptances: nothing, or one more for the job that made the pair friends. */
  lemma WriteUses(s: State, t: Id)
    requires Enabled(s, Writes(t))
    ensures
      var v, job := Written(s, t), s.txs[t].job;
      || v.acceptances == s.acceptances
      || (job.Redeem? && v.acceptances == s.acceptances + [Acceptance(job.invitation, job.user)])
    ensures Written(s, t).invitations == s.invitations
  {
    hide Created, Updated, PairTaken, ConsentsOf, StillThere, ResolveTransition;
  }

  lemma WriteTouchesOneTx(s: State, t: Id)
    requires Enabled(s, Writes(t))
    ensures Written(s, t).txs.Keys == s.txs.Keys && !Written(s, t).txs[t].phase.Read?
    ensures Written(s, t).txs[t].job == s.txs[t].job
    ensures forall u | u in s.txs && u != t :: Written(s, t).txs[u] == s.txs[u]
  {
    hide Created, Updated, PairTaken, ConsentsOf, StillThere, ResolveTransition;
    match OutcomeOf(RecordOf(s.txs[t].phase.found), ActionOf(s.txs[t].job), ActorOf(s.txs[t].job)) {
      case Create(status) =>
      case Update(to) =>
      case _ =>
    }
  }

  lemma WriteKeepsTx(s: State, t: Id, u: Id)
    requires Inv(s) && Enabled(s, Writes(t)) && u in s.txs
    ensures u in Written(s, t).txs && TxOk(Written(s, t), u)
  {
    hide RowsOk, UsesOk, Written, FoundOk;
    var v := Written(s, t);
    WriteTouchesOneTx(s, t);
    assert TxOk(s, u) && TxOk(s, t);
    if u != t && s.txs[u].phase.Read? {
      var job := s.txs[u].job;
      if s.txs[u].phase.found.Some? {
        WriteKeepsFound(s, t, job, s.txs[u].phase.other, s.txs[u].phase.found.value);
      }
      WriteUses(s, t);
      if s.txs[t].job.Redeem? {
        UsesGrow(s.acceptances, Acceptance(s.txs[t].job.invitation, s.txs[t].job.user), if job.Redeem? then job.invitation else 0);
      }
    }
  }

  lemma WriteKeepsUses(s: State, t: Id)
    requires Inv(s) && Enabled(s, Writes(t))
    ensures UsesOk(Written(s, t))
  {
    var v := Written(s, t);
    assert TxOk(s, t);
    WriteUses(s, t);
    if s.txs[t].job.Redeem? {
      var a := Acceptance(s.txs[t].job.invitation, s.txs[t].job.user);
      forall i | i in v.invitations
        ensures Uses(v.acceptances, i) <= v.invitations[i].maxUses
      {
        UsesGrow(s.acceptances, a, i);
      }
    }
  }

  lemma WriteKeepsInv(s: State, t: Id)
    requires Inv(s) && Enabled(s, Writes(t))
    ensures Inv(Written(s, t))
  {
    hide RowsOk, TxOk, UsesOk;
    WriteKeepsRows(s, t);
    WriteKeepsUses(s, t);
    WriteTouchesOneTx(s, t);
    forall u | u in Written(s, t).txs
      ensures TxOk(Written(s, t), u)
    {
      WriteKeepsTx(s, t, u);
    }
    WriteKeepsRedeemers(s, t);
  }

  lemma WriteKeepsRedeemers(s: State, t: Id)
    requires OneRedeemer(s) && Enabled(s, Writes(t))
    ensures OneRedeemer(Written(s, t))
  {
    WriteTouchesOneTx(s, t);
  }

  // ----- every step -----

  lemma OtherStepsKeepRows(s: State, step: Step)
    requires Inv(s) && Enabled(s, step) && !step.Writes?
    ensures RowsOk(Next(s, step)) && UsesOk(Next(s, step)) && OneRedeemer(Next(s, step))
  {
    hide Written, ConsentOk, RecordOk, TxOk;
    var v := Next(s, step);
    NextGrowsConsent(s, step);
    forall row | row in v.rows
      ensures RowOk(v, row)
    {
      assert RowOk(s, row);
      ConsentStays(s, v, row, s.rows[row]);
    }
    if step.Issues? {
      UsesUnlessNew(s.acceptances, step.invitation);
    }
  }

  lemma OtherStepsKeepTx(s: State, step: Step, u: Id)
    requires Inv(s) && Enabled(s, step) && !step.Writes? && u in Next(s, step).txs
    ensures TxOk(Next(s, step), u)
  {
    var v := Next(s, step);
    NextGrowsConsent(s, step);
    if step.Reads? && step.t == u {
      ReadIsOk(s, u, step.now);
    } else if u in s.txs {
      assert TxOk(s, u);
      if s.txs[u].phase.Read? && s.txs[u].phase.found.Some? {
        ConsentStays(s, v, s.txs[u].phase.found.value.row, s.txs[u].phase.found.value.record);
      }
    }
  }

  lemma NextKeepsInv(s: State, step: Step)
    requires Inv(s) && Enabled(s, step)
    ensures Inv(Next(s, step))
  {
    hide RowsOk, TxOk, UsesOk, OneRedeemer;
    if step.Writes? {
      WriteKeepsInv(s, step.t);
    } else {
      OtherStepsKeepRows(s, step);
      forall u | u in Next(s, step).txs
        ensures TxOk(Next(s, step), u)
      {
        OtherStepsKeepTx(s, step, u);
      }
    }
  }

  lemma {:induction false} RunKeepsInv(steps: seq<Step>)
    ensures Inv(Run(steps))
  {
    if |steps| > 0 {
      var s := Run(steps[..|steps| - 1]);
      RunKeepsInv(steps[..|steps| - 1]);
      if Enabled(s, steps[|steps| - 1]) {
        NextKeepsInv(s, steps[|steps| - 1]);
      }
    }
  }
}
