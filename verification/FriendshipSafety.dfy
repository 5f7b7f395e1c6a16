/** What holds of friendships and invitations in every interleaving. */
module FriendshipSafety {
  import opened Wrappers
  import opened Friendship
  import opened FriendshipRuns

  // ----- the rows -----

  /** A pair has at most one row, with its members in order. */
  lemma OneOrderedRow(steps: seq<Step>, p: Id, q: Id)
    requires p in Run(steps).rows && q in Run(steps).rows
    ensures Run(steps).rows[p].userA < Run(steps).rows[p].userB
    ensures p != q ==> (Run(steps).rows[p].userA, Run(steps).rows[p].userB) != (Run(steps).rows[q].userA, Run(steps).rows[q].userB)
  {
    RunKeepsInv(steps);
    assert RowOk(Run(steps), p);
  }

  /** A pair is blocked exactly when its row names a member who blocked the other. */
  lemma BlockedByMember(steps: seq<Step>, row: Id)
    requires row in Run(steps).rows
    ensures
      var r := Run(steps).rows[row];
      r.status == Blocked <==> r.blockedBy.Some? && IsMember(r, r.blockedBy.value)
  {
    RunKeepsInv(steps);
    assert RowOk(Run(steps), row);
  }

  lemma BlockedRowWritten(s: State, t: Id, row: Id)
    requires Enabled(s, Writes(t)) && TxOk(s, t)
    requires row in s.rows && row < s.nextRow && s.rows[row].status == Blocked
    ensures
      var v := Written(s, t);
      || (row in v.rows && v.rows[row] == s.rows[row])
      || (row !in v.rows && s.txs[t].job.Plain?
          && s.txs[t].job.action == Remove && Some(s.txs[t].job.actor) == s.rows[row].blockedBy)
  {
    var found := s.txs[t].phase.found;
    if found.Some? && found.value.row == row && found.value.record.status == Blocked {
      OnlyBlockerUnblocks(found.value.record, ActionOf(s.txs[t].job), ActorOf(s.txs[t].job));
    }
  }

  /** A block ends only when the one who set it removes it. */
  lemma OnlyBlockerEndsBlock(steps: seq<Step>, step: Step, row: Id)
    requires Enabled(Run(steps), step) && row in Run(steps).rows && Run(steps).rows[row].status == Blocked
    ensures
      var s, v := Run(steps), Next(Run(steps), step);
      var blocker := s.rows[row].blockedBy;
      || (row in v.rows && v.rows[row] == s.rows[row])
      || (row !in v.rows && step.Writes? && s.txs[step.t].job.Plain?
          && s.txs[step.t].job.action == Remove && Some(s.txs[step.t].job.actor) == blocker)
  {
    var s := Run(steps);
    RunKeepsInv(steps);
    assert RowOk(s, row);
    hide RowsOk, TxOk, UsesOk, OneRedeemer, Written;
    if step.Writes? {
      BlockedRowWritten(s, step.t, row);
    }
  }

  /**
   * Friends have both consented to the friendship they have now: since their present row was created, each
   * asked, accepted or redeemed, or the other redeemed an invitation of theirs.
   */
  lemma FriendsBothConsented(steps: seq<Step>, row: Id)
    requires row in Run(steps).rows && Run(steps).rows[row].status == Accepted
    ensures
      var r := Run(steps).rows[row];
      Willing(Run(steps), row, r.userA, r.userB) && Willing(Run(steps), row, r.userB, r.userA)
  {
    RunKeepsInv(steps);
    assert RowOk(Run(steps), row);
  }

  lemma WriteKeepsIdsFresh(s: State, t: Id)
    requires Enabled(s, Writes(t)) && TxOk(s, t) && forall c | c in s.consents :: c.row < s.nextRow
    ensures s.nextRow <= Written(s, t).nextRow
    ensures forall c | c in Written(s, t).consents :: c.row < Written(s, t).nextRow
    ensures forall row | row in Written(s, t).rows && row !in s.rows :: row == s.nextRow
  {
    hide OutcomeOf, Created, Updated, PairTaken, ConsentOk, RecordOk, OfPair, Uses;
  }

  lemma NextKeepsIdsFresh(s: State, step: Step)
    requires Inv(s) && Enabled(s, step) && forall c | c in s.consents :: c.row < s.nextRow
    ensures s.nextRow <= Next(s, step).nextRow
    ensures forall c | c in Next(s, step).consents :: c.row < Next(s, step).nextRow
    ensures forall row | row in Next(s, step).rows && row !in s.rows :: row == s.nextRow
  {
    hide RowsOk, UsesOk, OneRedeemer, Written;
    if step.Writes? {
      WriteKeepsIdsFresh(s, step.t);
    }
  }

  /** No consent is older than the row it is for: ids of rows are given once, and consents name their row. */
  lemma {:induction false} ConsentsAreForThisRow(steps: seq<Step>)
    ensures forall c | c in Run(steps).consents :: c.row < Run(steps).nextRow
  {
    if |steps| > 0 {
      var s := Run(steps[..|steps| - 1]);
      ConsentsAreForThisRow(steps[..|steps| - 1]);
      RunKeepsInv(steps[..|steps| - 1]);
      if Enabled(s, steps[|steps| - 1]) {
        NextKeepsIdsFresh(s, steps[|steps| - 1]);
      }
    }
  }

  /** A removed friendship or request is gone for good: its row, and with it its consents, never comes back. */
  lemma RemovedStaysRemoved(steps: seq<Step>, step: Step, row: Id)
    requires Enabled(Run(steps), step) && row < Run(steps).nextRow && row !in Run(steps).rows
    ensures row < Next(Run(steps), step).nextRow && row !in Next(Run(steps), step).rows
  {
    ConsentsAreForThisRow(steps);
    RunKeepsInv(steps);
    NextKeepsIdsFresh(Run(steps), step);
  }

  // ----- invitations -----

  /** However many redeem an invitation at once, and however often they retry: never more uses than allowed. */
  lemma UsesWithinLimit(steps: seq<Step>, invitation: Id)
    requires invitation in Run(steps).invitations
    ensures Uses(Run(steps).acceptances, invitation) <= Run(steps).invitations[invitation].maxUses
  {
    RunKeepsInv(steps);
  }

  lemma OnceWithEachInvitation(steps: seq<Step>, j: nat, k: nat)
    requires j < k < |Run(steps).acceptances|
    ensures Run(steps).acceptances[j] != Run(steps).acceptances[k]
  {
    RunKeepsInv(steps);
  }

  /** The step turned the pair into friends. */
  ghost predicate MakesFriends(s: State, v: State, one: Id, other: Id) {
    exists row | row in v.rows ::
      OfPair(v.rows[row], one, other) && v.rows[row].status == Accepted
      && !(row in s.rows && s.rows[row].status == Accepted)
  }

  lemma WriteSpendsUse(s: State, t: Id)
    requires Enabled(s, Writes(t)) && TxOk(s, t) && s.txs[t].job.Redeem? && s.nextRow !in s.rows
    ensures
      var v := Written(s, t);
      var job := s.txs[t].job;
      && (v.acceptances == s.acceptances || v.acceptances == s.acceptances + [Acceptance(job.invitation, job.user)])
      && (v.acceptances != s.acceptances <==> MakesFriends(s, v, job.user, s.txs[t].phase.other))
  {
    var v := Written(s, t);
    var job, other, found := s.txs[t].job, s.txs[t].phase.other, s.txs[t].phase.found;
    if v.acceptances != s.acceptances {
      var row := if found.None? then s.nextRow else found.value.row;
      assert row in v.rows && v.rows[row].status == Accepted && OfPair(v.rows[row], job.user, other);
    }
  }

  /** A use is recorded exactly when redeeming made the two friends, in the same write. */
  lemma UseMeansNewFriendship(steps: seq<Step>, t: Id)
    requires Enabled(Run(steps), Writes(t)) && Run(steps).txs[t].job.Redeem?
    ensures
      var s, v := Run(steps), Next(Run(steps), Writes(t));
      var job := s.txs[t].job;
      && (v.acceptances == s.acceptances || v.acceptances == s.acceptances + [Acceptance(job.invitation, job.user)])
      && (v.acceptances != s.acceptances <==> MakesFriends(s, v, job.user, s.txs[t].phase.other))
  {
    var s := Run(steps);
    RunKeepsInv(steps);
    assert s.nextRow in s.rows ==> RowOk(s, s.nextRow);
    hide RowsOk, TxOk, UsesOk, OneRedeemer, Written, MakesFriends;
    WriteSpendsUse(s, t);
  }

  /** The pair that is being written already has a row of its own, blocked or accepted. */
  predicate Settled(s: State, t: Id)
    requires t in s.txs && s.txs[t].phase.Read?
  {
    exists row | row in s.rows :: OfPair(s.rows[row], ActorOf(s.txs[t].job), s.txs[t].phase.other)
                                  && (s.rows[row].status == Blocked || s.rows[row].status == Accepted)
  }

  lemma SettledSpendsNothing(s: State, t: Id)
    requires Enabled(s, Writes(t)) && TxOk(s, t) && Settled(s, t)
    requires forall p, q | p in s.rows && q in s.rows && p != q ::
               (s.rows[p].userA, s.rows[p].userB) != (s.rows[q].userA, s.rows[q].userB)
    ensures Written(s, t).acceptances == s.acceptances
  {
    hide ConsentOk, Uses, Created, Updated, ConsentsOf;
    var row :| row in s.rows && OfPair(s.rows[row], ActorOf(s.txs[t].job), s.txs[t].phase.other)
               && (s.rows[row].status == Blocked || s.rows[row].status == Accepted);
    var found := s.txs[t].phase.found;
    if found.Some? && found.value.row in s.rows {
      assert found.value.row == row;
    }
  }

  /** No other step spends a use, and none is spent on a blocked pair or on friends. */
  lemma NoUseForBlockedOrFriends(steps: seq<Step>, step: Step)
    requires Enabled(Run(steps), step)
    requires step.Writes? ==> Run(steps).txs[step.t].job.Plain? || Settled(Run(steps), step.t)
    ensures Next(Run(steps), step).acceptances == Run(steps).acceptances
  {
    var s := Run(steps);
    RunKeepsInv(steps);
    hide RowOk, TxOk, UsesOk, OneRedeemer, Settled;
    if step.Writes? && s.txs[step.t].job.Redeem? {
      SettledSpendsNothing(s, step.t);
    }
  }

  // ----- two requests that cross -----

  /** Steps of two given transactions. */
  predicate StepOfEither(step: Step, t: Id, u: Id) {
    (step.Reads? || step.Writes?) && (step.t == t || step.t == u)
  }

  ghost function RunFrom(s: State, steps: seq<Step>): State {
    if |steps| == 0 then s
    else
      var before := RunFrom(s, steps[..|steps| - 1]);
      var step := steps[|steps| - 1];
      if Enabled(before, step) then Next(before, step) else before
  }

  predicate Asks(s: State, t: Id, a: Id, b: Id) {
    t in s.txs && s.txs[t].job == Plain(a, User(b), Request)
  }

  predicate Fresh(s: State, t: Id, b: Id) {
    t in s.txs && !s.txs[t].retried && (s.txs[t].phase == Ready || s.txs[t].phase == Read(b, None))
  }

  /** The request of `a` towards `b` stands as the pair's only row. */
  predicate Stands(s: State, row: Id, a: Id, b: Id) {
    && row in s.rows && OfPair(s.rows[row], a, b)
    && s.rows[row].status == Pending && s.rows[row].requestedBy == a
    && forall q | q in s.rows && OfPair(s.rows[q], a, b) :: q == row
  }

  /** The one who came second: about to look again, or already looking at the standing request. */
  predicate Second(s: State, u: Id, row: Id, a: Id) {
    && u in s.txs && row in s.rows
    && (s.txs[u].phase == Ready
        || (s.txs[u].phase == Read(a, None) && !s.txs[u].retried)
        || s.txs[u].phase == Read(a, Some(Found(row, s.rows[row]))))
  }

  predicate Done(s: State, t: Id) {
    t in s.txs && s.txs[t].phase == Finished(Succeeded)
  }

  ghost predicate HalfWay(s: State, t: Id, u: Id, a: Id, b: Id) {
    Done(s, t) && exists row :: Stands(s, row, a, b) && Second(s, u, row, a)
  }

  /** Both succeeded and are friends, in one row. */
  ghost predicate Met(s: State, t: Id, u: Id, a: Id, b: Id) {
    && Done(s, t) && Done(s, u)
    && exists row | row in s.rows ::
         && OfPair(s.rows[row], a, b) && s.rows[row].status == Accepted
         && forall q | q in s.rows && OfPair(s.rows[q], a, b) :: q == row
  }

  /** Before either has written. */
  ghost predicate Opening(s: State, t: Id, u: Id, a: Id, b: Id) {
    !PairTaken(s, a, b) && Fresh(s, t, b) && Fresh(s, u, a)
  }

  ghost predicate Crossing(s: State, t: Id, u: Id, a: Id, b: Id) {
    && a != b && t != u && Asks(s, t, a, b) && Asks(s, u, b, a)
    && (|| Opening(s, t, u, a, b)
        || HalfWay(s, t, u, a, b)
        || HalfWay(s, u, t, b, a)
        || Met(s, t, u, a, b))
  }

  /** The first of the two to write inserts its request. */
  lemma FirstWrites(s: State, t: Id, u: Id, a: Id, b: Id)
    requires a != b && t != u && Asks(s, t, a, b) && Asks(s, u, b, a)
    requires !PairTaken(s, a, b) && s.nextRow !in s.rows
    requires Fresh(s, u, a) && s.txs[t].phase == Read(b, None)
    ensures HalfWay(Written(s, t), t, u, a, b)
  {
    assert Stands(Written(s, t), s.nextRow, a, b);
    assert Second(Written(s, t), u, s.nextRow, a);
  }

  lemma PairHasNoOrder(s: State, a: Id, b: Id)
    ensures forall r :: OfPair(r, a, b) == OfPair(r, b, a)
    ensures PairTaken(s, a, b) == PairTaken(s, b, a)
  {
  }

  /** The second one's write: it finds the row taken and starts again, or it accepts what it has read. */
  lemma SecondWrites(s: State, t: Id, u: Id, a: Id, b: Id, row: Id)
    requires a != b && t != u && Asks(s, u, b, a) && Done(s, t) && Stands(s, row, a, b) && Second(s, u, row, a)
    requires Enabled(s, Writes(u))
    ensures HalfWay(Written(s, u), t, u, a, b) || Met(Written(s, u), t, u, a, b)
  {
    var v := Written(s, u);
    PairHasNoOrder(s, a, b);
    if s.txs[u].phase == Read(a, None) {
      hide Updated, Created;
      assert PairTaken(s, b, a);
      assert Stands(v, row, a, b) && Second(v, u, row, a);
    } else {
      hide Inserted, HalfWay;
      assert v.rows[row].status == Accepted && OfPair(v.rows[row], a, b);
    }
  }

  lemma SecondReads(s: State, u: Id, a: Id, b: Id, row: Id, step: Step)
    requires a != b && Asks(s, u, b, a) && Stands(s, row, a, b) && Second(s, u, row, a)
    requires step.Reads? && step.t == u && Enabled(s, step)
    ensures Stands(Next(s, step), row, a, b) && Second(Next(s, step), u, row, a)
  {
    assert OfPair(s.rows[row], b, a);
    assert forall q | q in s.rows :: OfPair(s.rows[q], a, b) == OfPair(s.rows[q], b, a);
    assert PairRow(s.rows, b, a) == Some(Found(row, s.rows[row]));
  }

  /** From a standing request the second one gets to friendship, if need be by its one retry. */
  lemma SecondMoves(s: State, t: Id, u: Id, a: Id, b: Id, step: Step)
    requires a != b && t != u && Asks(s, t, a, b) && Asks(s, u, b, a) && HalfWay(s, t, u, a, b)
    requires (step.Reads? || step.Writes?) && (step.t == t || step.t == u) && Enabled(s, step)
    ensures HalfWay(Next(s, step), t, u, a, b) || Met(Next(s, step), t, u, a, b)
  {
    hide Written, Met, Stands, Second, PhaseAfterRead, OfPair;
    var row :| Stands(s, row, a, b) && Second(s, u, row, a);
    if step.Reads? {
      SecondReads(s, u, a, b, row, step);
    } else {
      SecondWrites(s, t, u, a, b, row);
    }
  }

  lemma OpeningReads(s: State, t: Id, u: Id, a: Id, b: Id, step: Step)
    requires a != b && t != u && Asks(s, t, a, b) && Asks(s, u, b, a) && Opening(s, t, u, a, b)
    requires step.Reads? && StepOfEither(step, t, u) && Enabled(s, step)
    ensures Opening(Next(s, step), t, u, a, b)
  {
    assert PairRow(s.rows, a, b).None? && PairRow(s.rows, b, a).None?;
  }

  lemma JobsStay(s: State, step: Step, t: Id)
    requires t in s.txs && Enabled(s, step)
    ensures t in Next(s, step).txs && Next(s, step).txs[t].job == s.txs[t].job
  {
    hide Written;
    if step.Writes? {
      WriteTouchesOneTx(s, step.t);
    }
  }

  lemma CrossingStep(s: State, t: Id, u: Id, a: Id, b: Id, step: Step)
    requires Crossing(s, t, u, a, b) && s.nextRow !in s.rows && StepOfEither(step, t, u) && Enabled(s, step)
    ensures Crossing(Next(s, step), t, u, a, b)
  {
    PairHasNoOrder(s, a, b);
    JobsStay(s, step, t);
    JobsStay(s, step, u);
    if HalfWay(s, t, u, a, b) {
      hide Next, HalfWay, Met, Enabled;
      SecondMoves(s, t, u, a, b, step);
    } else if HalfWay(s, u, t, b, a) {
      hide Next, HalfWay, Met, Enabled;
      SecondMoves(s, u, t, b, a, step);
      if Met(Next(s, step), u, t, b, a) {
        MetIsSymmetric(Next(s, step), u, t, b, a);
      }
    } else if !Met(s, t, u, a, b) {
      hide HalfWay, Met, PairTaken, Written;
      if step.Reads? {
        OpeningReads(s, t, u, a, b, step);
      } else if step.t == t {
        FirstWrites(s, t, u, a, b);
      } else {
        FirstWrites(s, u, t, b, a);
      }
    }
  }

  lemma MetIsSymmetric(s: State, t: Id, u: Id, a: Id, b: Id)
    requires Met(s, t, u, a, b)
    ensures Met(s, u, t, b, a)
  {
    assert forall r :: OfPair(r, a, b) == OfPair(r, b, a);
  }

  // ----- others at work elsewhere -----

  /** A step of somebody else that writes no row of this pair. */
  predicate Elsewhere(s: State, step: Step, t: Id, u: Id, a: Id, b: Id) {
    match step
    case Reads(v, _) => v != t && v != u
    case Writes(v) =>
      && v != t && v != u && v in s.txs && s.txs[v].phase.Read?
      && {ActorOf(s.txs[v].job), s.txs[v].phase.other} != {a, b}
    case _ => true
  }

  /** The pair has the same rows as before. */
  predicate SamePair(s: State, v: State, a: Id, b: Id) {
    && (forall row | row in s.rows && OfPair(s.rows[row], a, b) :: row in v.rows && v.rows[row] == s.rows[row])
    && (forall row | row in v.rows && OfPair(v.rows[row], a, b) :: row in s.rows && v.rows[row] == s.rows[row])
  }

  lemma EffectElsewhere(s: State, v: State, one: Id, other: Id, e: Effect, a: Id, b: Id)
    requires HasEffect(s, v, one, other, e) && a != b && one != other && {one, other} != {a, b} && s.nextRow !in s.rows
    ensures SamePair(s, v, a, b)
  {
    assert NormalizePair(one, other) != NormalizePair(a, b);
  }

  lemma ElsewhereKeepsPair(s: State, step: Step, t: Id, u: Id, a: Id, b: Id)
    requires Inv(s) && Enabled(s, step) && Elsewhere(s, step, t, u, a, b) && a != b && t in s.txs && u in s.txs
    ensures SamePair(s, Next(s, step), a, b)
    ensures t in Next(s, step).txs && u in Next(s, step).txs
    ensures Next(s, step).txs[t] == s.txs[t] && Next(s, step).txs[u] == s.txs[u]
  {
    if step.Writes? {
      WriteTouchesOneTx(s, step.t);
      assert TxOk(s, step.t);
      assert s.nextRow in s.rows ==> RowOk(s, s.nextRow);
      hide TxOk, RowsOk, UsesOk, OneRedeemer, Written, HasEffect, SamePair;
      var e := WriteHasEffect(s, step.t);
      EffectElsewhere(s, Next(s, step), ActorOf(s.txs[step.t].job), s.txs[step.t].phase.other, e, a, b);
    }
  }

  lemma HalfWayStays(s: State, v: State, t: Id, u: Id, a: Id, b: Id)
    requires HalfWay(s, t, u, a, b) && SamePair(s, v, a, b)
    requires t in v.txs && u in v.txs && v.txs[t] == s.txs[t] && v.txs[u] == s.txs[u]
    ensures HalfWay(v, t, u, a, b)
  {
    var row :| Stands(s, row, a, b) && Second(s, u, row, a);
    assert Stands(v, row, a, b) && Second(v, u, row, a);
  }

  lemma MetStays(s: State, v: State, t: Id, u: Id, a: Id, b: Id)
    requires Met(s, t, u, a, b) && SamePair(s, v, a, b)
    requires t in v.txs && u in v.txs && v.txs[t] == s.txs[t] && v.txs[u] == s.txs[u]
    ensures Met(v, t, u, a, b)
  {
    var row :| row in s.rows && OfPair(s.rows[row], a, b) && s.rows[row].status == Accepted
               && forall q | q in s.rows && OfPair(s.rows[q], a, b) :: q == row;
    assert row in v.rows && OfPair(v.rows[row], a, b) && v.rows[row].status == Accepted;
  }

  lemma CrossingStays(s: State, v: State, t: Id, u: Id, a: Id, b: Id)
    requires Crossing(s, t, u, a, b) && SamePair(s, v, a, b)
    requires t in v.txs && u in v.txs && v.txs[t] == s.txs[t] && v.txs[u] == s.txs[u]
    ensures Crossing(v, t, u, a, b)
  {
    if HalfWay(s, t, u, a, b) {
      HalfWayStays(s, v, t, u, a, b);
    } else if HalfWay(s, u, t, b, a) {
      assert forall r :: OfPair(r, a, b) == OfPair(r, b, a);
      HalfWayStays(s, v, u, t, b, a);
    } else if Met(s, t, u, a, b) {
      MetStays(s, v, t, u, a, b);
    }
  }

  // ----- statements run out -----

  /** How many statements a transaction can still make: a read and a write, and once more after a lost insert. */
  function Left(tx: Tx): nat {
    match tx.phase
    case Finished(_) => 0
    case Read(_, _) => if tx.retried then 1 else 3
    case Ready => if tx.retried then 2 else 4
  }

  predicate Moves(step: Step, t: Id) {
    (step.Reads? || step.Writes?) && step.t == t
  }

  /** The statements that `t` makes in a run. */
  ghost function Made(s: State, steps: seq<Step>, t: Id): nat {
    if |steps| == 0 then 0
    else
      var init, step := steps[..|steps| - 1], steps[|steps| - 1];
      Made(s, init, t) + if Moves(step, t) && Enabled(RunFrom(s, init), step) then 1 else 0
  }

  lemma StepLeaves(s: State, step: Step, t: Id)
    requires t in s.txs && Enabled(s, step)
    ensures t in Next(s, step).txs
    ensures Left(Next(s, step).txs[t]) + (if Moves(step, t) then 1 else 0) <= Left(s.txs[t])
  {
    if step.Writes? {
      WriteTouchesOneTx(s, step.t);
    }
  }

  /** Whatever others do, no transaction makes more statements than that. */
  lemma {:induction false} StatementsRunOut(s: State, steps: seq<Step>, t: Id)
    requires t in s.txs
    ensures t in RunFrom(s, steps).txs
    ensures Left(RunFrom(s, steps).txs[t]) + Made(s, steps, t) <= Left(s.txs[t]) <= 4
  {
    hide Next, Left, Enabled;
    if |steps| > 0 {
      StatementsRunOut(s, steps[..|steps| - 1], t);
      if Enabled(RunFrom(s, steps[..|steps| - 1]), steps[|steps| - 1]) {
        StepLeaves(RunFrom(s, steps[..|steps| - 1]), steps[|steps| - 1], t);
      }
    } else {
      AtMostFour(s.txs[t]);
    }
  }

  lemma AtMostFour(tx: Tx)
    ensures Left(tx) <= 4
  {
  }

  ghost predicate CanMove(s: State, t: Id) {
    Enabled(s, Reads(t, 0)) || Enabled(s, Writes(t))
  }

  /** And a friendship transaction that is not over can always make its next one. */
  lemma NobodyIsStuck(s: State, t: Id)
    requires Inv(s) && t in s.txs && s.txs[t].job.Plain?
    ensures s.txs[t].phase.Finished? <==> Left(s.txs[t]) == 0
    ensures !s.txs[t].phase.Finished? ==> CanMove(s, t)
  {
    assert TxOk(s, t);
  }

  // ----- both together -----

  /** Every step is one of the two transactions' or happens elsewhere. */
  ghost predicate Undisturbed(s: State, steps: seq<Step>, t: Id, u: Id, a: Id, b: Id) {
    |steps| > 0 ==>
      var init, step := steps[..|steps| - 1], steps[|steps| - 1];
      && Undisturbed(s, init, t, u, a, b)
      && (StepOfEither(step, t, u) || Elsewhere(RunFrom(s, init), step, t, u, a, b))
  }

  lemma {:induction false} CrossingRun(s: State, steps: seq<Step>, t: Id, u: Id, a: Id, b: Id)
    requires Inv(s) && Crossing(s, t, u, a, b) && Undisturbed(s, steps, t, u, a, b)
    ensures Inv(RunFrom(s, steps)) && Crossing(RunFrom(s, steps), t, u, a, b)
  {
    hide Next, Elsewhere, SamePair;
    if |steps| > 0 {
      var init, step := steps[..|steps| - 1], steps[|steps| - 1];
      CrossingRun(s, init, t, u, a, b);
      var before := RunFrom(s, init);
      assert before.nextRow in before.rows ==> RowOk(before, before.nextRow);
      if Enabled(before, step) {
        NextKeepsInv(before, step);
        if StepOfEither(step, t, u) {
          CrossingStep(before, t, u, a, b, step);
        } else {
          ElsewhereKeepsPair(before, step, t, u, a, b);
          CrossingStays(before, Next(before, step), t, u, a, b);
        }
      }
    }
  }

  lemma CrossingEndsMet(s: State, t: Id, u: Id, a: Id, b: Id)
    requires Crossing(s, t, u, a, b) && s.txs[t].phase.Finished? && s.txs[u].phase.Finished?
    ensures Met(s, t, u, a, b)
  {
  }

  /**
   * Two people who have no row yet ask each other at the same time, while others are at work on other pairs.
   * In whatever order the statements fall: as long as the two are not friends, in one row and both successful,
   * one of them still has a statement to make and can make it; and neither makes more than four.
   */
  lemma OpposingRequestsMeet(before: seq<Step>, steps: seq<Step>, t: Id, u: Id, a: Id, b: Id)
    requires a != b && t != u && Asks(Run(before), t, a, b) && Asks(Run(before), u, b, a)
    requires !PairTaken(Run(before), a, b) && Fresh(Run(before), t, b) && Fresh(Run(before), u, a)
    requires Undisturbed(Run(before), steps, t, u, a, b)
    ensures
      var s, v := Run(before), RunFrom(Run(before), steps);
      && Made(s, steps, t) <= 4 && Made(s, steps, u) <= 4
      && (|| Met(v, t, u, a, b)
          || (Made(s, steps, t) < 4 && CanMove(v, t))
          || (Made(s, steps, u) < 4 && CanMove(v, u)))
  {
    hide Run, RunFrom, Inv, Met, Left, Made, CanMove, Undisturbed;
    var s, v := Run(before), RunFrom(Run(before), steps);
    RunKeepsInv(before);
    CrossingRun(s, steps, t, u, a, b);
    StatementsRunOut(s, steps, t);
    StatementsRunOut(s, steps, u);
    NobodyIsStuck(v, t);
    NobodyIsStuck(v, u);
    if v.txs[t].phase.Finished? && v.txs[u].phase.Finished? {
      CrossingEndsMet(v, t, u, a, b);
    }
  }
}
