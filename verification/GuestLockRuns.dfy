/**
 * Locks and data in one machine: transactions begin, take their locks one by one and commit a step of the
 * guest world once they hold the rows it is about, in any interleaving.
 */
module GuestLockRuns {
  import opened Wrappers
  import opened GuestModel
  import opened GuestLockCover
  import GR = GuestRuns
  import GS = GuestSteps
  import GL = GuestLocks
  import LO = LockOrder

  datatype State = State(locks: LO.State, world: World)

  datatype Step =
    | Begin(t: nat, op: GL.Operation)
    | Take(t: nat)
    | Skip(t: nat)
    | Commit(t: nat, change: GR.Step)
    | Abort(t: nat)
    | Tick(later: Time)

  const START := State(map[], EMPTY)

  /**
   * A transaction begins with the list its unlocked lookup gave it. It commits when it has been through its
   * list and holds what the step needs on the rows as they then are; otherwise it refuses and writes nothing.
   */
  predicate Enabled(s: State, step: Step) {
    match step
    case Begin(t, op) => t !in s.locks && GL.Ordered(op)
    case Take(t) => LO.Enabled(s.locks, LO.Take(t))
    case Skip(t) => LO.Enabled(s.locks, LO.Skip(t))
    case Commit(t, change) =>
      t in s.locks && s.locks[t].rest == [] && !change.TimePasses? && LocksOf(s.world, change) <= s.locks[t].held
    case Abort(t) => t in s.locks
    case Tick(_) => true
  }

  /** What a step does to the locks. */
  function OnLocks(step: Step): Option<LO.Step> {
    match step
    case Begin(t, op) => Some(LO.Begin(t, GL.Plan(op)))
    case Take(t) => Some(LO.Take(t))
    case Skip(t) => Some(LO.Skip(t))
    case Commit(t, _) => Some(LO.End(t))
    case Abort(t) => Some(LO.End(t))
    case Tick(_) => None
  }

  /** And to the tables. */
  function OnWorld(step: Step): Option<GR.Step> {
    match step
    case Commit(_, change) => Some(change)
    case Tick(later) => Some(GR.TimePasses(later))
    case _ => None
  }

  lemma LockStepEnabled(s: State, step: Step)
    requires Enabled(s, step) && OnLocks(step).Some?
    ensures LO.Enabled(s.locks, OnLocks(step).value)
  {
    if step.Begin? {
      GL.EveryOperationMayBegin(s.locks, step.t, step.op);
    }
    hide LO.Disciplined, LO.Free;
  }

  ghost function Next(s: State, step: Step): State
    requires Enabled(s, step)
  {
    LockStepEnabledOrNone(s, step);
    State(if OnLocks(step).Some? then LO.Next(s.locks, OnLocks(step).value) else s.locks,
          if OnWorld(step).Some? then GR.Next(s.world, OnWorld(step).value) else s.world)
  }

  lemma LockStepEnabledOrNone(s: State, step: Step)
    requires Enabled(s, step)
    ensures OnLocks(step).Some? ==> LO.Enabled(s.locks, OnLocks(step).value)
  {
    if OnLocks(step).Some? {
      LockStepEnabled(s, step);
    }
  }

  ghost function Run(s: State, steps: seq<Step>): State {
    if |steps| == 0 then s
    else
      var before := Run(s, steps[..|steps| - 1]);
      if Enabled(before, steps[|steps| - 1]) then Next(before, steps[|steps| - 1]) else before
  }

  // ----- runs of operations are runs of the lock model, and of the world -----

  /** The lock steps of a run. */
  lemma {:induction false} RunOfLocks(steps: seq<Step>) returns (moves: seq<LO.Step>)
    ensures LO.Run(moves) == Run(START, steps).locks
  {
    moves := [];
    if |steps| > 0 {
      var before, step := Run(START, steps[..|steps| - 1]), steps[|steps| - 1];
      moves := RunOfLocks(steps[..|steps| - 1]);
      if Enabled(before, step) && OnLocks(step).Some? {
        LockStepEnabled(before, step);
        assert (moves + [OnLocks(step).value])[..|moves|] == moves;
        moves := moves + [OnLocks(step).value];
      }
    }
  }

  /** However transactions interleave, the tables are those of their commits, one after the other. */
  lemma {:induction false} CommitsAreSerial(steps: seq<Step>) returns (changes: seq<GR.Step>)
    ensures GR.Run(changes) == Run(START, steps).world
  {
    changes := [];
    if |steps| > 0 {
      var before, step := Run(START, steps[..|steps| - 1]), steps[|steps| - 1];
      changes := CommitsAreSerial(steps[..|steps| - 1]);
      if Enabled(before, step) && OnWorld(step).Some? {
        GR.OneMoreStep(changes, OnWorld(step).value);
        changes := changes + [OnWorld(step).value];
      }
    }
  }

  /** The operations never wait for each other in a circle. */
  lemma OperationsNeverDeadlock(steps: seq<Step>, ts: seq<nat>)
    requires |ts| > 0 && LO.WaitChain(Run(START, steps).locks, ts)
    ensures !LO.WaitsFor(Run(START, steps).locks, ts[|ts| - 1], ts[0])
  {
    var moves := RunOfLocks(steps);
    LO.NoWaitCycle(moves, ts);
  }

  /** Nor does any of them wait for a registered reader's loan: its copy comes first in every list. */
  lemma RequestsNeverWait(steps: seq<Step>, t: nat)
    requires
      var s := Run(START, steps).locks;
      t in s && s[t].rest != [] && s[t].rest[0].r.Covered?
    ensures LO.Free(Run(START, steps).locks, t, Run(START, steps).locks[t].rest[0].r)
  {
    var moves := RunOfLocks(steps);
    GL.RivalsNeverWait(moves, t);
  }

  lemma OneMoreStep(s: State, steps: seq<Step>, step: Step)
    requires Enabled(Run(s, steps), step)
    ensures Run(s, steps + [step]) == Next(Run(s, steps), step)
  {
    assert (steps + [step])[..|steps|] == steps;
  }

  lemma AddingIsListed(w: World, owner: Id, contact: Id)
    ensures LocksOf(w, GR.DoAddContact(owner, contact, 0)) == Locks(GL.CreateContact(contact))
    ensures contact in GR.Next(w, GR.DoAddContact(owner, contact, 0)).contacts
  {
  }

  lemma ContactLocked(contact: Id)
    ensures Run(START, [Begin(1, GL.CreateContact(contact))] + [Take(1)])
            == State(map[1 := LO.Tx({GL.Contact(contact)}, [])], EMPTY)
  {
    var begin, lock := Begin(1, GL.CreateContact(contact)), GL.Contact(contact);
    var plan := GL.Plan(begin.op);
    assert plan == [LO.Wait(lock)];
    assert Run(START, []) == START && [] + [begin] == [begin];
    hide Run, Locks, LocksOf, GL.Plan, GR.Next, LO.Disciplined;
    OneMoreStep(START, [], begin);
    assert Run(START, [begin]).locks == map[1 := LO.Tx({}, plan)];
    OneMoreStep(START, [begin], Take(1));
    assert plan[1..] == [] && {} + {lock} == {lock};
  }

  lemma OneLock(contact: Id)
    ensures Locks(GL.CreateContact(contact)) == {GL.Contact(contact)}
  {
    assert GL.Plan(GL.CreateContact(contact)) == [LO.Wait(GL.Contact(contact))];
  }

  /** The machine is no empty promise: a transaction that has its lock can commit. */
  lemma CommitsHappen(owner: Id, contact: Id)
    ensures
      var steps := [Begin(1, GL.CreateContact(contact))] + [Take(1)] + [Commit(1, GR.DoAddContact(owner, contact, 0))];
      contact in Run(START, steps).world.contacts && Run(START, steps).locks == map[]
  {
    AddingIsListed(EMPTY, owner, contact);
    ContactLocked(contact);
    OneLock(contact);
    hide Run, Locks, LocksOf, GL.Plan, GR.Next, LO.Disciplined;
    OneMoreStep(START, [Begin(1, GL.CreateContact(contact))] + [Take(1)], Commit(1, GR.DoAddContact(owner, contact, 0)));
  }

  // ----- what is read under a lock stays -----

  datatype Content =
    | NoRow
    | ContactRow(contact: Contact)
    | CopyRow(copy: Copy)
    | LoanRow(loan: Loan)
    | ConfRow(conf: Confirmation)

  /** The row behind a lock. */
  function RowAt(w: World, r: LO.Resource): Content {
    match r
    case Row(level, id) =>
      if level == 0 && id in w.contacts then ContactRow(w.contacts[id])
      else if level == 1 && id in w.copies then CopyRow(w.copies[id])
      else if level == 2 && id in w.loans && LoanResource(w.loans[id], id) == r then LoanRow(w.loans[id])
      else if level == 3 && id in w.confs then ConfRow(w.confs[id])
      else NoRow
    case Covered(id, _) => if id in w.loans && LoanResource(w.loans[id], id) == r then LoanRow(w.loans[id]) else NoRow
  }

  lemma UnlockedRowStays(w: World, v: World, locks: set<LO.Resource>, r: LO.Resource)
    requires OnlyWrites(w, v, locks) && r !in locks
    ensures RowAt(v, r) == RowAt(w, r)
  {
  }

  /** The steps by which transaction `t` itself ends. */
  predicate Ends(step: Step, t: nat) {
    (step.Commit? || step.Abort?) && step.t == t
  }

  lemma HeldRowSurvivesStep(s: State, step: Step, t: nat, r: LO.Resource)
    requires LO.Inv(s.locks) && Enabled(s, step) && !Ends(step, t)
    requires t in s.locks && r in s.locks[t].held
    ensures t in Next(s, step).locks && r in Next(s, step).locks[t].held
    ensures RowAt(Next(s, step).world, r) == RowAt(s.world, r)
  {
    hide OnlyWrites, GR.Next, LocksOf, RowAt;
    LockStepEnabledOrNone(s, step);
    if OnWorld(step).Some? {
      EveryWriteIsLocked(s.world, OnWorld(step).value);
      if step.Commit? {
        assert s.locks[t].held !! s.locks[step.t].held;
      } else {
        TickLocksNothing(s.world, step.later);
      }
      UnlockedRowStays(s.world, Next(s, step).world, LocksOf(s.world, OnWorld(step).value), r);
    }
  }

  lemma TickLocksNothing(w: World, later: Time)
    ensures LocksOf(w, GR.TimePasses(later)) == {}
  {
  }

  lemma {:induction false} RunKeepsLocks(s: State, steps: seq<Step>)
    requires LO.Inv(s.locks)
    ensures LO.Inv(Run(s, steps).locks)
  {
    hide LO.Inv;
    if |steps| > 0 {
      var before, step := Run(s, steps[..|steps| - 1]), steps[|steps| - 1];
      RunKeepsLocks(s, steps[..|steps| - 1]);
      if Enabled(before, step) && OnLocks(step).Some? {
        LockStepEnabled(before, step);
        LO.NextKeepsInv(before.locks, OnLocks(step).value);
      }
    }
  }

  lemma {:induction false} HeldRowStays(s: State, steps: seq<Step>, t: nat, r: LO.Resource)
    requires LO.Inv(s.locks) && t in s.locks && r in s.locks[t].held
    requires forall i | 0 <= i < |steps| :: !Ends(steps[i], t)
    ensures
      var v := Run(s, steps);
      t in v.locks && r in v.locks[t].held && RowAt(v.world, r) == RowAt(s.world, r)
  {
    hide LO.Inv, RowAt;
    if |steps| > 0 {
      var before, step := Run(s, steps[..|steps| - 1]), steps[|steps| - 1];
      HeldRowStays(s, steps[..|steps| - 1], t, r);
      RunKeepsLocks(s, steps[..|steps| - 1]);
      if Enabled(before, step) {
        HeldRowSurvivesStep(before, step, t, r);
      }
    }
  }

  /** In every run: what a transaction reads under a lock is what it finds there until it ends. */
  lemma ReadsStayTrue(past: seq<Step>, steps: seq<Step>, t: nat, r: LO.Resource)
    requires t in Run(START, past).locks && r in Run(START, past).locks[t].held
    requires forall i | 0 <= i < |steps| :: !Ends(steps[i], t)
    ensures RowAt(Run(Run(START, past), steps).world, r) == RowAt(Run(START, past).world, r)
  {
    RunKeepsLocks(START, past);
    HeldRowStays(Run(START, past), steps, t, r);
  }

  /**
   * So a pending chain that was read under its locks is still pending when the transaction writes, and one that was not
   * pending has not become so: copy, loan and confirmation are what they were.
   */
  lemma ChainStaysAsRead(past: seq<Step>, steps: seq<Step>, t: nat, l: Id)
    requires t in Run(START, past).locks
    requires l in Run(START, past).world.loans && Run(START, past).world.loans[l].borrower.Guest?
    requires
      var held := Run(START, past).locks[t].held;
      GL.Copy(Run(START, past).world.loans[l].copy) in held && GL.Loan(l) in held && GL.Confirmation(l) in held
    requires forall i | 0 <= i < |steps| :: !Ends(steps[i], t)
    ensures
      GS.PendingChain(Run(Run(START, past), steps).world, l) <==> GS.PendingChain(Run(START, past).world, l)
    ensures
      var w, v := Run(START, past).world, Run(Run(START, past), steps).world;
      l in w.confs ==> l in v.confs && v.confs[l] == w.confs[l]
  {
    var w, v := Run(START, past).world, Run(Run(START, past), steps).world;
    var copy := w.loans[l].copy;
    ReadsStayTrue(past, steps, t, GL.Copy(copy));
    ReadsStayTrue(past, steps, t, GL.Loan(l));
    ReadsStayTrue(past, steps, t, GL.Confirmation(l));
    hide Run;
  }
}
