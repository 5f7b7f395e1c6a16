/**
 * The lock-then-recheck protocol of the catalog: a transaction that wants an edition or a translation
 * reads which work owns it, locks that work, locks the row and reads again, while merges may move rows
 * between works. A transaction that has succeeded may lock further rows of its work; a merge locks all its
 * works by ascending id before any row, and then only rows of these works, in any order. Every step below
 * is one statement; any interleaving is a run.
 */
module WorkOwnership {
  type Id = nat

  datatype Phase =
    | Started
    | Found(work: Id)
    | WorkLocked(work: Id)
    | RowLocked(work: Id)
    | Holding(work: Id)
    | RowGone
    | WorkMoved

  datatype Locker = Locker(row: Id, phase: Phase)

  datatype State = State(
    owner: map<Id, Id>,
    used: set<Id>,
    workLock: map<Id, nat>,
    rowLock: map<Id, nat>,
    lockers: map<nat, Locker>)

  const START := State(map[], {}, map[], map[], map[])

  datatype Step =
    | Begin(t: nat, row: Id)
    | ReadOwner(t: nat)
    | LockWork(t: nat)
    | LockRow(t: nat)
    | ReadAgain(t: nat)
    | LockFurther(t: nat, further: Id)
    | Finish(t: nat)
    | MoverLocksWork(m: nat, work: Id)
    | MoverLocksRow(m: nat, row: Id)
    | Move(m: nat, row: Id, to: Id)
    | Delete(m: nat, row: Id)
    | MoverFinishes(m: nat)
    | Insert(row: Id, work: Id)

  function Released(locks: map<Id, nat>, t: nat): map<Id, nat> {
    map r | r in locks && locks[r] != t :: locks[r]
  }

  function Unlocked(s: State, t: nat): State {
    s.(workLock := Released(s.workLock, t), rowLock := Released(s.rowLock, t))
  }

  function At(s: State, t: nat, phase: Phase): State
    requires t in s.lockers
  {
    s.(lockers := s.lockers[t := s.lockers[t].(phase := phase)])
  }

  predicate HoldsNothing(s: State, t: nat) {
    (forall w | w in s.workLock :: s.workLock[w] != t) && (forall r | r in s.rowLock :: s.rowLock[r] != t)
  }

  datatype Resource = TheWork(id: Id) | TheRow(id: Id)

  predicate Holds(s: State, t: nat, x: Resource) {
    if x.TheWork? then x.id in s.workLock && s.workLock[x.id] == t else x.id in s.rowLock && s.rowLock[x.id] == t
  }

  /** The lock a transaction may ask for next. */
  predicate MayAttempt(s: State, t: nat, x: Resource) {
    if t in s.lockers then
      match s.lockers[t].phase
      case Found(work) => x == TheWork(work)
      case WorkLocked(_) => x == TheRow(s.lockers[t].row)
      case Holding(work) => x.TheRow? && x.id in s.owner && s.owner[x.id] == work
      case _ => false
    else if x.TheWork? then
      (forall r | r in s.rowLock :: s.rowLock[r] != t) && (forall w | w in s.workLock && s.workLock[w] == t :: w < x.id)
    else x.id in s.owner && Holds(s, t, TheWork(s.owner[x.id]))
  }

  predicate Enabled(s: State, step: Step) {
    match step
    case Begin(t, _) => t !in s.lockers && HoldsNothing(s, t)
    case ReadOwner(t) => t in s.lockers && s.lockers[t].phase.Started?
    case LockWork(t) => t in s.lockers && s.lockers[t].phase.Found? && s.lockers[t].phase.work !in s.workLock
    case LockRow(t) => t in s.lockers && s.lockers[t].phase.WorkLocked? && s.lockers[t].row !in s.rowLock
    case ReadAgain(t) => t in s.lockers && s.lockers[t].phase.RowLocked?
    case LockFurther(t, row) => t in s.lockers && MayAttempt(s, t, TheRow(row)) && s.lockers[t].phase.Holding? && row !in s.rowLock
    case Finish(t) => t in s.lockers
    case MoverLocksWork(m, work) => m !in s.lockers && MayAttempt(s, m, TheWork(work)) && work !in s.workLock
    case MoverLocksRow(m, row) => m !in s.lockers && MayAttempt(s, m, TheRow(row)) && row !in s.rowLock
    case Move(m, row, to) =>
      && m !in s.lockers && row in s.owner
      && s.owner[row] in s.workLock && s.workLock[s.owner[row]] == m
      && to in s.workLock && s.workLock[to] == m
      && row in s.rowLock && s.rowLock[row] == m
    case Delete(m, row) => m !in s.lockers && row in s.owner && row in s.rowLock && s.rowLock[row] == m
    case MoverFinishes(m) => m !in s.lockers
    case Insert(row, _) => row !in s.used
  }

  /** `SELECT … FOR UPDATE` of a row that is gone locks nothing. */
  function Next(s: State, step: Step): State
    requires Enabled(s, step)
  {
    match step
    case Begin(t, row) => s.(lockers := s.lockers[t := Locker(row, Started)])
    case ReadOwner(t) =>
      var row := s.lockers[t].row;
      At(s, t, if row in s.owner then Found(s.owner[row]) else RowGone)
    case LockWork(t) =>
      var work := s.lockers[t].phase.work;
      At(s.(workLock := s.workLock[work := t]), t, WorkLocked(work))
    case LockRow(t) =>
      var row := s.lockers[t].row;
      At(if row in s.owner then s.(rowLock := s.rowLock[row := t]) else s, t, RowLocked(s.lockers[t].phase.work))
    case ReadAgain(t) =>
      var row, work := s.lockers[t].row, s.lockers[t].phase.work;
      if row !in s.owner then At(s, t, RowGone)
      else if s.owner[row] != work then At(Unlocked(s, t), t, WorkMoved)
      else At(s, t, Holding(work))
    case LockFurther(t, row) => s.(rowLock := s.rowLock[row := t])
    case Finish(t) => Unlocked(s, t).(lockers := map u | u in s.lockers && u != t :: s.lockers[u])
    case MoverLocksWork(m, work) => s.(workLock := s.workLock[work := m])
    case MoverLocksRow(m, row) => s.(rowLock := s.rowLock[row := m])
    case Move(_, row, to) => s.(owner := s.owner[row := to])
    case Delete(_, row) => s.(owner := map r | r in s.owner && r != row :: s.owner[r])
    case MoverFinishes(m) => Unlocked(s, m)
    case Insert(row, work) => s.(owner := s.owner[row := work], used := s.used + {row})
  }

  function Run(steps: seq<Step>): State {
    if |steps| == 0 then START
    else
      var s := Run(steps[..|steps| - 1]);
      var step := steps[|steps| - 1];
      if Enabled(s, step) then Next(s, step) else s
  }

  // ----- the invariant -----

  /** What a locker holds at each point: the one work it found, and its row once that is locked. */
  predicate LockerOk(s: State, t: nat)
    requires t in s.lockers
  {
    var row, phase := s.lockers[t].row, s.lockers[t].phase;
    && (forall w | w in s.workLock && s.workLock[w] == t ::
          (phase.WorkLocked? || phase.RowLocked? || phase.Holding? || phase.RowGone?) && (phase.RowGone? || phase.work == w))
    && (phase.Started? || phase.Found? || phase.WorkMoved? ==> HoldsNothing(s, t))
    && (phase.RowLocked? ==> forall r | r in s.rowLock && s.rowLock[r] == t :: r == row)
    && (phase.WorkLocked? ==> forall r | r in s.rowLock :: s.rowLock[r] != t)
    && (phase.WorkLocked? || phase.RowLocked? || phase.Holding? ==>
          phase.work in s.workLock && s.workLock[phase.work] == t)
    && (phase.Found? || phase.WorkLocked? || phase.RowLocked? || phase.Holding? ==> row in s.used)
    && (phase.RowLocked? && row in s.owner ==> row in s.rowLock && s.rowLock[row] == t)
    && (phase.Holding? ==>
          row in s.owner && s.owner[row] == phase.work && row in s.rowLock && s.rowLock[row] == t)
    && (forall w, v | w in s.workLock && v in s.workLock && s.workLock[w] == t && s.workLock[v] == t :: w == v)
  }

  /** A row is locked by whoever has locked the work it belongs to, or by a locker about to read again. */
  predicate RowLockOk(s: State, r: Id)
    requires r in s.rowLock
  {
    r in s.owner ==>
      || Holds(s, s.rowLock[r], TheWork(s.owner[r]))
      || (s.rowLock[r] in s.lockers && s.lockers[s.rowLock[r]].phase.RowLocked?)
  }

  predicate Inv(s: State) {
    && (forall t | t in s.lockers :: LockerOk(s, t))
    && (forall r | r in s.owner :: r in s.used)
    && (forall r | r in s.rowLock :: r in s.used && RowLockOk(s, r))
  }

  /** Transaction `t` holds what it held. */
  predicate SameLocks(s: State, v: State, t: nat) {
    && (forall w | w in v.workLock && v.workLock[w] == t :: w in s.workLock && s.workLock[w] == t)
    && (forall w | w in s.workLock && s.workLock[w] == t :: w in v.workLock && v.workLock[w] == t)
    && (forall r | r in v.rowLock && v.rowLock[r] == t :: r in s.rowLock && s.rowLock[r] == t)
    && (forall r | r in s.rowLock && s.rowLock[r] == t :: r in v.rowLock && v.rowLock[r] == t)
  }

  /** A locker is as it was while it holds the same locks and its row is where it was. */
  lemma LockerKept(s: State, v: State, t: nat)
    requires t in s.lockers && t in v.lockers && v.lockers[t] == s.lockers[t] && LockerOk(s, t)
    requires SameLocks(s, v, t) && s.used <= v.used
    requires
      var row := s.lockers[t].row;
      && (s.lockers[t].phase.Holding? ==> row in v.owner && v.owner[row] == s.owner[row])
      && (s.lockers[t].phase.RowLocked? && row in v.owner ==> row in s.owner)
    ensures LockerOk(v, t)
  {
  }

  lemma OthersKeepLocks(s: State, step: Step, t: nat)
    requires t in s.lockers && Enabled(s, step)
    requires step.LockWork? || step.LockRow? || step.ReadAgain? || step.LockFurther? || step.Finish? ==> step.t != t
    ensures SameLocks(s, Next(s, step), t)
  {
  }

  lemma OthersKeepLocker(s: State, step: Step, t: nat)
    requires t in s.lockers && LockerOk(s, t) && Enabled(s, step)
    requires t in Next(s, step).lockers && Next(s, step).lockers[t] == s.lockers[t]
    requires step.LockWork? || step.LockRow? || step.ReadAgain? || step.LockFurther? || step.Finish? ==> step.t != t
    ensures LockerOk(Next(s, step), t)
  {
    var row, phase := s.lockers[t].row, s.lockers[t].phase;
    assert phase.Holding? ==> row in s.owner && row in s.rowLock && s.rowLock[row] == t;
    assert phase.RowLocked? ==> row in s.used;
    OthersKeepLocks(s, step, t);
    hide LockerOk, SameLocks;
    LockerKept(s, Next(s, step), t);
  }

  predicate OwnStep(step: Step, t: nat) {
    (step.Begin? || step.ReadOwner? || step.LockWork? || step.LockRow? || step.ReadAgain? || step.LockFurther?) && step.t == t
  }

  lemma OwnStepKeepsLocker(s: State, step: Step, t: nat)
    requires Inv(s) && Enabled(s, step) && t in Next(s, step).lockers
    requires OwnStep(step, t)
    ensures LockerOk(Next(s, step), t)
  {
    if t in s.lockers {
      assert LockerOk(s, t);
    }
  }

  lemma NextKeepsLocker(s: State, step: Step, t: nat)
    requires Inv(s) && Enabled(s, step) && t in Next(s, step).lockers
    ensures LockerOk(Next(s, step), t)
  {
    hide LockerOk;
    if OwnStep(step, t) {
      OwnStepKeepsLocker(s, step, t);
    } else {
      OthersKeepLocker(s, step, t);
    }
  }

  lemma NextKeepsRowLock(s: State, step: Step, r: Id)
    requires Inv(s) && Enabled(s, step) && r in Next(s, step).rowLock
    ensures r in Next(s, step).used && RowLockOk(Next(s, step), r)
  {
    if r in s.rowLock {
      assert RowLockOk(s, r);
      if s.rowLock[r] in s.lockers {
        assert LockerOk(s, s.rowLock[r]);
      }
    } else if step.LockRow? || step.LockFurther? {
      assert LockerOk(s, step.t);
    }
  }

  lemma NextKeepsInv(s: State, step: Step)
    requires Inv(s) && Enabled(s, step)
    ensures Inv(Next(s, step))
  {
    hide LockerOk, RowLockOk;
    forall t | t in Next(s, step).lockers
      ensures LockerOk(Next(s, step), t)
    {
      NextKeepsLocker(s, step, t);
    }
    forall r | r in Next(s, step).rowLock
      ensures r in Next(s, step).used && RowLockOk(Next(s, step), r)
    {
      NextKeepsRowLock(s, step, r);
    }
  }

  lemma {:induction false} RunKeepsInv(steps: seq<Step>)
    ensures Inv(Run(steps))
  {
    if |steps| > 0 {
      var s := Run(steps[..|steps| - 1]);
      RunKeepsInv(steps[..|steps| - 1]);
      if Enabled(s, steps[|steps| - 1]) {
        NextKeepsInv(s, steps[|steps| - 1]);
      }
    }
  }

  // ----- the promises -----

  /** When the lock succeeds, the locked work really owns the row. */
  lemma LockedWorkOwnsRow(steps: seq<Step>, t: nat)
    requires t in Run(steps).lockers && Run(steps).lockers[t].phase.Holding?
    ensures
      var s := Run(steps);
      var row, work := s.lockers[t].row, s.lockers[t].phase.work;
      && row in s.owner && s.owner[row] == work
      && work in s.workLock && s.workLock[work] == t
      && row in s.rowLock && s.rowLock[row] == t
  {
    RunKeepsInv(steps);
    assert LockerOk(Run(steps), t);
  }

  /** And keeps owning it until the transaction ends, whatever the others do in between. */
  lemma HoldingStays(s: State, step: Step, t: nat)
    requires t in s.lockers && s.lockers[t].phase.Holding? && Enabled(s, step) && step != Finish(t)
    ensures t in Next(s, step).lockers && Next(s, step).lockers[t] == s.lockers[t]
  {
  }

  lemma {:induction false} OwnedUntilCommit(steps: seq<Step>, i: nat, t: nat)
    requires i <= |steps|
    requires t in Run(steps[..i]).lockers && Run(steps[..i]).lockers[t].phase.Holding?
    requires forall k | i <= k < |steps| :: steps[k] != Finish(t)
    ensures t in Run(steps).lockers && Run(steps).lockers[t] == Run(steps[..i]).lockers[t]
    ensures
      var locker := Run(steps[..i]).lockers[t];
      locker.row in Run(steps).owner && Run(steps).owner[locker.row] == locker.phase.work
  {
    hide Next, Enabled;
    if i == |steps| {
      assert steps[..i] == steps;
    } else {
      var init := steps[..|steps| - 1];
      assert init[..i] == steps[..i];
      OwnedUntilCommit(init, i, t);
      if Enabled(Run(init), steps[|steps| - 1]) {
        HoldingStays(Run(init), steps[|steps| - 1], t);
      }
    }
    LockedWorkOwnsRow(steps, t);
  }

  /** A transaction that waits for a work holds no lock at all, so nobody ever waits for a second work. */
  lemma NeverWaitsForSecondWork(steps: seq<Step>, t: nat)
    requires t in Run(steps).lockers
    ensures Run(steps).lockers[t].phase.Found? ==> HoldsNothing(Run(steps), t)
    ensures forall w, v | w in Run(steps).workLock && v in Run(steps).workLock
              && Run(steps).workLock[w] == t && Run(steps).workLock[v] == t :: w == v
  {
    RunKeepsInv(steps);
    assert LockerOk(Run(steps), t);
  }

  // ----- no wait-for cycle -----

  predicate WaitsFor(s: State, t: nat, x: Resource, u: nat) {
    MayAttempt(s, t, x) && t != u && Holds(s, u, x)
  }

  /** Waiting for a work comes before waiting for a first row, and that before waiting for a further row. */
  function Rank(s: State, t: nat, x: Resource): (nat, nat) {
    if x.TheWork? then (0, x.id) else if t in s.lockers && s.lockers[t].phase.WorkLocked? then (1, 0) else (2, 0)
  }

  predicate RankLess(a: (nat, nat), b: (nat, nat)) {
    a.0 < b.0 || (a.0 == b.0 && a.1 < b.1)
  }

  /** Whoever is waited for and waits too, waits for something of higher rank. */
  lemma WaitingClimbs(s: State, t: nat, x: Resource, u: nat, y: Resource)
    requires Inv(s) && WaitsFor(s, t, x, u) && MayAttempt(s, u, y)
    ensures RankLess(Rank(s, t, x), Rank(s, u, y))
  {
    if u in s.lockers {
      assert LockerOk(s, u);
    }
    if t in s.lockers {
      assert LockerOk(s, t);
    }
    if x.TheRow? {
      assert RowLockOk(s, x.id);
    }
  }

  /** Transaction `ts[i]` wants `xs[i]`, which `ts[i + 1]` holds. */
  predicate WaitChain(s: State, ts: seq<nat>, xs: seq<Resource>) {
    |ts| == |xs| && forall i | 0 <= i < |ts| - 1 :: WaitsFor(s, ts[i], xs[i], ts[i + 1])
  }

  lemma {:induction false} ChainClimbs(s: State, ts: seq<nat>, xs: seq<Resource>)
    requires Inv(s) && |ts| > 1 && WaitChain(s, ts, xs) && MayAttempt(s, ts[|ts| - 1], xs[|ts| - 1])
    ensures RankLess(Rank(s, ts[0], xs[0]), Rank(s, ts[|ts| - 1], xs[|ts| - 1]))
  {
    var last := |ts| - 1;
    assert WaitsFor(s, ts[last - 1], xs[last - 1], ts[last - 1 + 1]);
    WaitingClimbs(s, ts[last - 1], xs[last - 1], ts[last], xs[last]);
    if last > 1 {
      forall i | 0 <= i < last - 1
        ensures WaitsFor(s, ts[..last][i], xs[..last][i], ts[..last][i + 1])
      {
        assert WaitsFor(s, ts[i], xs[i], ts[i + 1]);
      }
      ChainClimbs(s, ts[..last], xs[..last]);
    }
  }

  /** In no reachable state do patches, creations and merges wait for each other in a circle. */
  lemma NoWaitCycle(steps: seq<Step>, ts: seq<nat>, xs: seq<Resource>)
    requires |ts| > 0 && WaitChain(Run(steps), ts, xs)
    ensures !WaitsFor(Run(steps), ts[|ts| - 1], xs[|ts| - 1], ts[0])
  {
    var s := Run(steps);
    RunKeepsInv(steps);
    if |ts| > 1 && WaitsFor(s, ts[|ts| - 1], xs[|ts| - 1], ts[0]) {
      assert WaitsFor(s, ts[0], xs[0], ts[0 + 1]);
      ChainClimbs(s, ts, xs);
      WaitingClimbs(s, ts[|ts| - 1], xs[|ts| - 1], ts[0], xs[0]);
    }
  }

  // ----- why the second read is needed -----

  lemma OneMore(steps: seq<Step>, step: Step)
    requires Enabled(Run(steps), step)
    ensures Run(steps + [step]) == Next(Run(steps), step)
  {
    assert (steps + [step])[..|steps|] == steps;
  }

  lemma RowFound() returns (steps: seq<Step>)
    ensures Run(steps) == State(map[5 := 1], {5}, map[], map[], map[0 := Locker(5, Found(1))])
  {
    steps := [];
    OneMore(steps, Insert(5, 1));
    steps := steps + [Insert(5, 1)];
    OneMore(steps, Begin(0, 5));
    steps := steps + [Begin(0, 5)];
    OneMore(steps, ReadOwner(0));
    steps := steps + [ReadOwner(0)];
  }

  lemma WorksLocked() returns (steps: seq<Step>)
    ensures Run(steps) == State(map[5 := 1], {5}, map[1 := 9, 2 := 9], map[5 := 9], map[0 := Locker(5, Found(1))])
  {
    steps := RowFound();
    OneMore(steps, MoverLocksWork(9, 1));
    steps := steps + [MoverLocksWork(9, 1)];
    OneMore(steps, MoverLocksWork(9, 2));
    steps := steps + [MoverLocksWork(9, 2)];
    OneMore(steps, MoverLocksRow(9, 5));
    steps := steps + [MoverLocksRow(9, 5)];
  }

  lemma RowMoved() returns (steps: seq<Step>)
    ensures Run(steps) == State(map[5 := 2], {5}, map[], map[], map[0 := Locker(5, Found(1))])
  {
    steps := WorksLocked();
    OneMore(steps, Move(9, 5, 2));
    steps := steps + [Move(9, 5, 2)];
    OneMore(steps, MoverFinishes(9));
    assert Released(map[1 := 9, 2 := 9], 9) == map[] && Released(map[5 := 9], 9) == map[];
    steps := steps + [MoverFinishes(9)];
  }

  /** The recheck is needed: between the first read and the locks the row can move. */
  lemma RowCanMoveBeforeLock() returns (steps: seq<Step>, t: nat)
    ensures
      var s := Run(steps);
      t in s.lockers && s.lockers[t].phase == RowLocked(1) && s.lockers[t].row in s.owner && s.owner[s.lockers[t].row] == 2
  {
    t := 0;
    steps := RowMoved();
    OneMore(steps, LockWork(0));
    steps := steps + [LockWork(0)];
    OneMore(steps, LockRow(0));
    steps := steps + [LockRow(0)];
  }

  lemma RowLockedByDeleter() returns (steps: seq<Step>)
    ensures Run(steps) == State(map[5 := 1], {5}, map[1 := 9], map[5 := 9], map[0 := Locker(5, Found(1))])
  {
    steps := RowFound();
    OneMore(steps, MoverLocksWork(9, 1));
    steps := steps + [MoverLocksWork(9, 1)];
    OneMore(steps, MoverLocksRow(9, 5));
    steps := steps + [MoverLocksRow(9, 5)];
  }

  lemma RowDeleted() returns (steps: seq<Step>)
    ensures Run(steps) == State(map[], {5}, map[], map[], map[0 := Locker(5, Found(1))])
  {
    steps := RowLockedByDeleter();
    OneMore(steps, Delete(9, 5));
    steps := steps + [Delete(9, 5)];
    OneMore(steps, MoverFinishes(9));
    assert Released(map[1 := 9], 9) == map[] && Released(map[5 := 9], 9) == map[];
    steps := steps + [MoverFinishes(9)];
  }

  /** And it can be deleted: the transaction then locks a work that owns nothing it looks for. */
  lemma RowCanGoBeforeLock() returns (steps: seq<Step>, t: nat)
    ensures
      var s := Run(steps);
      t in s.lockers && s.lockers[t].phase == RowLocked(1) && s.lockers[t].row !in s.owner
  {
    t := 0;
    steps := RowDeleted();
    OneMore(steps, LockWork(0));
    steps := steps + [LockWork(0)];
    OneMore(steps, LockRow(0));
    steps := steps + [LockRow(0)];
  }

  // ----- how the second read decides -----

  /**
   * The second read goes by where the row is then: with the work that was locked the transaction holds both, with
   * another work it gives every lock back, and for a row that is gone it is over.
   */
  lemma SecondReadDecides(steps: seq<Step>, t: nat)
    requires Enabled(Run(steps), ReadAgain(t))
    ensures
      var s, v := Run(steps), Run(steps + [ReadAgain(t)]);
      var row, work := s.lockers[t].row, s.lockers[t].phase.work;
      && v.owner == s.owner
      && (v.lockers[t] == Locker(row, Holding(work)) <==> row in s.owner && s.owner[row] == work)
      && (v.lockers[t] == Locker(row, WorkMoved) <==> row in s.owner && s.owner[row] != work)
      && (v.lockers[t] == Locker(row, RowGone) <==> row !in s.owner)
      && (v.lockers[t].phase.Holding? ==> Holds(v, t, TheWork(work)) && Holds(v, t, TheRow(row)))
      && (v.lockers[t].phase.WorkMoved? ==> HoldsNothing(v, t))
  {
    RunKeepsInv(steps);
    assert LockerOk(Run(steps), t);
    OneMore(steps, ReadAgain(t));
  }

  /** Undisturbed, with work and row free, the protocol ends with both locked, and a further row of the work can follow. */
  lemma LockSucceeds(steps: seq<Step>, t: nat, row: Id, further: Id)
    requires Enabled(Run(steps), Begin(t, row))
    requires
      var s := Run(steps);
      && row in s.owner && further in s.owner && s.owner[further] == s.owner[row]
      && s.owner[row] !in s.workLock && row !in s.rowLock && further !in s.rowLock && further != row
    ensures
      var s, work := Run(steps), Run(steps).owner[row];
      Run(steps + [Begin(t, row)] + [ReadOwner(t)] + [LockWork(t)] + [LockRow(t)] + [ReadAgain(t)] + [LockFurther(t, further)])
      == s.(workLock := s.workLock[work := t], rowLock := s.rowLock[row := t][further := t],
            lockers := s.lockers[t := Locker(row, Holding(work))])
  {
    hide Run;
    var s, work := Run(steps), Run(steps).owner[row];
    var more := steps + [Begin(t, row)];
    OneMore(steps, Begin(t, row));
    OneMore(more, ReadOwner(t));
    more := more + [ReadOwner(t)];
    OneMore(more, LockWork(t));
    more := more + [LockWork(t)];
    OneMore(more, LockRow(t));
    more := more + [LockRow(t)];
    OneMore(more, ReadAgain(t));
    more := more + [ReadAgain(t)];
    assert Run(more) == s.(workLock := s.workLock[work := t], rowLock := s.rowLock[row := t],
                           lockers := s.lockers[t := Locker(row, Holding(work))]);
    OneMore(more, LockFurther(t, further));
  }

  // ----- retrying the whole transaction -----

  const MAX_ATTEMPTS := 3

  datatype Outcome<T> = Committed(value: T) | Moved | Thrown(code: nat)

  /** `retryWhenWorkMoved`: `run(k)` is what the k-th attempt ends with. */
  method RetryWhenWorkMoved<T>(run: nat -> Outcome<T>) returns (r: Outcome<T>, attempts: nat)
    ensures 1 <= attempts <= 3 && r == run(attempts)
    ensures forall k | 1 <= k < attempts :: run(k).Moved?
    ensures r.Moved? ==> attempts == 3
  {
    attempts := 1;
    while true
      invariant 1 <= attempts <= MAX_ATTEMPTS
      invariant forall k | 1 <= k < attempts :: run(k).Moved?
      decreases MAX_ATTEMPTS - attempts
    {
      r := run(attempts);
      if !r.Moved? || attempts >= MAX_ATTEMPTS {
        return;
      }
      attempts := attempts + 1;
    }
  }
}
