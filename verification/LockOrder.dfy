/**
 * Row locks as a step model: a transaction is the list of locks it will ask for. What keeps a set of
 * such transactions from waiting for each other in a circle is a discipline on each list alone.
 */
module LockOrder {

  /**
   * A table row at its level of the global order, or a row that everybody reaches only under the lock of
   * another row, its cover (a pending request under its copy).
   */
  datatype Resource = Row(level: nat, id: nat) | Covered(id: nat, cover: Resource)

  /** `FOR UPDATE` waits; `FOR UPDATE SKIP LOCKED` takes the row or does without it. */
  datatype Want = Wait(r: Resource) | SkipLocked(r: Resource)

  datatype Tx = Tx(held: set<Resource>, rest: seq<Want>)

  type State = map<nat, Tx>

  predicate Less(a: Resource, b: Resource) {
    a.Row? && b.Row? && (a.level < b.level || (a.level == b.level && a.id < b.id))
  }

  /** A row is above every row the transaction holds. */
  predicate Above(held: set<Resource>, r: Resource) {
    forall h | h in held && h.Row? :: Less(h, r)
  }

  /** Waiting is allowed for a row held already or above all rows held, and under a cover that is held. */
  predicate MayWait(held: set<Resource>, r: Resource) {
    if r.Row? then r in held || Above(held, r) else r.cover in held
  }

  predicate Disciplined(held: set<Resource>, rest: seq<Want>)
    decreases |rest|
  {
    if |rest| == 0 then true
    else
      var r := rest[0].r;
      if rest[0].Wait? then MayWait(held, r) && Disciplined(held + {r}, rest[1..])
      else r.Row? && Disciplined(held + {r}, rest[1..]) && Disciplined(held, rest[1..])
  }

  // ----- steps -----

  predicate Free(s: State, t: nat, r: Resource) {
    forall u | u in s && u != t :: r !in s[u].held
  }

  datatype Step =
    | Begin(t: nat, plan: seq<Want>)
    | Take(t: nat)
    | Skip(t: nat)
    | End(t: nat)

  /** A transaction may end at any point: it commits after its last lock or is rolled back before. */
  predicate Enabled(s: State, step: Step) {
    match step
    case Begin(t, plan) => t !in s && Disciplined({}, plan)
    case Take(t) => t in s && s[t].rest != [] && Free(s, t, s[t].rest[0].r)
    case Skip(t) => t in s && s[t].rest != [] && s[t].rest[0].SkipLocked?
    case End(t) => t in s
  }

  function Next(s: State, step: Step): State
    requires Enabled(s, step)
  {
    match step
    case Begin(t, plan) => s[t := Tx({}, plan)]
    case Take(t) => s[t := Tx(s[t].held + {s[t].rest[0].r}, s[t].rest[1..])]
    case Skip(t) => s[t := Tx(s[t].held, s[t].rest[1..])]
    case End(t) => map u | u in s && u != t :: s[u]
  }

  /** The states a sequence of steps leads to; a step that is not enabled does not happen. */
  function Run(steps: seq<Step>): State {
    if |steps| == 0 then map[]
    else
      var s := Run(steps[..|steps| - 1]);
      var step := steps[|steps| - 1];
      if Enabled(s, step) then Next(s, step) else s
  }

  // ----- the invariant -----

  predicate CoversHeld(held: set<Resource>) {
    forall r | r in held && r.Covered? :: r.cover in held
  }

  ghost predicate Inv(s: State) {
    && (forall t | t in s :: Disciplined(s[t].held, s[t].rest) && CoversHeld(s[t].held))
    && (forall t, u | t in s && u in s && t != u :: s[t].held !! s[u].held)
  }

  lemma NextKeepsInv(s: State, step: Step)
    requires Inv(s) && Enabled(s, step)
    ensures Inv(Next(s, step))
  {
    var v := Next(s, step);
    forall t | t in v
      ensures Disciplined(v[t].held, v[t].rest) && CoversHeld(v[t].held)
    {
      if step.Take? && t == step.t {
        assert Disciplined(s[t].held, s[t].rest);
      }
    }
    forall t, u | t in v && u in v && t != u
      ensures v[t].held !! v[u].held
    {
      if step.Take? && (t == step.t || u == step.t) {
        assert s[t].held !! s[u].held;
      }
    }
  }

  lemma {:induction false} RunKeepsInv(steps: seq<Step>)
    ensures Inv(Run(steps))
  {
    if |steps| > 0 {
      var s := Run(steps[..|steps| - 1]);
      RunKeepsInv(steps[..|steps| - 1]);
      if Enabled(s, steps[|steps| - 1]) {
        NextKeepsInv(s, steps[|steps| - 1]);
      }
    }
  }

  // ----- no wait-for cycle -----

  predicate Waiting(s: State, t: nat) {
    t in s && s[t].rest != [] && s[t].rest[0].Wait? && !Free(s, t, s[t].rest[0].r)
  }

  predicate WaitsFor(s: State, t: nat, u: nat) {
    t in s && u in s && t != u && s[t].rest != [] && s[t].rest[0].Wait? && s[t].rest[0].r in s[u].held
  }

  /** Nobody ever waits for a covered row: whoever holds it holds the cover too. */
  lemma WaitsOnlyUpwards(s: State, t: nat, u: nat)
    requires Inv(s) && WaitsFor(s, t, u)
    ensures s[t].rest[0].r.Row? && Above(s[t].held, s[t].rest[0].r)
  {
    assert Disciplined(s[t].held, s[t].rest) && CoversHeld(s[u].held);
    assert s[t].held !! s[u].held;
  }

  lemma WaitingClimbs(s: State, t: nat, u: nat, v: nat)
    requires Inv(s) && WaitsFor(s, t, u) && WaitsFor(s, u, v)
    ensures Less(s[t].rest[0].r, s[u].rest[0].r)
  {
    WaitsOnlyUpwards(s, t, u);
    WaitsOnlyUpwards(s, u, v);
  }

  predicate WaitChain(s: State, ts: seq<nat>) {
    forall i | 0 <= i < |ts| - 1 :: WaitsFor(s, ts[i], ts[i + 1])
  }

  lemma {:induction false} ChainClimbs(s: State, ts: seq<nat>, next: nat)
    requires Inv(s) && |ts| > 1 && WaitChain(s, ts) && WaitsFor(s, ts[|ts| - 1], next)
    ensures WaitsFor(s, ts[0], ts[1])
    ensures Less(s[ts[0]].rest[0].r, s[ts[|ts| - 1]].rest[0].r)
  {
    var last := |ts| - 1;
    assert WaitsFor(s, ts[last - 1], ts[last - 1 + 1]);
    WaitingClimbs(s, ts[last - 1], ts[last], next);
    if last > 1 {
      var init := ts[..last];
      assert forall i | 0 <= i < |init| - 1 :: WaitsFor(s, init[i], init[i + 1]) by {
        forall i | 0 <= i < |init| - 1
          ensures WaitsFor(s, init[i], init[i + 1])
        {
          assert WaitsFor(s, ts[i], ts[i + 1]);
        }
      }
      ChainClimbs(s, init, ts[last]);
    }
  }

  /** In no reachable state do transactions wait for each other in a circle. */
  lemma NoWaitCycle(steps: seq<Step>, ts: seq<nat>)
    requires |ts| > 0 && WaitChain(Run(steps), ts)
    ensures !WaitsFor(Run(steps), ts[|ts| - 1], ts[0])
  {
    var s := Run(steps);
    RunKeepsInv(steps);
    if |ts| > 1 && WaitsFor(s, ts[|ts| - 1], ts[0]) {
      ChainClimbs(s, ts, ts[0]);
      WaitingClimbs(s, ts[|ts| - 1], ts[0], ts[1]);
    }
  }

  // ----- somebody can always go on -----

  lemma Blocker(s: State, t: nat) returns (u: nat)
    requires Waiting(s, t)
    ensures WaitsFor(s, t, u)
  {
    u :| u in s && u != t && s[t].rest[0].r in s[u].held;
  }

  lemma WaitsForRow(s: State, t: nat)
    requires Inv(s) && Waiting(s, t)
    ensures s[t].rest[0].r.Row?
  {
    var u := Blocker(s, t);
    WaitsOnlyUpwards(s, t, u);
  }

  /** `top` wants a row that none of `ts` wants to go above. */
  predicate Tops(s: State, ts: set<nat>, top: nat) {
    && top in s && s[top].rest != []
    && forall t | t in ts :: t in s && s[t].rest != [] && !Less(s[top].rest[0].r, s[t].rest[0].r)
  }

  lemma TopsMore(s: State, ts: set<nat>, one: nat, other: nat) returns (top: nat)
    requires one in s && s[one].rest != [] && s[one].rest[0].r.Row?
    requires other in ts && Tops(s, ts, other) && forall t | t in ts :: s[t].rest[0].r.Row?
    ensures top in ts + {one} && Tops(s, ts + {one}, top)
  {
    top := if Less(s[other].rest[0].r, s[one].rest[0].r) then one else other;
  }

  /** Among waiting transactions, one that wants the highest row. */
  lemma Highest(s: State, ts: set<nat>) returns (top: nat)
    requires Inv(s) && ts != {} && forall t | t in ts :: Waiting(s, t)
    ensures top in ts && Tops(s, ts, top)
    decreases |ts|
  {
    hide Inv, Free;
    top :| top in ts;
    forall t | t in ts
      ensures s[t].rest[0].r.Row?
    {
      WaitsForRow(s, t);
    }
    var rest := ts - {top};
    if rest != {} {
      var other := Highest(s, rest);
      assert ts == rest + {top};
      hide Waiting, Tops;
      top := TopsMore(s, rest, top, other);
    } else {
      assert ts == {top};
    }
  }

  /** While transactions are open, one of them is not waiting: the locks never come to a standstill. */
  lemma SomeoneCanMove(steps: seq<Step>)
    requires Run(steps) != map[]
    ensures exists t | t in Run(steps) :: !Waiting(Run(steps), t)
  {
    var s := Run(steps);
    RunKeepsInv(steps);
    if forall t | t in s :: Waiting(s, t) {
      var one :| one in s;
      var top := Highest(s, s.Keys);
      var u := Blocker(s, top);
      var v := Blocker(s, u);
      WaitingClimbs(s, top, u, v);
    }
  }

  // ----- getting through a list -----

  /** The rows a list wants that nobody else holds. */
  function FreeOnes(s: State, t: nat, rest: seq<Want>): set<Resource> {
    set want | want in rest && Free(s, t, want.r) :: want.r
  }

  lemma OneMore(past: seq<Step>, step: Step)
    requires Enabled(Run(past), step)
    ensures Run(past + [step]) == Next(Run(past), step)
  {
    assert (past + [step])[..|past|] == past;
  }

  lemma FreeForOthers(s: State, v: State, t: nat, r: Resource)
    requires t in s && t in v && v == s[t := v[t]]
    ensures Free(v, t, r) == Free(s, t, r)
  {
    if !Free(s, t, r) {
      var u :| u in s && u != t && r in s[u].held;
      assert v[u] == s[u];
    }
    if !Free(v, t, r) {
      var u :| u in v && u != t && r in v[u].held;
      assert v[u] == s[u];
    }
  }

  /**
   * A transaction whose list waits only for rows that are free gets through all of it while the others stand still, and
   * then holds, besides what it held, exactly the free ones: rows locked by others are skipped and nothing else is.
   */
  lemma {:induction false} GetsThrough(past: seq<Step>, t: nat) returns (steps: seq<Step>)
    requires t in Run(past)
    requires forall want | want in Run(past)[t].rest :: want.SkipLocked? || Free(Run(past), t, want.r)
    ensures
      var s := Run(past);
      Run(past + steps) == s[t := Tx(s[t].held + FreeOnes(s, t, s[t].rest), [])]
    decreases |Run(past)[t].rest|
  {
    var s := Run(past);
    steps := [];
    assert past + [] == past;
    if s[t].rest == [] {
      assert s[t].held + FreeOnes(s, t, []) == s[t].held;
      assert s[t := Tx(s[t].held, [])] == s;
    } else {
      var want, later := s[t].rest[0], s[t].rest[1..];
      var step := if Free(s, t, want.r) then Take(t) else Skip(t);
      OneMore(past, step);
      var v := Next(s, step);
      assert v == s[t := v[t]];
      forall r
        ensures Free(v, t, r) == Free(s, t, r)
      {
        FreeForOthers(s, v, t, r);
      }
      steps := GetsThrough(past + [step], t);
      assert past + [step] + steps == past + ([step] + steps);
      steps := [step] + steps;
      assert s[t].rest == [want] + later;
      assert FreeOnes(s, t, s[t].rest) == FreeOnes(v, t, later) + if Free(s, t, want.r) then {want.r} else {};
      hide Free;
      assert v[t].held + FreeOnes(v, t, later) == s[t].held + FreeOnes(s, t, s[t].rest);
    }
  }
}
