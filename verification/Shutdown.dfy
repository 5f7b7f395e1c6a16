/**
 * Graceful shutdown of the auth service: two gates, two sets of live work and one deadline. Each step is
 * one synchronous turn of the event loop; between any two turns any other may run.
 */
module Shutdown {
  type Id = nat
  type Time = nat

  // ----- one deadline for all phases -----

  /** `ShutdownBudget`: the deadline is fixed when the shutdown begins. */
  datatype Budget = Budget(totalMs: nat, deadlineAt: Time)

  function BudgetFrom(totalMs: nat, now: Time): Budget {
    Budget(totalMs, now + totalMs)
  }

  function RemainingMs(b: Budget, now: Time): nat {
    if now < b.deadlineAt then b.deadlineAt - now else 0
  }

  /** What is left never exceeds the whole, never grows, and is nothing from the deadline on. */
  lemma RemainingShrinks(totalMs: nat, start: Time, early: Time, late: Time)
    requires start <= early <= late
    ensures
      var b := BudgetFrom(totalMs, start);
      && RemainingMs(b, late) <= RemainingMs(b, early) <= totalMs
      && (RemainingMs(b, late) == 0 <==> start + totalMs <= late)
      && early + RemainingMs(b, early) <= (if early < b.deadlineAt then b.deadlineAt else early)
  {
  }

  /** A phase begins when the one before is over and waits no longer than what is left when it begins. */
  ghost predicate Phases(b: Budget, begins: seq<Time>, waits: seq<nat>) {
    && |begins| == |waits|
    && (forall i | 0 <= i < |begins| :: waits[i] <= RemainingMs(b, begins[i]))
    && (forall i | 0 <= i < |begins| - 1 :: begins[i] + waits[i] <= begins[i + 1])
  }

  function Sum(waits: seq<nat>): nat {
    if |waits| == 0 then 0 else Sum(waits[..|waits| - 1]) + waits[|waits| - 1]
  }

  /** However many phases there are, all their waiting together fits the one budget. */
  lemma {:induction false} WaitsFitBudget(totalMs: nat, start: Time, begins: seq<Time>, waits: seq<nat>)
    requires Phases(BudgetFrom(totalMs, start), begins, waits)
    requires |begins| > 0 ==> start <= begins[0]
    ensures Sum(waits) <= totalMs
    ensures |begins| > 0 ==> start + Sum(waits) <= begins[|begins| - 1] + waits[|begins| - 1]
  {
    var n := |begins| - 1;
    if n >= 0 {
      assert forall i | 0 <= i < n - 1 :: begins[..n][i] + waits[..n][i] <= begins[..n][i + 1];
      WaitsFitBudget(totalMs, start, begins[..n], waits[..n]);
      if n > 0 {
        assert begins[n - 1] + waits[n - 1] <= begins[n - 1 + 1];
      }
    }
  }

  /** What the two phases are granted, added up, can exceed the budget: the first may use little of its share. */
  lemma GrantsMayExceedBudget()
    ensures RemainingMs(BudgetFrom(30_000, 0), 0) + RemainingMs(BudgetFrom(30_000, 0), 1_000) > 30_000
  {
  }

  /** It does so exactly when the phases begin, together, less than a whole budget after the start. */
  lemma GrantsFitExactlyWhen(totalMs: nat, start: Time, first: Time, second: Time)
    requires start <= first <= second
    ensures
      var b := BudgetFrom(totalMs, start);
      RemainingMs(b, first) + RemainingMs(b, second) <= totalMs <==> totalMs <= (first - start) + (second - start)
  {
  }

  // ----- the service -----

  /** Where a call of `runWorkflow` stands: before its first statement, in the body, in `finally`, over. */
  datatype Place = AtEntry | InBody | InFinally | Thrown | Over

  /** What a workflow did, in its own order. */
  datatype Deed = Reserved | TurnedAway | Wrote | Mailed(e: Id) | Returned

  datatype Event = Did(w: Id, deed: Deed) | JobWrote(e: Id)

  datatype Phase =
    | Serving
    | DrainingWorkflows(workflows: set<Id>, budget: Budget, granted: nat, since: Time)
    | DrainingEmails(jobs: set<Id>, budget: Budget, granted: nat, since: Time)
    | Drained
    | TimedOutOnWorkflows
    | TimedOutOnEmails

  datatype State = State(
    clock: Time,
    acceptingWorkflows: bool,
    acceptingEmails: bool,
    workflows: map<Id, Place>,
    activeWorkflows: set<Id>,
    activeEmails: set<Id>,
    settledEmails: set<Id>,
    emailRefused: bool,
    phase: Phase,
    log: seq<Event>)

  const START := State(0, true, true, map[], {}, {}, {}, false, Serving, [])

  datatype Step =
    | Call(w: Id)
    | Reserve(w: Id)
    | Write(w: Id)
    | Enqueue(w: Id, e: Id)
    | BodySettles(w: Id)
    | Release(w: Id)
    | JobWrites(e: Id)
    | EmailSettles(e: Id)
    | TimePasses(until: Time)
    | ShutdownBegins(totalMs: nat)
    | WorkflowsSettle
    | WorkflowsTimeOut
    | EmailsSettle
    | EmailsTimeOut

  /**
   * `settle` answers true at once for no jobs, false at once for jobs and no budget, and otherwise true when
   * all jobs of the snapshot have settled or false when the time granted is over.
   */
  predicate MaySettle(snapshot: set<Id>, live: set<Id>, granted: nat) {
    snapshot == {} || (granted > 0 && snapshot !! live)
  }

  predicate MayTimeOut(snapshot: set<Id>, granted: nat, since: Time, now: Time) {
    snapshot != {} && since + granted <= now
  }

  predicate Stands(s: State, w: Id, at: Place) {
    w in s.workflows && s.workflows[w] == at
  }

  /** A workflow's steps are enabled by where it stands and by nothing else; letters have names of their own. */
  predicate Enabled(s: State, step: Step) {
    match step
    case Call(w) => w !in s.workflows
    case Reserve(w) => Stands(s, w, AtEntry)
    case Write(w) => Stands(s, w, InBody)
    case Enqueue(w, e) => Stands(s, w, InBody) && e !in s.activeEmails && e !in s.settledEmails
    case BodySettles(w) => Stands(s, w, InBody)
    case Release(w) => Stands(s, w, InFinally)
    case JobWrites(e) => e in s.activeEmails
    case EmailSettles(e) => e in s.activeEmails
    case TimePasses(until) => s.clock <= until
    case ShutdownBegins(_) => s.phase.Serving?
    case WorkflowsSettle => s.phase.DrainingWorkflows? && MaySettle(s.phase.workflows, s.activeWorkflows, s.phase.granted)
    case WorkflowsTimeOut =>
      s.phase.DrainingWorkflows? && MayTimeOut(s.phase.workflows, s.phase.granted, s.phase.since, s.clock)
    case EmailsSettle => s.phase.DrainingEmails? && MaySettle(s.phase.jobs, s.activeEmails, s.phase.granted)
    case EmailsTimeOut => s.phase.DrainingEmails? && MayTimeOut(s.phase.jobs, s.phase.granted, s.phase.since, s.clock)
  }

  function Next(s: State, step: Step): State
    requires Enabled(s, step)
  {
    match step
    case Call(w) => s.(workflows := s.workflows[w := AtEntry])
    case Reserve(w) =>
      if s.acceptingWorkflows
      then s.(workflows := s.workflows[w := InBody], activeWorkflows := s.activeWorkflows + {w},
              log := s.log + [Did(w, Reserved)])
      else s.(workflows := s.workflows[w := Thrown], log := s.log + [Did(w, TurnedAway)])
    case Write(w) => s.(log := s.log + [Did(w, Wrote)])
    case Enqueue(w, e) =>
      if s.acceptingEmails
      then s.(activeEmails := s.activeEmails + {e}, log := s.log + [Did(w, Mailed(e))])
      else s.(emailRefused := true)
    case BodySettles(w) => s.(workflows := s.workflows[w := InFinally])
    case Release(w) =>
      s.(workflows := s.workflows[w := Over], activeWorkflows := s.activeWorkflows - {w},
         log := s.log + [Did(w, Returned)])
    case JobWrites(e) => s.(log := s.log + [JobWrote(e)])
    case EmailSettles(e) => s.(activeEmails := s.activeEmails - {e}, settledEmails := s.settledEmails + {e})
    case TimePasses(until) => s.(clock := until)
    case ShutdownBegins(totalMs) =>
      var b := BudgetFrom(totalMs, s.clock);
      s.(acceptingWorkflows := false,
         phase := DrainingWorkflows(s.activeWorkflows, b, RemainingMs(b, s.clock), s.clock))
    case WorkflowsSettle =>
      s.(acceptingEmails := false,
         phase := DrainingEmails(s.activeEmails, s.phase.budget, RemainingMs(s.phase.budget, s.clock), s.clock))
    case WorkflowsTimeOut => s.(phase := TimedOutOnWorkflows)
    case EmailsSettle => s.(phase := Drained)
    case EmailsTimeOut => s.(phase := TimedOutOnEmails)
  }

  function Run(s: State, steps: seq<Step>): State {
    if |steps| == 0 then s
    else
      var before := Run(s, steps[..|steps| - 1]);
      var step := steps[|steps| - 1];
      if Enabled(before, step) then Next(before, step) else before
  }

  // ----- the invariant -----

  ghost predicate Inv(s: State) {
    && (forall w :: w in s.activeWorkflows <==> Stands(s, w, InBody) || Stands(s, w, InFinally))
    && (s.acceptingWorkflows <==> s.phase.Serving?)
    && (s.acceptingEmails <==> s.phase.Serving? || s.phase.DrainingWorkflows? || s.phase.TimedOutOnWorkflows?)
    && (!s.acceptingEmails ==> s.activeWorkflows == {})
    && (s.phase.DrainingWorkflows? ==> s.activeWorkflows <= s.phase.workflows)
    && (s.phase.DrainingEmails? ==> s.activeEmails <= s.phase.jobs)
    && (s.phase.Drained? ==> s.activeEmails == {})
    && !s.emailRefused
    && s.activeEmails !! s.settledEmails
  }

  lemma NextKeepsInv(s: State, step: Step)
    requires Inv(s) && Enabled(s, step)
    ensures Inv(Next(s, step))
  {
  }

  lemma {:induction false} RunKeepsInv(s: State, steps: seq<Step>)
    requires Inv(s)
    ensures Inv(Run(s, steps))
  {
    if |steps| > 0 {
      var before := Run(s, steps[..|steps| - 1]);
      RunKeepsInv(s, steps[..|steps| - 1]);
      if Enabled(before, steps[|steps| - 1]) {
        NextKeepsInv(before, steps[|steps| - 1]);
      }
    }
  }

  // ----- the promises -----

  /** The e-mail gate is closed only while no workflow is live, and closing it finds none. */
  lemma EmailGateClosesLast(steps: seq<Step>)
    ensures !Run(START, steps).acceptingEmails ==> Run(START, steps).activeWorkflows == {}
  {
    RunKeepsInv(START, steps);
  }

  /** So the refusal inside `registerEmailJob` is never reached. */
  lemma NoEmailIsRefused(steps: seq<Step>)
    ensures !Run(START, steps).emailRefused
    ensures forall w, e | Enabled(Run(START, steps), Enqueue(w, e)) :: Run(START, steps).acceptingEmails
  {
    RunKeepsInv(START, steps);
  }

  /** A shutdown that gave up on its workflows leaves the gate open for the letters they may still send. */
  lemma TimeoutLeavesGateOpen(steps: seq<Step>)
    requires Run(START, steps).phase.TimedOutOnWorkflows?
    ensures Run(START, steps).acceptingEmails && !Run(START, steps).acceptingWorkflows
  {
    RunKeepsInv(START, steps);
  }

  // ----- the order of reservation and writes -----

  /** The deeds of one workflow. */
  function Deeds(log: seq<Event>, w: Id): seq<Deed> {
    if |log| == 0 then []
    else
      var last := log[|log| - 1];
      Deeds(log[..|log| - 1], w) + if last.Did? && last.w == w then [last.deed] else []
  }

  lemma DeedsSnoc(log: seq<Event>, event: Event, w: Id)
    ensures Deeds(log + [event], w)
            == if event.Did? && event.w == w then Deeds(log, w) + [event.deed] else Deeds(log, w)
  {
    assert (log + [event])[..|log|] == log;
    assert Deeds(log, w) + [] == Deeds(log, w);
  }

  predicate Works(deeds: seq<Deed>) {
    |deeds| > 0 && deeds[0] == Reserved && forall i | 0 < i < |deeds| :: deeds[i].Wrote? || deeds[i].Mailed?
  }

  /** What a workflow has done by the time it stands here. */
  predicate DoneBy(deeds: seq<Deed>, at: Place) {
    match at
    case AtEntry => deeds == []
    case InBody | InFinally => Works(deeds)
    case Thrown => deeds == [TurnedAway]
    case Over => |deeds| > 0 && deeds[|deeds| - 1] == Returned && Works(deeds[..|deeds| - 1])
  }

  predicate ToldOf(s: State, w: Id) {
    if w in s.workflows then DoneBy(Deeds(s.log, w), s.workflows[w]) else Deeds(s.log, w) == []
  }

  /** Where the next deed takes its workflow; the others stay. */
  lemma DeedTold(log: seq<Event>, v: Id, deed: Deed, w: Id)
    ensures v != w ==> Deeds(log + [Did(v, deed)], w) == Deeds(log, w)
    ensures
      var deeds, more := Deeds(log, w), Deeds(log + [Did(v, deed)], w);
      v == w ==>
        && (deeds == [] && deed.Reserved? ==> Works(more))
        && (deeds == [] && deed.TurnedAway? ==> more == [TurnedAway])
        && (Works(deeds) && (deed.Wrote? || deed.Mailed?) ==> Works(more))
        && (Works(deeds) && deed.Returned? ==> DoneBy(more, Over))
  {
    var deeds := Deeds(log, w);
    DeedsSnoc(log, Did(v, deed), w);
    assert (deeds + [deed])[..|deeds|] == deeds;
  }

  lemma NextKeepsTold(s: State, step: Step, w: Id)
    requires ToldOf(s, w) && Enabled(s, step)
    ensures ToldOf(Next(s, step), w)
  {
    hide Deeds, Works;
    match step {
      case Reserve(v) => DeedTold(s.log, v, if s.acceptingWorkflows then Reserved else TurnedAway, w);
      case Write(v) => DeedTold(s.log, v, Wrote, w);
      case Enqueue(v, e) => DeedTold(s.log, v, Mailed(e), w);
      case Release(v) => DeedTold(s.log, v, Returned, w);
      case JobWrites(e) => DeedsSnoc(s.log, JobWrote(e), w);
      case _ =>
    }
  }

  lemma {:induction false} RunIsTold(steps: seq<Step>, w: Id)
    ensures ToldOf(Run(START, steps), w)
  {
    if |steps| > 0 {
      var before := Run(START, steps[..|steps| - 1]);
      RunIsTold(steps[..|steps| - 1], w);
      if Enabled(before, steps[|steps| - 1]) {
        NextKeepsTold(before, steps[|steps| - 1], w);
      }
    }
  }

  /** A workflow that was turned away did nothing else, before or after: the call can safely be repeated. */
  lemma RefusedWritesNothing(steps: seq<Step>, w: Id)
    requires TurnedAway in Deeds(Run(START, steps).log, w)
    ensures Deeds(Run(START, steps).log, w) == [TurnedAway]
  {
    RunIsTold(steps, w);
    hide Run, Deeds;
  }

  /** Writes and letters come after the one reservation and before the one return. */
  predicate InsideReservation(deeds: seq<Deed>) {
    forall i | 0 <= i < |deeds| ::
      && (deeds[i].Wrote? || deeds[i].Mailed? ==> 0 < i && deeds[0] == Reserved)
      && (deeds[i].Reserved? ==> i == 0)
      && (deeds[i].Returned? ==> 0 < i == |deeds| - 1)
  }

  lemma DoneByIsInside(deeds: seq<Deed>, at: Place)
    requires DoneBy(deeds, at)
    ensures InsideReservation(deeds)
  {
    if at.Over? {
      var works := deeds[..|deeds| - 1];
      assert forall i | 0 <= i < |works| :: works[i] == deeds[i];
    }
  }

  lemma WritesUnderReservation(steps: seq<Step>, w: Id)
    ensures InsideReservation(Deeds(Run(START, steps).log, w))
  {
    RunIsTold(steps, w);
    var s := Run(START, steps);
    if w in s.workflows {
      DoneByIsInside(Deeds(s.log, w), s.workflows[w]);
    }
  }

  // ----- a normal finish -----

  /** Nothing is at work and nothing can be begun any more. */
  predicate Quiet(s: State) {
    && s.activeWorkflows == {} && s.activeEmails == {}
    && !s.acceptingWorkflows && !s.acceptingEmails && s.phase.Drained?
    && forall w | w in s.workflows :: !s.workflows[w].InBody? && !s.workflows[w].InFinally?
  }

  /** Only refusals were added to the log. */
  predicate OnlyRefusalsSince(before: seq<Event>, after: seq<Event>) {
    before <= after && forall i | |before| <= i < |after| :: after[i].Did? && after[i].deed == TurnedAway
  }

  lemma DrainedIsQuiet(s: State)
    requires Inv(s) && s.phase.Drained?
    ensures Quiet(s)
  {
    assert forall w | w in s.workflows ::
        && (s.workflows[w].InBody? ==> Stands(s, w, InBody))
        && (s.workflows[w].InFinally? ==> Stands(s, w, InFinally));
  }

  lemma {:induction false} StaysQuiet(s: State, more: seq<Step>)
    requires Inv(s) && s.phase.Drained?
    ensures Inv(Run(s, more)) && Run(s, more).phase.Drained? && OnlyRefusalsSince(s.log, Run(s, more).log)
  {
    if |more| > 0 {
      var before, step := Run(s, more[..|more| - 1]), more[|more| - 1];
      StaysQuiet(s, more[..|more| - 1]);
      DrainedIsQuiet(before);
      if Enabled(before, step) {
        NextKeepsInv(before, step);
      }
    }
  }

  /** After a normal finish every accepted workflow and letter has settled, and whatever comes later is turned away. */
  lemma FinishMeansQuiet(steps: seq<Step>, more: seq<Step>)
    requires Run(START, steps).phase.Drained?
    ensures Quiet(Run(Run(START, steps), more))
    ensures OnlyRefusalsSince(Run(START, steps).log, Run(Run(START, steps), more).log)
  {
    RunKeepsInv(START, steps);
    StaysQuiet(Run(START, steps), more);
    DrainedIsQuiet(Run(Run(START, steps), more));
  }

  /** No work at all: the shutdown may finish at once, even on a budget of nothing. */
  lemma IdleShutdownNeedsNoBudget(steps: seq<Step>)
    requires Run(START, steps).phase.Serving?
    requires Run(START, steps).activeWorkflows == {} && Run(START, steps).activeEmails == {}
    ensures Run(Run(START, steps), [ShutdownBegins(0), WorkflowsSettle, EmailsSettle]).phase.Drained?
    ensures !Enabled(Next(Run(START, steps), ShutdownBegins(0)), WorkflowsTimeOut)
  {
    var s := Run(START, steps);
    var all := [ShutdownBegins(0), WorkflowsSettle, EmailsSettle];
    assert all[..2] == [ShutdownBegins(0), WorkflowsSettle] && all[..2][..1] == [ShutdownBegins(0)];
    var one := Next(s, ShutdownBegins(0));
    assert Run(s, all[..2][..1]) == one;
    assert Run(s, all[..2]) == Next(one, WorkflowsSettle);
    hide Run;
  }

  /** What the steps of a shutdown leave: one gate at a time, each with the snapshot and the share of time it begins with. */
  lemma ShutdownSteps(s: State, step: Step)
    requires Enabled(s, step)
    ensures
      var v := Next(s, step);
      match step
      case ShutdownBegins(totalMs) =>
        && !v.acceptingWorkflows && v.acceptingEmails == s.acceptingEmails
        && v.phase == DrainingWorkflows(s.activeWorkflows, Budget(totalMs, s.clock + totalMs), totalMs, s.clock)
      case WorkflowsSettle =>
        && !v.acceptingEmails && v.acceptingWorkflows == s.acceptingWorkflows
        && v.phase.DrainingEmails? && v.phase.jobs == s.activeEmails && v.phase.since == s.clock
        && s.clock + v.phase.granted == Max(s.clock, s.phase.budget.deadlineAt)
      case WorkflowsTimeOut => v == s.(phase := TimedOutOnWorkflows)
      case EmailsSettle => v == s.(phase := Drained)
      case EmailsTimeOut => v == s.(phase := TimedOutOnEmails)
      case _ => v.phase == s.phase && v.acceptingWorkflows == s.acceptingWorkflows && v.acceptingEmails == s.acceptingEmails
  {
  }

  function Max(a: Time, b: Time): Time {
    if a < b then b else a
  }

  /** A phase that gives up has had its share, and the deadline has come. */
  ghost predicate Timed(s: State) {
    && (s.phase.DrainingWorkflows? ==>
          s.phase.since <= s.clock && s.phase.granted == RemainingMs(s.phase.budget, s.phase.since))
    && (s.phase.DrainingEmails? ==>
          s.phase.since <= s.clock && s.phase.granted == RemainingMs(s.phase.budget, s.phase.since))
  }

  lemma NextIsTimed(s: State, step: Step)
    requires Timed(s) && Enabled(s, step)
    ensures Timed(Next(s, step))
  {
  }

  lemma {:induction false} RunIsTimed(steps: seq<Step>)
    ensures Timed(Run(START, steps))
  {
    hide Timed, Enabled, Next;
    if |steps| > 0 {
      var before := Run(START, steps[..|steps| - 1]);
      RunIsTimed(steps[..|steps| - 1]);
      if Enabled(before, steps[|steps| - 1]) {
        NextIsTimed(before, steps[|steps| - 1]);
      }
    } else {
      StartIsTimed();
    }
  }

  lemma StartIsTimed()
    ensures Timed(START)
  {
  }

  /**
   * No phase hangs: it may go on as soon as nobody it waits for is left, and give up as soon as its time is over;
   * otherwise somebody it waits for is still at work and time is left. With no time granted only an empty
   * snapshot goes on.
   */
  lemma NoPhaseHangs(steps: seq<Step>)
    ensures
      var s := Run(START, steps);
      s.phase.DrainingWorkflows? ==>
        && (Enabled(s, WorkflowsSettle) <==>
              || s.phase.workflows == {}
              || (s.phase.granted > 0 && forall w | w in s.phase.workflows :: w !in s.activeWorkflows))
        && (Enabled(s, WorkflowsTimeOut) <==> s.phase.workflows != {} && s.phase.since + s.phase.granted <= s.clock)
        && (Enabled(s, WorkflowsSettle) || Enabled(s, WorkflowsTimeOut)
            || (s.clock < s.phase.since + s.phase.granted && exists w | w in s.phase.workflows :: w in s.activeWorkflows))
    ensures
      var s := Run(START, steps);
      s.phase.DrainingEmails? ==>
        && (Enabled(s, EmailsSettle) <==>
              || s.phase.jobs == {}
              || (s.phase.granted > 0 && forall e | e in s.phase.jobs :: e !in s.activeEmails))
        && (Enabled(s, EmailsTimeOut) <==> s.phase.jobs != {} && s.phase.since + s.phase.granted <= s.clock)
        && (Enabled(s, EmailsSettle) || Enabled(s, EmailsTimeOut)
            || (s.clock < s.phase.since + s.phase.granted && exists e | e in s.phase.jobs :: e in s.activeEmails))
  {
    hide Run, RemainingMs;
    RunIsTimed(steps);
    var s := Run(START, steps);
    if s.phase.DrainingWorkflows? {
      DisjointExactlyWhen(s.phase.workflows, s.activeWorkflows);
    }
    if s.phase.DrainingEmails? {
      DisjointExactlyWhen(s.phase.jobs, s.activeEmails);
    }
  }

  lemma DisjointExactlyWhen(a: set<Id>, b: set<Id>)
    ensures a !! b <==> forall x | x in a :: x !in b
    ensures !(a !! b) <==> exists x | x in a :: x in b
  {
    if forall x | x in a :: x !in b {
      assert a !! b;
    }
  }

  /** Neither phase is given up before the one deadline, fixed when the shutdown began. */
  lemma NoPhaseGivesUpEarly(steps: seq<Step>)
    ensures Enabled(Run(START, steps), WorkflowsTimeOut) || Enabled(Run(START, steps), EmailsTimeOut) ==>
              Run(START, steps).phase.budget.deadlineAt <= Run(START, steps).clock
  {
    RunIsTimed(steps);
  }

  // ----- what work does, and that it can always end -----

  lemma RunSnoc(s: State, steps: seq<Step>, step: Step)
    ensures Run(s, steps + [step]) == if Enabled(Run(s, steps), step) then Next(Run(s, steps), step) else Run(s, steps)
  {
    assert (steps + [step])[..|steps|] == steps;
  }

  /** The workflow let in, with its letter on the way and its body not over. */
  function AtWork(s: State, w: Id, e: Id): State {
    s.(workflows := s.workflows[w := InBody], activeWorkflows := s.activeWorkflows + {w}, activeEmails := s.activeEmails + {e},
       log := s.log + [Did(w, Reserved), Did(w, Wrote), Did(w, Mailed(e)), JobWrote(e)])
  }

  function TurnedOut(s: State, w: Id): State {
    s.(workflows := s.workflows[w := Thrown], log := s.log + [Did(w, TurnedAway)])
  }

  lemma WorkflowBegins(s: State, w: Id, e: Id)
    requires Inv(s) && w !in s.workflows && e !in s.activeEmails && e !in s.settledEmails
    ensures Run(s, [Call(w)] + [Reserve(w)] + [Write(w)] + [Enqueue(w, e)] + [JobWrites(e)])
         == if s.acceptingWorkflows then AtWork(s, w, e) else TurnedOut(s, w)
  {
    hide Run;
    EmptyRun(s);
    RunSnoc(s, [], Call(w));
    assert [] + [Call(w)] == [Call(w)];
    RunSnoc(s, [Call(w)], Reserve(w));
    RunSnoc(s, [Call(w)] + [Reserve(w)], Write(w));
    RunSnoc(s, [Call(w)] + [Reserve(w)] + [Write(w)], Enqueue(w, e));
    RunSnoc(s, [Call(w)] + [Reserve(w)] + [Write(w)] + [Enqueue(w, e)], JobWrites(e));
    if s.acceptingWorkflows {
      assert s.log + [Did(w, Reserved)] + [Did(w, Wrote)] + [Did(w, Mailed(e))] + [JobWrote(e)]
          == s.log + [Did(w, Reserved), Did(w, Wrote), Did(w, Mailed(e)), JobWrote(e)];
    }
  }

  lemma WorkflowReturns(s: State, body: seq<Step>, w: Id, e: Id)
    requires w !in s.activeWorkflows && e !in s.activeEmails && Run(s, body) == AtWork(s, w, e)
    ensures Run(s, body + [BodySettles(w)] + [Release(w)] + [EmailSettles(e)])
         == s.(workflows := s.workflows[w := Over], settledEmails := s.settledEmails + {e},
               log := s.log + [Did(w, Reserved), Did(w, Wrote), Did(w, Mailed(e)), JobWrote(e), Did(w, Returned)])
  {
    hide Run;
    RunSnoc(s, body, BodySettles(w));
    RunSnoc(s, body + [BodySettles(w)], Release(w));
    RunSnoc(s, body + [BodySettles(w)] + [Release(w)], EmailSettles(e));
    assert s.activeWorkflows + {w} - {w} == s.activeWorkflows && s.activeEmails + {e} - {e} == s.activeEmails;
  }

  lemma NothingMoreToDo(s: State, body: seq<Step>, w: Id, e: Id)
    requires e !in s.activeEmails && Run(s, body) == TurnedOut(s, w)
    ensures Run(s, body + [BodySettles(w)] + [Release(w)] + [EmailSettles(e)]) == TurnedOut(s, w)
  {
    hide Run;
    RunSnoc(s, body, BodySettles(w));
    RunSnoc(s, body + [BodySettles(w)], Release(w));
    RunSnoc(s, body + [BodySettles(w)] + [Release(w)], EmailSettles(e));
  }

  /** One workflow with one letter, from its call to its end: what it leaves when it is let in, and when it is not. */
  lemma WorkflowFromCallToEnd(s: State, w: Id, e: Id)
    requires Inv(s) && w !in s.workflows && e !in s.activeEmails && e !in s.settledEmails
    ensures
      var body := [Call(w)] + [Reserve(w)] + [Write(w)] + [Enqueue(w, e)] + [JobWrites(e)];
      Run(s, body + [BodySettles(w)] + [Release(w)] + [EmailSettles(e)])
      == if s.acceptingWorkflows
         then s.(workflows := s.workflows[w := Over], settledEmails := s.settledEmails + {e},
                 log := s.log + [Did(w, Reserved), Did(w, Wrote), Did(w, Mailed(e)), JobWrote(e), Did(w, Returned)])
         else s.(workflows := s.workflows[w := Thrown], log := s.log + [Did(w, TurnedAway)])
  {
    hide Run;
    var body := [Call(w)] + [Reserve(w)] + [Write(w)] + [Enqueue(w, e)] + [JobWrites(e)];
    WorkflowBegins(s, w, e);
    if s.acceptingWorkflows {
      assert w !in s.activeWorkflows;
      hide AtWork, Inv;
      WorkflowReturns(s, body, w, e);
    } else {
      hide Inv;
      NothingMoreToDo(s, body, w, e);
    }
  }

  lemma EmptyRun(s: State)
    ensures Run(s, []) == s
  {
  }

  /** All live work can end while the shutdown stands where it stands. */
  lemma LiveWorkEnds(s: State) returns (steps: seq<Step>)
    requires Inv(s)
    ensures
      var v := Run(s, steps);
      && v.activeWorkflows == {} && v.activeEmails == {} && v.settledEmails == s.settledEmails + s.activeEmails
      && v.clock == s.clock && v.phase == s.phase
      && v.acceptingWorkflows == s.acceptingWorkflows && v.acceptingEmails == s.acceptingEmails
  {
    steps := [];
    while Run(s, steps).activeWorkflows != {}
      invariant Inv(Run(s, steps)) && Run(s, steps).activeEmails == s.activeEmails && Run(s, steps).settledEmails == s.settledEmails
      invariant Run(s, steps).clock == s.clock && Run(s, steps).phase == s.phase
      invariant Run(s, steps).acceptingWorkflows == s.acceptingWorkflows && Run(s, steps).acceptingEmails == s.acceptingEmails
      decreases Run(s, steps).activeWorkflows
    {
      var u := Run(s, steps);
      var w :| w in u.activeWorkflows;
      RunKeepsInv(s, steps + [BodySettles(w)] + [Release(w)]);
      RunSnoc(s, steps, BodySettles(w));
      RunSnoc(s, steps + [BodySettles(w)], Release(w));
      steps := steps + [BodySettles(w)] + [Release(w)];
    }
    while Run(s, steps).activeEmails != {}
      invariant Inv(Run(s, steps)) && Run(s, steps).activeWorkflows == {}
      invariant Run(s, steps).activeEmails + Run(s, steps).settledEmails == s.activeEmails + s.settledEmails
      invariant Run(s, steps).clock == s.clock && Run(s, steps).phase == s.phase
      invariant Run(s, steps).acceptingWorkflows == s.acceptingWorkflows && Run(s, steps).acceptingEmails == s.acceptingEmails
      decreases Run(s, steps).activeEmails
    {
      var e :| e in Run(s, steps).activeEmails;
      RunKeepsInv(s, steps + [EmailSettles(e)]);
      RunSnoc(s, steps, EmailSettles(e));
      steps := steps + [EmailSettles(e)];
    }
  }

  /** A phase with somebody to wait for, and its whole time over, may give up, whatever was granted. */
  lemma TimeRunsOut(steps: seq<Step>)
    ensures
      var s := Run(START, steps);
      s.phase.DrainingWorkflows? && s.phase.workflows != {} ==>
        Enabled(Run(START, steps + [TimePasses(Max(s.clock, s.phase.since + s.phase.granted))]), WorkflowsTimeOut)
    ensures
      var s := Run(START, steps);
      s.phase.DrainingEmails? && s.phase.jobs != {} ==>
        Enabled(Run(START, steps + [TimePasses(Max(s.clock, s.phase.since + s.phase.granted))]), EmailsTimeOut)
  {
    var s := Run(START, steps);
    if s.phase.DrainingWorkflows? || s.phase.DrainingEmails? {
      RunSnoc(START, steps, TimePasses(Max(s.clock, s.phase.since + s.phase.granted)));
    }
  }

  // ----- the service as an object -----

  class AuthService {
    var clock: Time
    var acceptingWorkflows: bool
    var acceptingEmails: bool
    var workflows: map<Id, Place>
    var activeWorkflows: set<Id>
    var activeEmails: set<Id>
    var settledEmails: set<Id>
    var phase: Phase
    ghost var log: seq<Event>

    ghost function Now(): State
      reads this
    {
      State(clock, acceptingWorkflows, acceptingEmails, workflows, activeWorkflows, activeEmails, settledEmails, false,
            phase, log)
    }

    ghost predicate Valid()
      reads this
    {
      Inv(Now())
    }

    constructor ()
      ensures Valid() && Now() == START
    {
      clock, acceptingWorkflows, acceptingEmails := 0, true, true;
      workflows, activeWorkflows, activeEmails, settledEmails, phase := map[], {}, {}, {}, Serving;
      log := [];
    }

    /** `reserveWorkflow`: the answer and the entry in the live set come in one turn. */
    method ReserveWorkflow(w: Id) returns (accepted: bool)
      requires Valid() && Stands(Now(), w, AtEntry)
      modifies this`workflows, this`activeWorkflows, this`log
      ensures Valid() && accepted == acceptingWorkflows
      ensures Now() == Next(old(Now()), Reserve(w))
    {
      NextKeepsInv(Now(), Reserve(w));
      if !acceptingWorkflows {
        workflows, log := workflows[w := Thrown], log + [Did(w, TurnedAway)];
        return false;
      }
      workflows, log := workflows[w := InBody], log + [Did(w, Reserved)];
      activeWorkflows := activeWorkflows + {w};
      return true;
    }

    /** `enqueueEmail` from a workflow's body, down to `registerEmailJob`: the gate is always open here. */
    method EnqueueEmail(w: Id, e: Id)
      requires Valid() && Enabled(Now(), Enqueue(w, e))
      modifies this`activeEmails, this`log
      ensures Valid() && Now() == Next(old(Now()), Enqueue(w, e))
      ensures activeEmails == old(activeEmails) + {e}
    {
      NextKeepsInv(Now(), Enqueue(w, e));
      if !acceptingEmails {
        // the gate is closed: `registerEmailJob` would throw
        assert false;
      }
      activeEmails, log := activeEmails + {e}, log + [Did(w, Mailed(e))];
    }

    /** `release`; a second call finds the permission already returned. */
    method ReleaseWorkflow(w: Id)
      requires Valid() && (Stands(Now(), w, InFinally) || Stands(Now(), w, Over))
      modifies this`workflows, this`activeWorkflows, this`log
      ensures Valid()
      ensures Now() == if old(workflows)[w].InFinally? then Next(old(Now()), Release(w)) else old(Now())
    {
      if workflows[w].InFinally? {
        NextKeepsInv(Now(), Release(w));
        workflows, log := workflows[w := Over], log + [Did(w, Returned)];
        activeWorkflows := activeWorkflows - {w};
      }
    }

    /** `requestPasswordReset`: reservation, letter and release in one turn. */
    method RequestPasswordReset(w: Id, e: Id) returns (accepted: bool)
      requires Valid() && w !in workflows && e !in activeEmails && e !in settledEmails
      modifies this`workflows, this`activeWorkflows, this`activeEmails, this`log
      ensures Valid() && accepted == acceptingWorkflows
      ensures activeWorkflows == old(activeWorkflows)
      ensures activeEmails == old(activeEmails) + if accepted then {e} else {}
      ensures log == old(log) + if accepted then [Did(w, Reserved), Did(w, Mailed(e)), Did(w, Returned)] else [Did(w, TurnedAway)]
    {
      NextKeepsInv(Now(), Call(w));
      workflows := workflows[w := AtEntry];
      accepted := ReserveWorkflow(w);
      if accepted {
        EnqueueEmail(w, e);
        NextKeepsInv(Now(), BodySettles(w));
        workflows := workflows[w := InFinally];
        ReleaseWorkflow(w);
      }
    }

    /** `onModuleDestroy` up to its first wait. */
    method BeginShutdown(totalMs: nat)
      requires Valid() && phase.Serving?
      modifies this`acceptingWorkflows, this`phase
      ensures Valid() && Now() == Next(old(Now()), ShutdownBegins(totalMs))
    {
      NextKeepsInv(Now(), ShutdownBegins(totalMs));
      var budget := BudgetFrom(totalMs, clock);
      acceptingWorkflows := false;
      phase := DrainingWorkflows(activeWorkflows, budget, RemainingMs(budget, clock), clock);
    }

    /** `onModuleDestroy` when the first wait is over: it throws, or closes the second gate and goes on. */
    method AfterWorkflows(settled: bool)
      requires Valid()
      requires Enabled(Now(), if settled then WorkflowsSettle else WorkflowsTimeOut)
      modifies this`acceptingEmails, this`phase
      ensures Valid() && Now() == Next(old(Now()), if settled then WorkflowsSettle else WorkflowsTimeOut)
    {
      NextKeepsInv(Now(), if settled then WorkflowsSettle else WorkflowsTimeOut);
      if !settled {
        phase := TimedOutOnWorkflows;
        return;
      }
      acceptingEmails := false;
      phase := DrainingEmails(activeEmails, phase.budget, RemainingMs(phase.budget, clock), clock);
    }

    /** `onModuleDestroy` when the second wait is over. */
    method AfterEmails(settled: bool)
      requires Valid()
      requires Enabled(Now(), if settled then EmailsSettle else EmailsTimeOut)
      modifies this`phase
      ensures Valid() && Now() == Next(old(Now()), if settled then EmailsSettle else EmailsTimeOut)
    {
      NextKeepsInv(Now(), if settled then EmailsSettle else EmailsTimeOut);
      phase := if settled then Drained else TimedOutOnEmails;
    }
  }
}
