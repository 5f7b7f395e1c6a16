/**
 * The limits on e-mailed invitations: per inviter and day, per recipient and week, both counted over a
 * window that slides with the clock; and the clean-up that forgets recipients whose window has passed.
 *
 * The advisory locks make counting and inserting one step for an inviter and for a recipient. Three clocks
 * take part: the count goes by one read before the transaction, the row carries the stamp the database
 * gives it, which may be as old as the start of the transaction, and the clean-up reads its own.
 */
module InvitationLimits {
  type Id = nat
  type Time = nat

  const DAY: nat := 24 * 60 * 60 * 1000
  const WEEK: nat := 7 * DAY
  const PER_USER_PER_DAY := 10
  const PER_RECIPIENT_PER_WEEK := 3

  /** An e-mailed invitation; `known` until the recipient's hash is set to null. */
  datatype Invite = Invite(inviter: Id, recipient: Id, known: bool, at: Time)

  // ----- the counts of `createEmailWith` -----

  function SentBy(rows: seq<Invite>, inviter: Id, readAt: Time): nat {
    if |rows| == 0 then 0
    else
      var last := rows[|rows| - 1];
      SentBy(rows[..|rows| - 1], inviter, readAt) + if last.inviter == inviter && readAt < last.at + DAY then 1 else 0
  }

  function SentTo(rows: seq<Invite>, recipient: Id, readAt: Time): nat {
    if |rows| == 0 then 0
    else
      var last := rows[|rows| - 1];
      SentTo(rows[..|rows| - 1], recipient, readAt)
      + if last.known && last.recipient == recipient && readAt < last.at + WEEK then 1 else 0
  }

  predicate Allowed(rows: seq<Invite>, inviter: Id, recipient: Id, readAt: Time) {
    SentBy(rows, inviter, readAt) < PER_USER_PER_DAY && SentTo(rows, recipient, readAt) < PER_RECIPIENT_PER_WEEK
  }

  /** `InviteEmailHashCleanupService.run`. */
  function Forget(rows: seq<Invite>, now: Time): (r: seq<Invite>)
    ensures |r| == |rows|
    ensures forall i | 0 <= i < |rows| :: r[i] == rows[i].(known := rows[i].known && now < rows[i].at + WEEK)
  {
    if |rows| == 0 then []
    else
      var last := rows[|rows| - 1];
      Forget(rows[..|rows| - 1], now) + [last.(known := last.known && now < last.at + WEEK)]
  }

  // ----- runs -----

  datatype Step = Create(inviter: Id, recipient: Id, readAt: Time, at: Time) | Cleanup(readAt: Time) | Wait(until: Time)

  /** `cleaned` is the latest clock a clean-up has gone by. */
  datatype State = State(clock: Time, cleaned: Time, rows: seq<Invite>)

  function Max(a: Time, b: Time): Time {
    if a < b then b else a
  }

  /** A clock can have been read only in the past, and a row is stamped after the clock of its count was read. */
  function Next(s: State, step: Step): State {
    match step
    case Create(inviter, recipient, readAt, at) =>
      if readAt <= at <= s.clock && Allowed(s.rows, inviter, recipient, readAt)
      then s.(rows := s.rows + [Invite(inviter, recipient, true, at)]) else s
    case Cleanup(readAt) =>
      if readAt <= s.clock then s.(rows := Forget(s.rows, readAt), cleaned := Max(s.cleaned, readAt)) else s
    case Wait(until) => if s.clock <= until then s.(clock := until) else s
  }

  const START := State(0, 0, [])

  function RunFrom(s: State, steps: seq<Step>): State {
    if |steps| == 0 then s else Next(RunFrom(s, steps[..|steps| - 1]), steps[|steps| - 1])
  }

  function Run(steps: seq<Step>): State {
    RunFrom(START, steps)
  }

  // ----- the times of one inviter's or recipient's invitations -----

  function TimesBy(rows: seq<Invite>, inviter: Id): seq<Time> {
    if |rows| == 0 then []
    else
      var last := rows[|rows| - 1];
      TimesBy(rows[..|rows| - 1], inviter) + if last.inviter == inviter then [last.at] else []
  }

  function TimesTo(rows: seq<Invite>, recipient: Id): seq<Time> {
    if |rows| == 0 then []
    else
      var last := rows[|rows| - 1];
      TimesTo(rows[..|rows| - 1], recipient) + if last.recipient == recipient then [last.at] else []
  }

  /** The times within the window that begins at `from`. */
  function Within(ts: seq<Time>, from: Time, window: nat): set<nat> {
    set i: nat | i < |ts| && from <= ts[i] < from + window
  }

  /** How many times lie less than a window before `t`, or after it. */
  function Recent(ts: seq<Time>, t: Time, window: nat): nat {
    if |ts| == 0 then 0
    else Recent(ts[..|ts| - 1], t, window) + if t < ts[|ts| - 1] + window then 1 else 0
  }

  /** Each time came when fewer than `most` earlier entries reached into its window. No order is assumed. */
  predicate Admitted(ts: seq<Time>, most: nat, window: nat) {
    forall j | 0 <= j < |ts| :: Recent(ts[..j], ts[j], window) < most
  }

  lemma RecentSnoc(ts: seq<Time>, t: Time, readAt: Time, window: nat)
    ensures Recent(ts + [t], readAt, window) == Recent(ts, readAt, window) + if readAt < t + window then 1 else 0
  {
    assert (ts + [t])[..|ts + [t]| - 1] == ts;
  }

  /** A later clock counts no more. */
  lemma {:induction false} RecentShrinks(ts: seq<Time>, early: Time, late: Time, window: nat)
    requires early <= late
    ensures Recent(ts, late, window) <= Recent(ts, early, window)
  {
    if |ts| > 0 {
      RecentShrinks(ts[..|ts| - 1], early, late, window);
    }
  }

  lemma AdmittedSnoc(ts: seq<Time>, t: Time, most: nat, window: nat)
    requires Admitted(ts, most, window) && Recent(ts, t, window) < most
    ensures Admitted(ts + [t], most, window)
  {
    var more := ts + [t];
    forall j | 0 <= j < |more|
      ensures Recent(more[..j], more[j], window) < most
    {
      assert more[..j] == ts[..j];
      assert ts[..|ts|] == ts;
    }
  }

  lemma WithinInit(ts: seq<Time>, from: Time, window: nat)
    requires |ts| > 0
    ensures
      var init, last := ts[..|ts| - 1], ts[|ts| - 1];
      |Within(ts, from, window)| == |Within(init, from, window)| + if from <= last < from + window then 1 else 0
  {
    var init, last := ts[..|ts| - 1], ts[|ts| - 1];
    assert Within(ts, from, window)
           == Within(init, from, window) + if from <= last < from + window then {|init|} else {};
  }

  lemma {:induction false} WithinIsRecent(ts: seq<Time>, from: Time, t: Time, window: nat)
    requires t < from + window
    ensures |Within(ts, from, window)| <= Recent(ts, t, window)
  {
    if |ts| > 0 {
      WithinIsRecent(ts[..|ts| - 1], from, t, window);
      WithinInit(ts, from, window);
    }
  }

  /** Counting back from each entry bounds every window, wherever it begins: look at the entry that came last. */
  lemma {:induction false} AdmittedFillsNoWindow(ts: seq<Time>, from: Time, most: nat, window: nat)
    requires Admitted(ts, most, window)
    ensures |Within(ts, from, window)| <= most
  {
    if |ts| > 0 {
      var init, last := ts[..|ts| - 1], ts[|ts| - 1];
      assert forall j | 0 <= j < |init| :: init[..j] == ts[..j];
      AdmittedFillsNoWindow(init, from, most, window);
      WithinInit(ts, from, window);
      if from <= last < from + window {
        WithinIsRecent(init, from, last, window);
      }
    }
  }

  // ----- what the counts count -----

  lemma {:induction false} SentByCountsRecent(rows: seq<Invite>, inviter: Id, readAt: Time)
    ensures SentBy(rows, inviter, readAt) == Recent(TimesBy(rows, inviter), readAt, DAY)
  {
    if |rows| > 0 {
      var init, last := rows[..|rows| - 1], rows[|rows| - 1];
      SentByCountsRecent(init, inviter, readAt);
      RecentSnoc(TimesBy(init, inviter), last.at, readAt, DAY);
      assert TimesBy(init, inviter) + [] == TimesBy(init, inviter);
    }
  }

  /** Whatever was forgotten lay a week before a clean-up's clock. */
  predicate ForgottenAreOld(rows: seq<Invite>, cleaned: Time) {
    forall i | 0 <= i < |rows| && !rows[i].known :: rows[i].at + WEEK <= cleaned
  }

  lemma {:induction false} SentToCountsRecent(rows: seq<Invite>, recipient: Id, t: Time)
    requires ForgottenAreOld(rows, t)
    ensures SentTo(rows, recipient, t) == Recent(TimesTo(rows, recipient), t, WEEK)
  {
    if |rows| > 0 {
      var init, last := rows[..|rows| - 1], rows[|rows| - 1];
      assert ForgottenAreOld(init, t) && (last.known || last.at + WEEK <= t);
      hide ForgottenAreOld;
      SentToCountsRecent(init, recipient, t);
      RecentSnoc(TimesTo(init, recipient), last.at, t, WEEK);
      assert TimesTo(init, recipient) + [] == TimesTo(init, recipient);
    }
  }

  /** Counting from an earlier clock counts at least as many. */
  lemma {:induction false} EarlierCountsMore(rows: seq<Invite>, recipient: Id, early: Time, late: Time)
    requires early <= late
    ensures SentTo(rows, recipient, early) >= SentTo(rows, recipient, late)
  {
    if |rows| > 0 {
      EarlierCountsMore(rows[..|rows| - 1], recipient, early, late);
    }
  }

  lemma {:induction false} ForgettingMovesNoTime(rows: seq<Invite>, now: Time, id: Id)
    ensures TimesBy(Forget(rows, now), id) == TimesBy(rows, id) && TimesTo(Forget(rows, now), id) == TimesTo(rows, id)
  {
    if |rows| > 0 {
      ForgettingMovesNoTime(rows[..|rows| - 1], now, id);
      assert Forget(rows, now)[..|rows| - 1] == Forget(rows[..|rows| - 1], now);
    }
  }

  lemma TimesAfterCreation(rows: seq<Invite>, invite: Invite, id: Id)
    ensures TimesBy(rows + [invite], id) == if id == invite.inviter then TimesBy(rows, id) + [invite.at] else TimesBy(rows, id)
    ensures TimesTo(rows + [invite], id) == if id == invite.recipient then TimesTo(rows, id) + [invite.at] else TimesTo(rows, id)
  {
    var more := rows + [invite];
    assert more[..|more| - 1] == rows;
    assert TimesBy(rows, id) + [] == TimesBy(rows, id) && TimesTo(rows, id) + [] == TimesTo(rows, id);
  }

  // ----- the limits over any sliding window -----

  ghost predicate DayLimited(s: State) {
    && ForgottenAreOld(s.rows, s.cleaned)
    && forall u :: Admitted(TimesBy(s.rows, u), PER_USER_PER_DAY, DAY)
  }

  ghost predicate WeekLimited(s: State) {
    forall r :: Admitted(TimesTo(s.rows, r), PER_RECIPIENT_PER_WEEK, WEEK)
  }

  /** No clean-up has overtaken this stamp: none went by a later clock, or none had anything to forget yet. */
  predicate NotOvertaken(cleaned: Time, at: Time) {
    cleaned <= at || cleaned < WEEK
  }

  predicate OnTime(s: State, step: Step) {
    step.Create? ==> NotOvertaken(s.cleaned, step.at)
  }

  lemma CreationKeepsDay(s: State, inviter: Id, recipient: Id, readAt: Time, at: Time)
    requires DayLimited(s) && readAt <= at && Allowed(s.rows, inviter, recipient, readAt)
    ensures Admitted(TimesBy(s.rows, inviter) + [at], PER_USER_PER_DAY, DAY)
  {
    SentByCountsRecent(s.rows, inviter, readAt);
    RecentShrinks(TimesBy(s.rows, inviter), readAt, at, DAY);
    AdmittedSnoc(TimesBy(s.rows, inviter), at, PER_USER_PER_DAY, DAY);
  }

  lemma CreationKeepsWeek(s: State, inviter: Id, recipient: Id, readAt: Time, at: Time)
    requires DayLimited(s) && WeekLimited(s) && NotOvertaken(s.cleaned, at)
    requires readAt <= at && Allowed(s.rows, inviter, recipient, readAt)
    ensures Admitted(TimesTo(s.rows, recipient) + [at], PER_RECIPIENT_PER_WEEK, WEEK)
  {
    assert ForgottenAreOld(s.rows, at);
    EarlierCountsMore(s.rows, recipient, readAt, at);
    SentToCountsRecent(s.rows, recipient, at);
    AdmittedSnoc(TimesTo(s.rows, recipient), at, PER_RECIPIENT_PER_WEEK, WEEK);
  }

  lemma NextKeepsDay(s: State, step: Step)
    requires DayLimited(s)
    ensures DayLimited(Next(s, step))
  {
    hide Admitted, TimesBy, Allowed;
    forall u
      ensures Admitted(TimesBy(Next(s, step).rows, u), PER_USER_PER_DAY, DAY)
    {
      match step {
        case Create(inviter, recipient, readAt, at) =>
          if Next(s, step) != s {
            CreationKeepsDay(s, inviter, recipient, readAt, at);
            TimesAfterCreation(s.rows, Invite(inviter, recipient, true, at), u);
          }
        case Cleanup(readAt) => ForgettingMovesNoTime(s.rows, readAt, u);
        case Wait(_) =>
      }
    }
  }

  lemma NextKeepsWeek(s: State, step: Step)
    requires DayLimited(s) && WeekLimited(s) && OnTime(s, step)
    ensures WeekLimited(Next(s, step))
  {
    hide Admitted, TimesTo, Allowed, DayLimited;
    forall r
      ensures Admitted(TimesTo(Next(s, step).rows, r), PER_RECIPIENT_PER_WEEK, WEEK)
    {
      match step {
        case Create(inviter, recipient, readAt, at) =>
          if Next(s, step) != s {
            CreationKeepsWeek(s, inviter, recipient, readAt, at);
            TimesAfterCreation(s.rows, Invite(inviter, recipient, true, at), r);
          }
        case Cleanup(readAt) => ForgettingMovesNoTime(s.rows, readAt, r);
        case Wait(_) =>
      }
    }
  }

  lemma {:induction false} RunKeepsDay(steps: seq<Step>)
    ensures DayLimited(Run(steps))
  {
    if |steps| > 0 {
      RunKeepsDay(steps[..|steps| - 1]);
      NextKeepsDay(Run(steps[..|steps| - 1]), steps[|steps| - 1]);
    }
  }

  /** No day, wherever it begins, holds more than ten e-mailed invitations of one inviter. */
  lemma TenPerDay(steps: seq<Step>, inviter: Id, from: Time)
    ensures |Within(TimesBy(Run(steps).rows, inviter), from, DAY)| <= 10
  {
    RunKeepsDay(steps);
    AdmittedFillsNoWindow(TimesBy(Run(steps).rows, inviter), from, PER_USER_PER_DAY, DAY);
  }

  /** In this run no stamp was overtaken by a clean-up before its letter was counted. */
  predicate InOrder(steps: seq<Step>) {
    |steps| > 0 ==> InOrder(steps[..|steps| - 1]) && OnTime(Run(steps[..|steps| - 1]), steps[|steps| - 1])
  }

  lemma {:induction false} RunKeepsWeek(steps: seq<Step>)
    requires InOrder(steps)
    ensures WeekLimited(Run(steps))
  {
    if |steps| > 0 {
      RunKeepsWeek(steps[..|steps| - 1]);
      RunKeepsDay(steps[..|steps| - 1]);
      NextKeepsWeek(Run(steps[..|steps| - 1]), steps[|steps| - 1]);
    }
  }

  /** No week holds more than three to one recipient, although recipients are forgotten meanwhile. */
  lemma ThreePerWeek(steps: seq<Step>, recipient: Id, from: Time)
    requires InOrder(steps)
    ensures |Within(TimesTo(Run(steps).rows, recipient), from, WEEK)| <= 3
  {
    RunKeepsWeek(steps);
    AdmittedFillsNoWindow(TimesTo(Run(steps).rows, recipient), from, PER_RECIPIENT_PER_WEEK, WEEK);
  }

  lemma RunSnoc(steps: seq<Step>, step: Step)
    ensures Run(steps + [step]) == Next(Run(steps), step)
    ensures InOrder(steps + [step]) <==> InOrder(steps) && OnTime(Run(steps), step)
  {
    var more := steps + [step];
    assert more[..|more| - 1] == steps;
  }

  /** After every run in order, a letter with this stamp leaves its recipient within the limit. */
  ghost predicate StampIsSafe(cleaned: Time, at: Time) {
    forall steps, inviter, recipient, readAt, from
      | InOrder(steps) && Run(steps).cleaned == cleaned
      :: |Within(TimesTo(Next(Run(steps), Create(inviter, recipient, readAt, at)).rows, recipient), from, WEEK)| <= 3
  }

  /** Three people write to one recipient. */
  function ThreeLetters(first: Time, second: Time): seq<Step> {
    [Wait(first)] + [Create(1, 9, first, first)]
    + [Wait(second)] + [Create(2, 9, second, second)] + [Create(3, 9, second, second)]
  }

  function ThreeRows(first: Time, second: Time): seq<Invite> {
    [Invite(1, 9, true, first)] + [Invite(2, 9, true, second)] + [Invite(3, 9, true, second)]
  }

  lemma CountsSnoc(rows: seq<Invite>, last: Invite, inviter: Id, recipient: Id, t: Time)
    ensures SentBy(rows + [last], inviter, t)
            == SentBy(rows, inviter, t) + if last.inviter == inviter && t < last.at + DAY then 1 else 0
    ensures SentTo(rows + [last], recipient, t)
            == SentTo(rows, recipient, t) + if last.known && last.recipient == recipient && t < last.at + WEEK then 1 else 0
  {
    assert (rows + [last])[..|rows|] == rows;
  }

  /** A stranger's counts over three rows. */
  lemma CountsOfThree(a: Invite, b: Invite, c: Invite, t: Time)
    requires a.recipient == b.recipient == c.recipient == 9 && 4 !in [a.inviter, b.inviter, c.inviter]
    ensures SentBy([a] + [b] + [c], 4, t) == 0
    ensures SentTo([a] + [b] + [c], 9, t)
            == (if a.known && t < a.at + WEEK then 1 else 0) + (if b.known && t < b.at + WEEK then 1 else 0)
               + if c.known && t < c.at + WEEK then 1 else 0
  {
    CountsSnoc([], a, 4, 9, t);
    assert [] + [a] == [a];
    CountsSnoc([a], b, 4, 9, t);
    CountsSnoc([a] + [b], c, 4, 9, t);
  }

  lemma LetterSent(steps: seq<Step>, s: State, inviter: Id)
    requires Run(steps) == s && InOrder(steps) && s.cleaned == 0 && Allowed(s.rows, inviter, 9, s.clock)
    ensures Run(steps + [Create(inviter, 9, s.clock, s.clock)]) == s.(rows := s.rows + [Invite(inviter, 9, true, s.clock)])
    ensures InOrder(steps + [Create(inviter, 9, s.clock, s.clock)])
  {
    RunSnoc(steps, Create(inviter, 9, s.clock, s.clock));
  }

  lemma ThreeLettersRun(first: Time, second: Time)
    requires first <= second
    ensures InOrder(ThreeLetters(first, second))
    ensures Run(ThreeLetters(first, second)) == State(second, 0, ThreeRows(first, second))
  {
    var a, b := Invite(1, 9, true, first), Invite(2, 9, true, second);
    assert [] + [a] == [a] && Allowed([], 1, 9, first) && Run([]) == START && InOrder([]);
    CountsSnoc([], a, 2, 9, second);
    CountsSnoc([], a, 3, 9, second);
    CountsSnoc([a], b, 3, 9, second);
    assert Allowed([a], 2, 9, second) && Allowed([a] + [b], 3, 9, second);
    hide RunFrom, InOrder, Allowed;
    var steps := [Wait(first)];
    RunSnoc([], Wait(first));
    assert [] + [Wait(first)] == steps;
    LetterSent(steps, State(first, 0, []), 1);
    steps := steps + [Create(1, 9, first, first)];
    RunSnoc(steps, Wait(second));
    steps := steps + [Wait(second)];
    LetterSent(steps, State(second, 0, [a]), 2);
    LetterSent(steps + [Create(2, 9, second, second)], State(second, 0, [a] + [b]), 3);
  }

  lemma WithinAfterCreation(rows: seq<Invite>, letter: Invite, from: Time)
    requires from <= letter.at < from + WEEK
    ensures |Within(TimesTo(rows + [letter], letter.recipient), from, WEEK)|
            == |Within(TimesTo(rows, letter.recipient), from, WEEK)| + 1
  {
    var ts := TimesTo(rows, letter.recipient);
    TimesAfterCreation(rows, letter, letter.recipient);
    WithinInit(ts + [letter.at], from, WEEK);
    assert (ts + [letter.at])[..|ts|] == ts;
  }

  lemma FourWithin(a: Invite, b: Invite, c: Invite, d: Invite, from: Time)
    requires a.recipient == b.recipient == c.recipient == d.recipient
    requires from <= a.at < from + WEEK && from <= b.at < from + WEEK && from <= c.at < from + WEEK && from <= d.at < from + WEEK
    ensures |Within(TimesTo([a] + [b] + [c] + [d], a.recipient), from, WEEK)| == 4
  {
    WithinAfterCreation([], a, from);
    assert [] + [a] == [a] && Within(TimesTo([], a.recipient), from, WEEK) == {};
    WithinAfterCreation([a], b, from);
    WithinAfterCreation([a] + [b], c, from);
    WithinAfterCreation([a] + [b] + [c], d, from);
  }

  /** Three letters, a week, and a clean-up that forgets all three. */
  lemma ForgottenRun(cleaned: Time, first: Time) returns (steps: seq<Step>)
    requires first + WEEK <= cleaned
    ensures InOrder(steps)
    ensures Run(steps) == State(cleaned, cleaned,
                                [Invite(1, 9, false, first)] + [Invite(2, 9, false, first)] + [Invite(3, 9, false, first)])
  {
    steps := ThreeLetters(first, first);
    ThreeLettersRun(first, first);
    RunSnoc(steps, Wait(cleaned));
    RunSnoc(steps + [Wait(cleaned)], Cleanup(cleaned));
    steps := steps + [Wait(cleaned)] + [Cleanup(cleaned)];
  }

  /** A letter stamped before that clean-up finds nobody known, and is the fourth of its week. */
  lemma OvertakenLetterIsFourth(cleaned: Time, at: Time)
    requires !NotOvertaken(cleaned, at)
    ensures !StampIsSafe(cleaned, at)
  {
    var first := if at < cleaned - WEEK then at else cleaned - WEEK;
    var steps := ForgottenRun(cleaned, first);
    var a, b, c, d := Invite(1, 9, false, first), Invite(2, 9, false, first), Invite(3, 9, false, first), Invite(4, 9, true, at);
    CountsOfThree(a, b, c, at);
    FourWithin(a, b, c, d, first);
    assert Next(Run(steps), Create(4, 9, at, at)).rows == [a] + [b] + [c] + [d];
  }

  /** A late stamp breaks the weekly limit in some run exactly when a clean-up that could forget has overtaken it. */
  lemma ThreePerWeekExactlyWhen(cleaned: Time, at: Time)
    ensures StampIsSafe(cleaned, at) <==> NotOvertaken(cleaned, at)
  {
    if NotOvertaken(cleaned, at) {
      forall steps, inviter, recipient, readAt, from | InOrder(steps) && Run(steps).cleaned == cleaned
        ensures |Within(TimesTo(Next(Run(steps), Create(inviter, recipient, readAt, at)).rows, recipient), from, WEEK)| <= 3
      {
        RunSnoc(steps, Create(inviter, recipient, readAt, at));
        ThreePerWeek(steps + [Create(inviter, recipient, readAt, at)], recipient, from);
      }
    } else {
      OvertakenLetterIsFourth(cleaned, at);
    }
  }

  // ----- forgetting and later decisions -----

  /** A clean-up moves no count per inviter, and makes the count per recipient go by the later of the two clocks. */
  lemma {:induction false} CountsAfterForgetting(rows: seq<Invite>, cleanedAt: Time, inviter: Id, recipient: Id, readAt: Time)
    ensures SentBy(Forget(rows, cleanedAt), inviter, readAt) == SentBy(rows, inviter, readAt)
    ensures SentTo(Forget(rows, cleanedAt), recipient, readAt) == SentTo(rows, recipient, Max(cleanedAt, readAt))
  {
    if |rows| > 0 {
      CountsAfterForgetting(rows[..|rows| - 1], cleanedAt, inviter, recipient, readAt);
      assert Forget(rows, cleanedAt)[..|rows| - 1] == Forget(rows[..|rows| - 1], cleanedAt);
    }
  }

  /** Exactly when a clean-up changes a decision; and then it turns a refusal into leave. */
  lemma ForgettingChangesDecisionExactlyWhen(rows: seq<Invite>, cleanedAt: Time, inviter: Id, recipient: Id, readAt: Time)
    ensures
      Allowed(Forget(rows, cleanedAt), inviter, recipient, readAt) != Allowed(rows, inviter, recipient, readAt)
      <==> && SentBy(rows, inviter, readAt) < PER_USER_PER_DAY
           && SentTo(rows, recipient, Max(cleanedAt, readAt)) < PER_RECIPIENT_PER_WEEK <= SentTo(rows, recipient, readAt)
    ensures Allowed(rows, inviter, recipient, readAt) ==> Allowed(Forget(rows, cleanedAt), inviter, recipient, readAt)
  {
    CountsAfterForgetting(rows, cleanedAt, inviter, recipient, readAt);
    EarlierCountsMore(rows, recipient, readAt, Max(cleanedAt, readAt));
  }

  /** So it never changes a decision whose clock was read at or after it. */
  lemma ForgettingKeepsDecisions(rows: seq<Invite>, cleanedAt: Time, inviter: Id, recipient: Id, readAt: Time)
    requires cleanedAt <= readAt
    ensures Allowed(Forget(rows, cleanedAt), inviter, recipient, readAt) == Allowed(rows, inviter, recipient, readAt)
  {
    ForgettingChangesDecisionExactlyWhen(rows, cleanedAt, inviter, recipient, readAt);
  }

  /** Two runs that differ in one clean-up: the fourth letter, counted by an older clock, is refused and sent. */
  lemma ForgettingCanOvertakeTheClock()
    ensures
      var weekOld, letter := ThreeLetters(0, 1) + [Wait(WEEK)], Create(4, 9, WEEK - 1, WEEK);
      && Run(weekOld + [letter]).rows == Run(weekOld).rows
      && |Run(weekOld + [Cleanup(WEEK)] + [letter]).rows| == |Run(weekOld).rows| + 1
  {
    var weekOld, letter := ThreeLetters(0, 1) + [Wait(WEEK)], Create(4, 9, WEEK - 1, WEEK);
    ThreeLettersRun(0, 1);
    RunSnoc(ThreeLetters(0, 1), Wait(WEEK));
    RunSnoc(weekOld, letter);
    RunSnoc(weekOld, Cleanup(WEEK));
    RunSnoc(weekOld + [Cleanup(WEEK)], letter);
    var rows := ThreeRows(0, 1);
    CountsOfThree(rows[0], rows[1], rows[2], WEEK - 1);
    CountsOfThree(rows[0], rows[1], rows[2], WEEK);
    ForgettingChangesDecisionExactlyWhen(rows, WEEK, 4, 9, WEEK - 1);
  }

  // ----- a letter is refused for no other reason -----

  /** The invitations of the inviter less than a day old at `readAt`. */
  function DayOf(rows: seq<Invite>, inviter: Id, readAt: Time): set<nat> {
    set i: nat | i < |rows| && rows[i].inviter == inviter && readAt < rows[i].at + 24 * 3_600_000
  }

  /** The invitations to the recipient, if not forgotten, less than a week old at `readAt`. */
  function WeekOf(rows: seq<Invite>, recipient: Id, readAt: Time): set<nat> {
    set i: nat | i < |rows| && rows[i].known && rows[i].recipient == recipient && readAt < rows[i].at + 7 * 24 * 3_600_000
  }

  lemma DayGrows(rows: seq<Invite>, inviter: Id, readAt: Time)
    requires |rows| > 0
    ensures
      var init, n := rows[..|rows| - 1], |rows| - 1;
      && n !in DayOf(init, inviter, readAt)
      && DayOf(rows, inviter, readAt)
         == DayOf(init, inviter, readAt) + if rows[n].inviter == inviter && readAt < rows[n].at + DAY then {n} else {}
  {
    assert forall i: nat | i < |rows| - 1 :: rows[i] == rows[..|rows| - 1][i];
  }

  lemma WeekGrows(rows: seq<Invite>, recipient: Id, readAt: Time)
    requires |rows| > 0
    ensures
      var init, n := rows[..|rows| - 1], |rows| - 1;
      && n !in WeekOf(init, recipient, readAt)
      && WeekOf(rows, recipient, readAt)
         == WeekOf(init, recipient, readAt)
            + if rows[n].known && rows[n].recipient == recipient && readAt < rows[n].at + WEEK then {n} else {}
  {
    assert forall i: nat | i < |rows| - 1 :: rows[i] == rows[..|rows| - 1][i];
  }

  lemma {:induction false} DayCounted(rows: seq<Invite>, inviter: Id, readAt: Time)
    ensures SentBy(rows, inviter, readAt) == |DayOf(rows, inviter, readAt)|
  {
    if |rows| > 0 {
      DayCounted(rows[..|rows| - 1], inviter, readAt);
      DayGrows(rows, inviter, readAt);
      hide DayOf;
    }
  }

  lemma {:induction false} WeekCounted(rows: seq<Invite>, recipient: Id, readAt: Time)
    ensures SentTo(rows, recipient, readAt) == |WeekOf(rows, recipient, readAt)|
  {
    if |rows| > 0 {
      WeekCounted(rows[..|rows| - 1], recipient, readAt);
      WeekGrows(rows, recipient, readAt);
      hide WeekOf;
    }
  }

  /** A letter goes out if and only if fewer than ten of the inviter's day and three of the recipient's week are there. */
  lemma AllowedExactlyWhen(rows: seq<Invite>, inviter: Id, recipient: Id, readAt: Time)
    ensures Allowed(rows, inviter, recipient, readAt)
            <==> |DayOf(rows, inviter, readAt)| < 10 && |WeekOf(rows, recipient, readAt)| < 3
  {
    DayCounted(rows, inviter, readAt);
    WeekCounted(rows, recipient, readAt);
  }

  /** A clean-up forgets exactly the recipients of letters that are a week old. */
  lemma ForgetsExactly(rows: seq<Invite>, now: Time, i: nat)
    requires i < |rows|
    ensures Forget(rows, now)[i].(known := rows[i].known) == rows[i]
    ensures Forget(rows, now)[i].known <==> rows[i].known && now < rows[i].at + 7 * 24 * 3_600_000
  {
  }

  // ----- the service -----

  class InviteTable {
    var clock: Time
    var rows: seq<Invite>
    ghost var cleaned: Time

    ghost function Here(): State
      reads this
    {
      State(clock, cleaned, rows)
    }

    ghost predicate Valid()
      reads this
    {
      DayLimited(Here())
    }

    constructor ()
      ensures Valid() && Here() == START
    {
      clock, rows, cleaned := 0, [], 0;
    }

    /** `createEmailWith`, from the locks to the insert. */
    method CreateEmail(inviter: Id, recipient: Id, readAt: Time, at: Time) returns (allowed: bool)
      requires Valid() && readAt <= at <= clock
      modifies this`rows
      ensures Valid()
      ensures allowed <==> |DayOf(old(rows), inviter, readAt)| < 10 && |WeekOf(old(rows), recipient, readAt)| < 3
      ensures rows == if allowed then old(rows) + [Invite(inviter, recipient, true, at)] else old(rows)
      ensures NotOvertaken(cleaned, at) && WeekLimited(old(Here())) ==> WeekLimited(Here())
    {
      AllowedExactlyWhen(rows, inviter, recipient, readAt);
      NextKeepsDay(Here(), Create(inviter, recipient, readAt, at));
      if NotOvertaken(cleaned, at) && WeekLimited(Here()) {
        NextKeepsWeek(Here(), Create(inviter, recipient, readAt, at));
      }
      var perUser := SentBy(rows, inviter, readAt);
      var perRecipient := SentTo(rows, recipient, readAt);
      if perUser >= PER_USER_PER_DAY || perRecipient >= PER_RECIPIENT_PER_WEEK {
        return false;
      }
      rows := rows + [Invite(inviter, recipient, true, at)];
      return true;
    }

    method CleanUp(readAt: Time)
      requires Valid() && readAt <= clock
      modifies this`rows, this`cleaned
      ensures Valid() && rows == Forget(old(rows), readAt) && cleaned == Max(old(cleaned), readAt)
      ensures WeekLimited(old(Here())) ==> WeekLimited(Here())
    {
      NextKeepsDay(Here(), Cleanup(readAt));
      if WeekLimited(Here()) {
        NextKeepsWeek(Here(), Cleanup(readAt));
      }
      rows := Forget(rows, readAt);
      cleaned := Max(cleaned, readAt);
    }
  }
}
