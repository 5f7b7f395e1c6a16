/**
 * The bounds on guessing and on sending, over all runs of one confirmation: wrong codes per link and per
 * issued code, and codes issued per link in any span of whole hours.
 */
module ProtocolLimits {
  import opened Wrappers
  import opened GuestProtocol
  import S = ProtocolSafety
  import opened Counting

  // ----- guesses -----

  function WrongCodes(acts: seq<Act>): nat {
    if |acts| == 0 then 0
    else WrongCodes(acts[..|acts| - 1]) + (if acts[|acts| - 1].WrongCode? then 1 else 0)
  }

  /** Wrong codes since the last link was issued. */
  function WrongSinceLink(acts: seq<Act>): nat {
    if |acts| == 0 then 0
    else match acts[|acts| - 1]
      case LinkIssued(_, _) => 0
      case WrongCode(_) => WrongSinceLink(acts[..|acts| - 1]) + 1
      case _ => WrongSinceLink(acts[..|acts| - 1])
  }

  /** Wrong codes since the last code was issued. */
  function WrongSinceCode(acts: seq<Act>): nat {
    if |acts| == 0 then 0
    else match acts[|acts| - 1]
      case CodeIssued(_, _, _, _) => 0
      case WrongCode(_) => WrongSinceCode(acts[..|acts| - 1]) + 1
      case _ => WrongSinceCode(acts[..|acts| - 1])
  }

  predicate GuessesCounted(row: Row, acts: seq<Act>) {
    && WrongSinceLink(acts) <= MAX_FAILED_TOTAL
    && WrongSinceCode(acts) <= MAX_ATTEMPTS
    && (row.linkToken.Some? ==> row.codeFailedTotal == WrongSinceLink(acts))
    && (row.codeHash.Some? ==> row.codeAttempts == WrongSinceCode(acts))
  }

  lemma StepCountsGuesses(row: Row, acts: seq<Act>, id: nat, req: Request, now: Time)
    requires S.ChecksHold(row) && S.CountersBounded(row)
    requires GuessesCounted(row, acts)
    ensures GuessesCounted(Step(row, id, req, now).0, acts + Trace(row, id, req, now))
  {
    var more := Trace(row, id, req, now);
    if more == [] {
      assert acts + more == acts;
    } else {
      assert (acts + more)[..|acts + more| - 1] == acts;
    }
  }

  lemma {:induction false} RunCountsGuesses(id: nat, reqs: seq<Timed>)
    ensures GuessesCounted(Run(id, reqs).row, Run(id, reqs).acts)
  {
    if |reqs| > 0 {
      var init := reqs[..|reqs| - 1];
      var last := reqs[|reqs| - 1];
      RunCountsGuesses(id, init);
      S.ChecksNeverFire(id, init);
      StepCountsGuesses(Run(id, init).row, Run(id, init).acts, id, last.req, last.at);
    }
  }

  /** The acts after `a`, up to the end, contain no more wrong codes than the last link has seen. */
  lemma {:induction false} TailWithinLink(acts: seq<Act>, a: nat)
    requires a <= |acts| && forall m | a <= m < |acts| :: !acts[m].LinkIssued?
    ensures WrongCodes(acts[a..]) <= WrongSinceLink(acts)
  {
    if a < |acts| {
      TailWithinLink(acts[..|acts| - 1], a);
      assert acts[a..][..|acts[a..]| - 1] == acts[..|acts| - 1][a..];
    }
  }

  lemma {:induction false} TailWithinCode(acts: seq<Act>, a: nat)
    requires a <= |acts| && forall m | a <= m < |acts| :: !acts[m].CodeIssued?
    ensures WrongCodes(acts[a..]) <= WrongSinceCode(acts)
  {
    if a < |acts| {
      TailWithinCode(acts[..|acts| - 1], a);
      assert acts[a..][..|acts[a..]| - 1] == acts[..|acts| - 1][a..];
    }
  }

  /** A prefix of the acts of a run belongs to a run too, up to acts that the same step recorded. */
  lemma {:induction false} PrefixCounted(id: nat, reqs: seq<Timed>, b: nat)
    requires b <= |Run(id, reqs).acts|
    ensures WrongSinceLink(Run(id, reqs).acts[..b]) <= 10
    ensures WrongSinceCode(Run(id, reqs).acts[..b]) <= 5
  {
    var acts := Run(id, reqs).acts;
    if b == |acts| {
      assert acts[..b] == acts;
      RunCountsGuesses(id, reqs);
    } else {
      var init := reqs[..|reqs| - 1];
      var last := reqs[|reqs| - 1];
      assert |Trace(Run(id, init).row, id, last.req, last.at)| <= 1;
      assert acts[..b] == Run(id, init).acts[..b];
      PrefixCounted(id, init, b);
    }
  }

  /** Whatever the calls, at most 10 wrong codes are ever compared under one link. */
  lemma WrongCodesPerLink(id: nat, reqs: seq<Timed>, a: nat, b: nat)
    requires a <= b <= |Run(id, reqs).acts|
    requires forall m | a <= m < b :: !Run(id, reqs).acts[m].LinkIssued?
    ensures WrongCodes(Run(id, reqs).acts[a..b]) <= 10
  {
    var acts := Run(id, reqs).acts;
    PrefixCounted(id, reqs, b);
    TailWithinLink(acts[..b], a);
    assert acts[..b][a..] == acts[a..b];
  }

  /** And at most 5 for one issued code. */
  lemma WrongCodesPerCode(id: nat, reqs: seq<Timed>, a: nat, b: nat)
    requires a <= b <= |Run(id, reqs).acts|
    requires forall m | a <= m < b :: !Run(id, reqs).acts[m].CodeIssued?
    ensures WrongCodes(Run(id, reqs).acts[a..b]) <= 5
  {
    var acts := Run(id, reqs).acts;
    PrefixCounted(id, reqs, b);
    TailWithinCode(acts[..b], a);
    assert acts[..b][a..] == acts[a..b];
  }

  // ----- sends -----

  /** The issue times of the codes of the current link, oldest first. */
  function Sends(acts: seq<Act>): seq<Time> {
    if |acts| == 0 then []
    else match acts[|acts| - 1]
      case LinkIssued(_, _) => []
      case CodeIssued(_, _, _, at) => Sends(acts[..|acts| - 1]) + [at]
      case _ => Sends(acts[..|acts| - 1])
  }

  /** For each send the start of the window it was counted in: a window opens at the first send after it. */
  function Starts(ts: seq<Time>): (r: seq<Time>)
    ensures |r| == |ts|
  {
    if |ts| == 0 then []
    else
      var before := Starts(ts[..|ts| - 1]);
      var t := ts[|ts| - 1];
      before + [if |before| > 0 && t - before[|before| - 1] < SEND_WINDOW then before[|before| - 1] else t]
  }

  lemma {:induction false} StartsOfPrefix(ts: seq<Time>, k: nat)
    requires k <= |ts|
    ensures Starts(ts)[..k] == Starts(ts[..k])
  {
    if k < |ts| {
      StartsOfPrefix(ts[..|ts| - 1], k);
      assert ts[..|ts| - 1][..k] == ts[..k];
    } else {
      assert ts[..k] == ts;
    }
  }

  /** Each send lies in its window, and a new window starts at a send, at least an hour after the last. */
  lemma StartsStep(ts: seq<Time>, i: nat)
    requires Sorted(ts) && i < |ts|
    ensures Starts(ts)[i] <= ts[i]
    ensures i == 0 ==> Starts(ts)[0] == ts[0]
    ensures i == 0 || Starts(ts)[i] == Starts(ts)[i - 1]
         || (Starts(ts)[i] == ts[i] && ts[i] >= Starts(ts)[i - 1] + SEND_WINDOW)
    decreases i
  {
    StartsOfPrefix(ts, i + 1);
    StartsOfPrefix(ts[..i + 1], i);
    assert ts[..i + 1][..i] == ts[..i];
    if i > 0 {
      StartsStep(ts, i - 1);
      StartsOfPrefix(ts, i);
    }
  }

  lemma {:induction false} StartsGrow(ts: seq<Time>, i: nat, j: nat)
    requires Sorted(ts) && i <= j < |ts|
    ensures Starts(ts)[i] == Starts(ts)[j] || (ts[i] <= Starts(ts)[j] && Starts(ts)[i] + SEND_WINDOW <= Starts(ts)[j])
    decreases j
  {
    if i < j {
      StartsGrow(ts, i, j - 1);
      StartsStep(ts, j);
      assert ts[i] <= ts[j];
    }
  }

  predicate FewAlike(starts: seq<Time>) {
    forall i, j | 0 <= i && j == i + 5 < |starts| :: starts[i] != starts[j]
  }

  /** No window holds more than five sends. */
  predicate FewPerWindow(ts: seq<Time>) {
    FewAlike(Starts(ts))
  }

  /** What the counter columns say about the windows of the current link. */
  predicate WindowRecorded(row: Row, ts: seq<Time>) {
    var s := Starts(ts);
    var n := |ts|;
    var c := row.codeSentCount;
    && c <= n
    && (n > 0 ==> 0 < c && row.codeWindowStartedAt == Some(s[n - 1]))
    && (forall m | n - c <= m < n :: s[m] == s[n - 1])
    && (c < n ==> s[n - c - 1] != s[n - 1])
  }

  ghost predicate SendsCounted(h: History, now: Time) {
    var ts := Sends(h.acts);
    && Sorted(ts) && FewPerWindow(ts)
    && (forall i | 0 <= i < |ts| :: ts[i] <= now)
    && (h.row.linkToken.Some? ==> WindowRecorded(h.row, ts))
  }

  lemma SendCounted(row: Row, ts: seq<Time>, now: Time, next: Row)
    requires S.CountersBounded(row)
    requires Sorted(ts) && FewPerWindow(ts) && forall i | 0 <= i < |ts| :: ts[i] <= now
    requires WindowRecorded(row, ts)
    requires WindowOpen(row, now) ==> row.codeSentCount < MAX_SENDS
    requires next.codeSentCount == (if WindowOpen(row, now) then row.codeSentCount else 0) + 1
    requires next.codeWindowStartedAt == if WindowOpen(row, now) then row.codeWindowStartedAt else Some(now)
    ensures Sorted(ts + [now]) && FewPerWindow(ts + [now]) && WindowRecorded(next, ts + [now])
  {
    hide Starts, S.CountersBounded;
    StartsAppend(ts, now);
    if |ts| > 0 {
      StartsStep(ts, |ts| - 1);
    }
    SendRecorded(row, ts, now, next);
    if |ts| >= 5 {
      SixthOpensWindow(row, ts, now);
    }
    FewStays(Starts(ts), StartOfNext(ts, now));
    SentLater(ts, now);
  }

  lemma SentLater(ts: seq<Time>, now: Time)
    requires Sorted(ts) && forall i | 0 <= i < |ts| :: ts[i] <= now
    ensures Sorted(ts + [now])
  {
  }

  /** The window of one more send: the one still open, or one that it opens. */
  function StartOfNext(ts: seq<Time>, now: Time): Time {
    var s := Starts(ts);
    if |ts| > 0 && now - s[|ts| - 1] < SEND_WINDOW then s[|ts| - 1] else now
  }

  lemma StartsAppend(ts: seq<Time>, now: Time)
    ensures Starts(ts + [now]) == Starts(ts) + [StartOfNext(ts, now)]
  {
    assert (ts + [now])[..|ts|] == ts;
  }

  lemma SendRecorded(row: Row, ts: seq<Time>, now: Time, next: Row)
    requires WindowRecorded(row, ts) && Starts(ts + [now]) == Starts(ts) + [StartOfNext(ts, now)]
    requires |ts| > 0 ==> Starts(ts)[|ts| - 1] <= ts[|ts| - 1] <= now
    requires next.codeSentCount == (if WindowOpen(row, now) then row.codeSentCount else 0) + 1
    requires next.codeWindowStartedAt == if WindowOpen(row, now) then row.codeWindowStartedAt else Some(now)
    requires S.CountersBounded(row)
    ensures WindowRecorded(next, ts + [now])
  {
    var s, more := Starts(ts), Starts(ts + [now]);
    hide Starts;
    assert |more| == |s| + 1 && more[..|s|] == s && more[|s|] == StartOfNext(ts, now);
    if WindowOpen(row, now) {
      assert |ts| > 0 && StartOfNext(ts, now) == s[|ts| - 1];
    } else {
      assert StartOfNext(ts, now) == now;
    }
  }

  /** A window holds at most five: the fifth before the next one lies in an earlier window. */
  lemma SixthOpensWindow(row: Row, ts: seq<Time>, now: Time)
    requires Sorted(ts) && WindowRecorded(row, ts) && S.CountersBounded(row)
    requires WindowOpen(row, now) ==> row.codeSentCount < MAX_SENDS
    requires |ts| >= 5 && ts[|ts| - 1] <= now
    ensures StartOfNext(ts, now) != Starts(ts)[|ts| - 5]
  {
    hide Starts;
    var n, c := |ts|, row.codeSentCount;
    StartsStep(ts, n - 1);
    if WindowOpen(row, now) {
      StartsGrow(ts, n - 5, n - c - 1);
      StartsGrow(ts, n - c - 1, n - 1);
    } else {
      StartsGrow(ts, n - 5, n - 1);
    }
  }

  lemma FewStays(starts: seq<Time>, next: Time)
    requires FewAlike(starts) && (|starts| >= 5 ==> next != starts[|starts| - 5])
    ensures FewAlike(starts + [next])
  {
  }

  /** How one step moves the send counters: an issued code adds one, a fresh link resets, nothing else counts. */
  lemma StepMovesCounters(row: Row, id: nat, req: Request, now: Time)
    ensures
      var next := Step(row, id, req, now).0;
      var more := Trace(row, id, req, now);
      && (more == [] ==> next == row)
      && (|more| == 1 && more[0].CodeIssued? ==>
            && row.linkToken.Some? && more[0].at == now
            && (WindowOpen(row, now) ==> row.codeSentCount < MAX_SENDS)
            && next.codeSentCount == (if WindowOpen(row, now) then row.codeSentCount else 0) + 1
            && next.codeWindowStartedAt == (if WindowOpen(row, now) then row.codeWindowStartedAt else Some(now)))
      && (|more| == 1 && more[0].LinkIssued? ==> next.codeSentCount == 0)
      && (|more| == 1 && !more[0].CodeIssued? && !more[0].LinkIssued? && next.linkToken.Some? ==>
            && row.linkToken.Some?
            && next.codeSentCount == row.codeSentCount && next.codeWindowStartedAt == row.codeWindowStartedAt)
      && |more| <= 1
  {
  }

  lemma StepCountsSends(h: History, id: nat, req: Request, before: Time, now: Time)
    requires S.ChecksHold(h.row) && S.CountersBounded(h.row)
    requires before <= now && SendsCounted(h, before)
    ensures SendsCounted(History(Step(h.row, id, req, now).0, h.acts + Trace(h.row, id, req, now)), now)
  {
    StepMovesCounters(h.row, id, req, now);
    ExtendSends(h, Step(h.row, id, req, now).0, Trace(h.row, id, req, now), before, now);
  }

  lemma SameCounters(row: Row, next: Row, ts: seq<Time>)
    requires WindowRecorded(row, ts)
    requires next.codeSentCount == row.codeSentCount && next.codeWindowStartedAt == row.codeWindowStartedAt
    ensures WindowRecorded(next, ts)
  {
  }

  lemma NoSendsYet(next: Row)
    requires next.codeSentCount == 0
    ensures Sorted([]) && FewPerWindow([]) && WindowRecorded(next, [])
  {
  }

  lemma ExtendSends(h: History, next: Row, more: seq<Act>, before: Time, now: Time)
    requires S.CountersBounded(h.row)
    requires before <= now && SendsCounted(h, before)
    requires |more| <= 1
    requires more == [] ==> next == h.row
    requires |more| == 1 && more[0].CodeIssued? ==>
               && h.row.linkToken.Some? && more[0].at == now
               && (WindowOpen(h.row, now) ==> h.row.codeSentCount < MAX_SENDS)
               && next.codeSentCount == (if WindowOpen(h.row, now) then h.row.codeSentCount else 0) + 1
               && next.codeWindowStartedAt == (if WindowOpen(h.row, now) then h.row.codeWindowStartedAt else Some(now))
    requires |more| == 1 && more[0].LinkIssued? ==> next.codeSentCount == 0
    requires |more| == 1 && !more[0].CodeIssued? && !more[0].LinkIssued? && next.linkToken.Some? ==>
               && h.row.linkToken.Some?
               && next.codeSentCount == h.row.codeSentCount && next.codeWindowStartedAt == h.row.codeWindowStartedAt
    ensures SendsCounted(History(next, h.acts + more), now)
  {
    hide Sorted, FewPerWindow, WindowRecorded, Starts, S.CountersBounded;
    var ts := Sends(h.acts);
    if more == [] {
      assert h.acts + more == h.acts;
    } else {
      assert (h.acts + more)[..|h.acts + more| - 1] == h.acts;
      if more[0].CodeIssued? {
        SendCounted(h.row, ts, now, next);
      } else if more[0].LinkIssued? {
        NoSendsYet(next);
      } else if next.linkToken.Some? {
        SameCounters(h.row, next, ts);
      }
    }
  }

  lemma {:induction false} RunCountsSends(id: nat, reqs: seq<Timed>)
    requires ClockMonotone(reqs)
    ensures SendsCounted(Run(id, reqs), if |reqs| == 0 then 0 else reqs[|reqs| - 1].at)
  {
    if |reqs| > 0 {
      var init := reqs[..|reqs| - 1];
      var last := reqs[|reqs| - 1];
      RunCountsSends(id, init);
      S.ChecksNeverFire(id, init);
      StepCountsSends(Run(id, init), id, last.req, if |init| == 0 then 0 else init[|init| - 1].at, last.at);
    }
  }

  /** After five further sends at least one more window has opened, an hour later. */
  lemma {:induction false} FiveSendsFurther(ts: seq<Time>, i: nat, m: nat)
    requires Sorted(ts) && FewPerWindow(ts) && i + 5 * m < |ts|
    ensures Starts(ts)[i] + m * SEND_WINDOW <= Starts(ts)[i + 5 * m]
    decreases m
  {
    if m > 0 {
      FiveSendsFurther(ts, i, m - 1);
      StartsGrow(ts, i + 5 * (m - 1), i + 5 * m);
      assert m * SEND_WINDOW == (m - 1) * SEND_WINDOW + SEND_WINDOW;
    }
  }

  /** Five sends in a row span two windows, so the fifth of them counts in a window no older than the first. */
  lemma FourthNextIsLater(ts: seq<Time>, i: nat)
    requires Sorted(ts) && FewPerWindow(ts) && i + 4 < |ts|
    ensures ts[i] <= Starts(ts)[i + 4]
  {
    hide Starts, Sorted;
    var starts := Starts(ts);
    StartsStep(ts, i);
    StartsGrow(ts, i, i + 4);
    assert i > 0 ==> starts[i - 1] != starts[i + 4];
  }

  predicate InSpan(t: Time, from: Time, hours: nat) {
    from <= t < from + hours * HOUR
  }

  lemma SpanIsShort(ts: seq<Time>, from: Time, hours: nat, i: nat, j: nat)
    requires Sorted(ts) && FewPerWindow(ts) && i <= j < |ts|
    requires InSpan(ts[i], from, hours) && InSpan(ts[j], from, hours)
    ensures j - i + 1 <= 5 * hours + 4
  {
    var k := i + 4 + 5 * hours;
    if k <= j {
      assert ts[k] <= ts[j];
      FourthNextIsLater(ts, i);
      StartsStep(ts, k);
      FiveSendsFurther(ts, i + 4, hours);
    }
  }

  function SpanIndices(ts: seq<Time>, from: Time, hours: nat): set<nat> {
    set i: nat | i < |ts| && InSpan(ts[i], from, hours)
  }

  lemma SpanCount(ts: seq<Time>, from: Time, hours: nat)
    requires Sorted(ts) && FewPerWindow(ts)
    ensures |SpanIndices(ts, from, hours)| <= 5 * hours + 4
  {
    var s := SpanIndices(ts, from, hours);
    if s != {} {
      var lo := Least(s);
      forall x | x in s
        ensures lo <= x < lo + (5 * hours + 4)
      {
        SpanIsShort(ts, from, hours, lo, x);
      }
      RangeSize(s, lo, 5 * hours + 4);
    }
  }

  /**
   * For every run under a clock that never goes back, every start and every number of hours, the codes
   * issued under the current link in that half-open span number at most 5 an hour plus 4.
   */
  lemma CodesPerSpan(id: nat, reqs: seq<Timed>, from: Time, hours: nat)
    requires ClockMonotone(reqs)
    ensures |SpanIndices(Sends(Run(id, reqs).acts), from, hours)| <= 5 * hours + 4
  {
    RunCountsSends(id, reqs);
    SpanCount(Sends(Run(id, reqs).acts), from, hours);
  }

  // ----- the bound is met -----

  function Ask(at: Time, nonce: Secret): Timed {
    Timed(at, AskCode(7, "g@x", "G", "123456", nonce))
  }

  /** When request `i` of the burst comes: the link and one code at once, four codes an hour later, then five. */
  function BurstTime(i: nat): Time {
    if i <= 1 then 0 else if i <= 5 then HOUR - 1 else HOUR
  }

  function Burst(k: nat): seq<Timed> {
    if k == 0 then []
    else Burst(k - 1) + [if k == 1 then Timed(0, IssueLink(7)) else Ask(BurstTime(k - 1), k - 1)]
  }

  /** What matters about one more code under the standing link of `BURST`. */
  lemma AskAgain(h: History, at: Time, nonce: Secret)
    requires h.row.status == Open && h.row.linkToken == Some(7) && h.row.linkExpiresAt == Some(LINK_TTL)
    requires h.row.codeFailedTotal == 0 && at < LINK_TTL
    requires WindowOpen(h.row, at) ==> h.row.codeSentCount < MAX_SENDS
    ensures
      var t := Ask(at, nonce);
      var next := Step(h.row, 1, t.req, at).0;
      && next.status == Open && next.linkToken == Some(7) && next.linkExpiresAt == Some(LINK_TTL)
      && next.codeFailedTotal == 0
      && next.codeSentCount == (if WindowOpen(h.row, at) then h.row.codeSentCount else 0) + 1
      && next.codeWindowStartedAt == (if WindowOpen(h.row, at) then h.row.codeWindowStartedAt else Some(at))
      && Sends(h.acts + Trace(h.row, 1, t.req, at)) == Sends(h.acts) + [at]
  {
    var more := Trace(h.row, 1, Ask(at, nonce).req, at);
    assert |more| == 1 && more[0].CodeIssued? && more[0].at == at;
    assert (h.acts + more)[..|h.acts + more| - 1] == h.acts;
  }

  lemma {:induction false} BurstSends(k: nat)
    requires 1 <= k <= 11
    ensures
      var h := Run(1, Burst(k));
      && h.row.status == Open && h.row.linkToken == Some(7) && h.row.linkExpiresAt == Some(LINK_TTL)
      && h.row.codeFailedTotal == 0
      && h.row.codeSentCount == (if k <= 6 then k - 1 else k - 6)
      && h.row.codeWindowStartedAt == (if k == 1 then None else if k <= 6 then Some(0) else Some(HOUR))
      && |Sends(h.acts)| == k - 1
      && forall i | 0 <= i < k - 1 :: Sends(h.acts)[i] == BurstTime(i + 1)
  {
    var reqs := Burst(k);
    assert reqs[..|reqs| - 1] == Burst(k - 1);
    var h := Run(1, Burst(k - 1));
    if k == 1 {
      assert h == History(NEW_ROW, []);
      assert Run(1, reqs).acts == [] + [LinkIssued(7, 0)];
      assert Run(1, reqs).acts[..0] == [];
    } else {
      BurstSends(k - 1);
      AskAgain(h, BurstTime(k - 1), k - 1);
    }
  }

  lemma {:induction false} BurstTimes(k: nat)
    ensures |Burst(k)| == k
    ensures forall i | 0 <= i < k :: Burst(k)[i].at == BurstTime(i)
  {
    if k > 0 {
      BurstTimes(k - 1);
    }
  }

  lemma BurstSpan(ts: seq<Time>)
    requires |ts| == 10 && forall i | 0 <= i < 10 :: ts[i] == BurstTime(i + 1)
    ensures |SpanIndices(ts, HOUR - 1, 1)| == 9
  {
    var s := SpanIndices(ts, HOUR - 1, 1);
    assert forall i: nat :: i in s <==> 1 <= i < 10;
    RangeSize(s, 1, 9);
  }

  /** Nine codes do go out within one hour, so the bound of `CodesPerSpan` is the best one for an hour. */
  lemma NineInOneHour()
    ensures ClockMonotone(Burst(11))
    ensures |SpanIndices(Sends(Run(1, Burst(11)).acts), HOUR - 1, 1)| == 9
  {
    hide Run, Burst, Sends, SpanIndices;
    BurstSends(11);
    BurstTimes(11);
    BurstSpan(Sends(Run(1, Burst(11)).acts));
  }
}
