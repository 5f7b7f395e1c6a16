/**
 * Until when a contact is kept, told by the columns of its loans and the entries of the log alone, in every run.
 */
module GuestDates {
  import opened Wrappers
  import opened GuestModel
  import opened GuestInvariant
  import opened GuestRuns

  // ----- one loan -----

  /** Entry `i` of the log is about loan `l` and of one of these kinds. */
  predicate IsEntry(log: seq<Event>, i: nat, l: Id, kinds: set<EventKind>) {
    i < |log| && log[i].loan == l && log[i].kind in kinds
  }

  /** `t` is the earliest time any such entry carries. */
  ghost predicate IsFirstTime(log: seq<Event>, l: Id, kinds: set<EventKind>, t: Time) {
    && (exists i: nat :: IsEntry(log, i, l, kinds) && log[i].at == t)
    && forall i: nat | IsEntry(log, i, l, kinds) :: t <= log[i].at
  }

  ghost predicate HasEntry(log: seq<Event>, l: Id, kinds: set<EventKind>) {
    exists i: nat :: IsEntry(log, i, l, kinds)
  }

  /**
   * A finished loan keeps its contact until `t`: 90 days after the return, after the earliest settlement of a loss and
   * after the cancellation, but 365 days after a loss that nobody has settled.
   */
  ghost predicate KeepsUntil(w: World, l: Id, t: Time)
    requires l in w.loans
  {
    var loan := w.loans[l];
    match loan.status
    case Returned => loan.returnedAt.Some? && t == loan.returnedAt.value + 90 * 24 * 3_600_000
    case Lost =>
      if HasEntry(w.log, l, {Recovered, LossClosed})
      then t >= 90 * 24 * 3_600_000 && IsFirstTime(w.log, l, {Recovered, LossClosed}, t - 90 * 24 * 3_600_000)
      else t >= 365 * 24 * 3_600_000 && IsFirstTime(w.log, l, {LoanLost}, t - 365 * 24 * 3_600_000)
    case Cancelled =>
      t >= 90 * 24 * 3_600_000 && IsFirstTime(w.log, l, {HandoverCancelled}, t - 90 * 24 * 3_600_000)
    case _ => false
  }

  /** The times found in the log are exactly those of its entries. */
  lemma {:induction false} TimesAreEntries(log: seq<Event>, l: Id, kinds: set<EventKind>, t: Time)
    ensures t in TimesOf(log, l, kinds) <==> exists i: nat :: IsEntry(log, i, l, kinds) && log[i].at == t
  {
    if |log| > 0 {
      var init, n := log[..|log| - 1], |log| - 1;
      TimesAreEntries(init, l, kinds, t);
      if t in TimesOf(init, l, kinds) {
        var i: nat :| IsEntry(init, i, l, kinds) && init[i].at == t;
        assert IsEntry(log, i, l, kinds) && log[i].at == t;
      } else if t in TimesOf(log, l, kinds) {
        assert IsEntry(log, n, l, kinds) && log[n].at == t;
      }
      if i: nat :| IsEntry(log, i, l, kinds) && log[i].at == t {
        if i < n {
          assert IsEntry(init, i, l, kinds) && init[i].at == t;
        }
      }
    }
  }

  lemma NoTimesNoEntry(log: seq<Event>, l: Id, kinds: set<EventKind>)
    ensures TimesOf(log, l, kinds) == [] <==> !HasEntry(log, l, kinds)
  {
    var times := TimesOf(log, l, kinds);
    if times != [] {
      TimesAreEntries(log, l, kinds, times[0]);
    }
    if i: nat :| IsEntry(log, i, l, kinds) {
      TimesAreEntries(log, l, kinds, log[i].at);
    }
  }

  lemma EarliestIsFirst(log: seq<Event>, l: Id, kinds: set<EventKind>, t: Time)
    requires TimesOf(log, l, kinds) != []
    ensures IsFirstTime(log, l, kinds, t) <==> t == Earliest(TimesOf(log, l, kinds))
  {
    var times := TimesOf(log, l, kinds);
    var first := Earliest(times);
    hide TimesOf, Earliest;
    EarliestIsMinimum(times);
    TimesAreEntries(log, l, kinds, first);
    forall i: nat | IsEntry(log, i, l, kinds)
      ensures first <= log[i].at
    {
      TimesAreEntries(log, l, kinds, log[i].at);
      var k :| 0 <= k < |times| && times[k] == log[i].at;
    }
  }

  lemma EventsOfFinished(w: World, l: Id)
    requires l in w.loans && w.loans[l].borrower.Guest? && LoanOk(w, l)
    ensures w.loans[l].status == Lost ==> |TimesOf(w.log, l, {LoanLost})| == 1
    ensures w.loans[l].status == Cancelled ==> |TimesOf(w.log, l, {HandoverCancelled})| == 1
    ensures !Exclusive(w.loans[l].status) ==>
              w.loans[l].status == Returned || w.loans[l].status == Lost || w.loans[l].status == Cancelled
    ensures w.loans[l].returnedAt.Some? <==> w.loans[l].status == Returned
  {
    StoryHasItsEvents(w.log, l);
    hide TimesOf, HasEvent, Replay;
  }

  lemma LossInColumns(w: World, l: Id, t: Time)
    requires l in w.loans && w.loans[l].status == Lost && |TimesOf(w.log, l, {LoanLost})| == 1
    ensures CandidateFor(w.loans[l], l, w.log) == Success(t) <==> KeepsUntil(w, l, t)
  {
    var losses := TimesOf(w.log, l, {LoanLost});
    NoTimesNoEntry(w.log, l, {Recovered, LossClosed});
    assert Earliest(losses) == losses[0];
    hide TimesOf, IsFirstTime, HasEntry, Earliest;
    if t >= 365 * 24 * 3_600_000 {
      EarliestIsFirst(w.log, l, {LoanLost}, t - 365 * 24 * 3_600_000);
    }
    if HasEntry(w.log, l, {Recovered, LossClosed}) && t >= 90 * 24 * 3_600_000 {
      EarliestIsFirst(w.log, l, {Recovered, LossClosed}, t - 90 * 24 * 3_600_000);
    }
  }

  /** On good rows that is what `candidateFor` computes for a finished guest loan. */
  lemma CandidateInColumns(w: World, l: Id, t: Time)
    requires l in w.loans && w.loans[l].borrower.Guest? && LoanOk(w, l) && !Exclusive(w.loans[l].status)
    ensures CandidateFor(w.loans[l], l, w.log) == Success(t) <==> KeepsUntil(w, l, t)
  {
    hide TimesOf, HasEvent, Replay, LoanOk, IsFirstTime, HasEntry, Earliest;
    EventsOfFinished(w, l);
    if w.loans[l].status == Lost {
      LossInColumns(w, l, t);
    } else if w.loans[l].status == Cancelled && t >= 90 * 24 * 3_600_000 {
      EarliestIsFirst(w.log, l, {HandoverCancelled}, t - 90 * 24 * 3_600_000);
    }
  }

  /** The rows that `candidateFor` throws on, and what it throws. */
  lemma IntegrityErrors(w: World, l: Id)
    requires l in w.loans
    ensures
      var loan, candidate := w.loans[l], CandidateFor(w.loans[l], l, w.log);
      && (candidate == Failure(ReturnedWithoutTime) <==> loan.status == Returned && loan.returnedAt.None?)
      && (candidate == Failure(LostWithoutEvent) <==>
            loan.status == Lost && !HasEntry(w.log, l, {Recovered, LossClosed}) && !HasEntry(w.log, l, {LoanLost}))
      && (candidate == Failure(CancelledWithoutEvent) <==>
            loan.status == Cancelled && !HasEntry(w.log, l, {HandoverCancelled}))
      && (candidate == Failure(UnexpectedStatus) <==> loan.status !in {Returned, Lost, Cancelled})
  {
    NoTimesNoEntry(w.log, l, {Recovered, LossClosed});
    NoTimesNoEntry(w.log, l, {LoanLost});
    NoTimesNoEntry(w.log, l, {HandoverCancelled});
    hide TimesOf, HasEntry, Earliest;
  }

  // ----- one contact -----

  /** The loan occupies a copy: approved, pending or handed over. */
  predicate Occupies(status: LoanStatus) {
    status == Approved || status == PendingConfirmation || status == HandedOver
  }

  predicate IsLoanOf(w: World, l: Id, c: Id) {
    l in w.loans && w.loans[l].borrower == Guest(Some(c))
  }

  /**
   * The date of a contact: 90 days from its creation while it has no loan, none while a loan occupies a copy, and
   * otherwise the latest date any of its loans keeps it until.
   */
  ghost predicate DateInColumns(w: World, c: Id, r: Option<Time>)
    requires c in w.contacts
  {
    if forall l :: !IsLoanOf(w, l, c) then r == Some(w.contacts[c].createdAt + 90 * 24 * 3_600_000)
    else if exists l :: IsLoanOf(w, l, c) && Occupies(w.loans[l].status) then r.None?
    else
      && r.Some?
      && (exists l :: IsLoanOf(w, l, c) && KeepsUntil(w, l, r.value))
      && forall l | IsLoanOf(w, l, c) :: exists t: Time :: KeepsUntil(w, l, t) && t <= r.value
  }

  lemma AsksInColumns(w: World, l: Id, t: Time)
    requires l in w.loans && w.loans[l].borrower.Guest? && LoanOk(w, l) && !Exclusive(w.loans[l].status)
    ensures Asks(w, l, t) <==> exists u: Time :: KeepsUntil(w, l, u) && u <= t
  {
    hide KeepsUntil, LoanOk, Exclusive;
    var candidate := CandidateFor(w.loans[l], l, w.log);
    hide CandidateFor;
    if candidate.Success? {
      CandidateInColumns(w, l, candidate.value);
    }
    if u: Time :| KeepsUntil(w, l, u) && u <= t {
      CandidateInColumns(w, l, u);
    }
  }

  lemma FinishedInColumns(w: World, c: Id, t: Time)
    requires LoansOk(w) && c in w.contacts && ContactLoans(w, c) != {} && !HasActiveLoan(w, c)
    ensures IsRetention(w, c, Some(t)) <==>
              && (exists l :: IsLoanOf(w, l, c) && KeepsUntil(w, l, t))
              && forall l | IsLoanOf(w, l, c) :: exists u: Time :: KeepsUntil(w, l, u) && u <= t
  {
    hide KeepsUntil, LoanOk, Asks, CandidateFor;
    forall l | IsLoanOf(w, l, c)
      ensures l in ContactLoans(w, c) && (Asks(w, l, t) <==> exists u: Time :: KeepsUntil(w, l, u) && u <= t)
      ensures CandidateFor(w.loans[l], l, w.log) == Success(t) <==> KeepsUntil(w, l, t)
    {
      assert LoanOk(w, l);
      AsksInColumns(w, l, t);
      CandidateInColumns(w, l, t);
    }
    assert forall l | l in ContactLoans(w, c) :: IsLoanOf(w, l, c);
  }

  /** On good rows the rules give exactly the date told by the columns. */
  lemma RetentionInColumns(w: World, c: Id, r: Option<Time>)
    requires LoansOk(w) && c in w.contacts
    ensures IsRetention(w, c, r) <==> DateInColumns(w, c, r)
  {
    hide KeepsUntil, LoansOk;
    assert forall l :: IsLoanOf(w, l, c) <==> l in ContactLoans(w, c);
    if r.Some? && ContactLoans(w, c) != {} && !HasActiveLoan(w, c) {
      FinishedInColumns(w, c, r.value);
    }
    hide CandidateFor, Asks;
  }

  /**
   * In every run the stored date of a contact is the one its columns and the log tell: the windows are 90 days, and 365
   * days for a loss that nobody has settled.
   */
  lemma StoredDateInColumns(steps: seq<Step>, c: Id, r: Option<Time>)
    requires c in Run(steps).contacts
    ensures Run(steps).contacts[c].retainUntil == r <==> DateInColumns(Run(steps), c, r)
  {
    hide IsRetention, DateInColumns, LoansOk, Run;
    RunKeepsInv(steps);
    CacheAlwaysExact(steps, c, r);
    RetentionInColumns(Run(steps), c, r);
  }
}
