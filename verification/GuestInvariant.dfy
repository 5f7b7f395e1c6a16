/**
 * What holds of the tables in every reachable state, and the lemmas about single loans, copies and
 * contacts from which the preservation proofs are built.
 */
module GuestInvariant {
  import opened Wrappers
  import opened GuestModel
  import P = GuestProtocol
  import S = ProtocolSafety

  // ----- the invariant -----

  predicate RegisteredOk(w: World, l: Id, user: Id)
    requires l in w.loans
  {
    var n := w.loans[l];
    && l !in w.confs
    && Replay(w.log, l) == Untold
    && (n.status == Requested || n.status == Rejected)
    && (n.status == Rejected <==> n.respondedAt.Some?)
    && (n.status == Rejected <==> Notice(user, l, n.copy, n.owner) in w.notices)
  }

  predicate GuestOk(w: World, l: Id, contact: Option<Id>)
    requires l in w.loans
  {
    var n := w.loans[l];
    && (contact.Some? ==> contact.value in w.contacts && w.contacts[contact.value].owner == n.owner)
    && (l in w.confs ==> w.confs[l].contact == contact)
    && Replay(w.log, l) == At(FactsOf(w, l))
    && (Exclusive(n.status) ==> contact.Some?)
    && n.handedAt.Some?
    && (n.returnedAt.Some? <==> n.status == Returned)
    && (n.returnedAt.Some? ==> n.returnedAt.value <= w.clock)
  }

  predicate LoanOk(w: World, l: Id)
    requires l in w.loans
  {
    var n := w.loans[l];
    && n.copy in w.copies
    && n.owner == w.copies[n.copy].owner
    && match n.borrower
       case Registered(user) => RegisteredOk(w, l, user)
       case Guest(contact) => GuestOk(w, l, contact)
  }

  /** The loan that holds a copy away from home, and what the copy then says. */
  predicate HeldBy(w: World, c: Id, l: Id)
    requires c in w.copies
  {
    Outstanding(w, l) && w.loans[l].copy == c
  }

  predicate MatchesLoan(copy: Copy, loan: Loan) {
    && loan.borrower.Guest?
    && copy.holder.None?
    && copy.contact == loan.borrower.contact
    && copy.status == AwayStatus(loan.status)
  }

  ghost predicate CopyOk(w: World, c: Id)
    requires c in w.copies
  {
    && (forall l | l in w.loans && HeldBy(w, c, l) :: MatchesLoan(w.copies[c], w.loans[l]))
    && (forall l, m | l in w.loans && m in w.loans && HeldBy(w, c, l) && HeldBy(w, c, m) :: l == m)
    && ((forall l | l in w.loans :: !HeldBy(w, c, l)) ==>
          Home(w.copies[c]) && (w.copies[c].status == Available || w.copies[c].status == Unavailable))
  }

  predicate ConfOk(w: World, l: Id)
    requires l in w.confs
  {
    l in w.loans && w.loans[l].borrower.Guest? && S.ChecksHold(w.confs[l].row) && S.CountersBounded(w.confs[l].row)
  }

  predicate LogOk(w: World) {
    forall i | 0 <= i < |w.log| :: w.log[i].loan in w.loans && w.log[i].at <= w.clock
  }

  predicate NoticeOk(w: World, n: Notice) {
    && n.loan in w.loans
    && w.loans[n.loan].borrower == Registered(n.user)
    && w.loans[n.loan].status == Rejected
    && w.loans[n.loan].copy == n.copy && w.loans[n.loan].owner == n.actor
  }

  predicate LoansOk(w: World) {
    forall l | l in w.loans :: LoanOk(w, l)
  }

  ghost predicate CopiesOk(w: World) {
    forall c | c in w.copies :: CopyOk(w, c)
  }

  predicate ConfsOk(w: World) {
    forall l | l in w.confs :: ConfOk(w, l)
  }

  predicate ContactsOk(w: World) {
    forall c | c in w.contacts :: w.contacts[c].createdAt <= w.clock
  }

  predicate NoticesOk(w: World) {
    forall n | n in w.notices :: NoticeOk(w, n)
  }

  /** Everything but the cached dates. */
  ghost predicate Core(w: World) {
    LoansOk(w) && CopiesOk(w) && ConfsOk(w) && ContactsOk(w) && NoticesOk(w) && LogOk(w)
  }

  /** Every stored `retainUntil` is the date the rules give. */
  ghost predicate CacheExact(w: World) {
    forall c | c in w.contacts :: IsRetention(w, c, w.contacts[c].retainUntil)
  }

  /** Tables written before the cache existed: a date is exact or still missing. */
  ghost predicate CacheSound(w: World) {
    forall c | c in w.contacts :: w.contacts[c].retainUntil.None? || IsRetention(w, c, w.contacts[c].retainUntil)
  }

  ghost predicate Inv(w: World) {
    Core(w) && CacheExact(w)
  }

  // ----- events -----

  lemma LastOf(log: seq<Event>, e: Event)
    ensures (log + [e])[|log + [e]| - 1] == e && (log + [e])[..|log + [e]| - 1] == log
  {
  }

  /** An event of another loan changes nothing about this one. */
  lemma OtherEventAside(log: seq<Event>, e: Event, l: Id)
    requires e.loan != l
    ensures Replay(log + [e], l) == Replay(log, l)
    ensures forall k :: HasEvent(log + [e], l, k) == HasEvent(log, l, k)
    ensures forall ks :: TimesOf(log + [e], l, ks) == TimesOf(log, l, ks)
  {
    LastOf(log, e);
  }

  lemma OwnEvent(log: seq<Event>, e: Event)
    ensures Replay(log + [e], e.loan) == Advance(Replay(log, e.loan), e.kind)
    ensures forall k :: HasEvent(log + [e], e.loan, k) <==> k == e.kind || HasEvent(log, e.loan, k)
    ensures forall ks :: TimesOf(log + [e], e.loan, ks)
                      == TimesOf(log, e.loan, ks) + (if e.kind in ks then [e.at] else [])
  {
    LastOf(log, e);
  }

  /** A loan that has no row yet has no events. */
  lemma {:induction false} UntoldBeforeCreation(log: seq<Event>, l: Id)
    requires forall i | 0 <= i < |log| :: log[i].loan != l
    ensures Replay(log, l) == Untold
    ensures forall k :: !HasEvent(log, l, k)
  {
    if |log| > 0 {
      UntoldBeforeCreation(log[..|log| - 1], l);
    }
  }

  /** The times of the events of a loan are times at which something was written. */
  lemma {:induction false} TimesWithinClock(log: seq<Event>, l: Id, kinds: set<EventKind>, clock: Time)
    requires forall i | 0 <= i < |log| :: log[i].at <= clock
    ensures forall t | t in TimesOf(log, l, kinds) :: t <= clock
  {
    if |log| > 0 {
      TimesWithinClock(log[..|log| - 1], l, kinds, clock);
    }
  }

  /** What can be true of a story's state. */
  predicate Consistent(f: Facts) {
    && (f.recovered || f.closed ==> f.status == Lost)
    && (f.status != Requested && f.status != Approved && f.status != Rejected && f.status != Declined)
    && (f.status == PendingConfirmation <==> f.answer == Some(P.Open) || f.answer == Some(P.Denied))
    && (f.status == Cancelled <==> f.answer == Some(P.CancelledByOwner))
  }

  lemma {:induction false} StoryIsConsistent(log: seq<Event>, l: Id)
    requires Replay(log, l).At?
    ensures Consistent(Replay(log, l).facts)
  {
    var init := log[..|log| - 1];
    if Replay(init, l).At? {
      StoryIsConsistent(init, l);
    }
  }

  /** How many events of each kind a state has behind it. */
  datatype Tally = Tally(losses: nat, cancellations: nat, recoveries: nat, closures: nat, settlements: nat,
                         recovered: bool, closed: bool)

  function TallyOf(log: seq<Event>, l: Id): Tally {
    Tally(|TimesOf(log, l, {LoanLost})|, |TimesOf(log, l, {HandoverCancelled})|, |TimesOf(log, l, {Recovered})|,
          |TimesOf(log, l, {LossClosed})|, |TimesOf(log, l, {Recovered, LossClosed})|,
          HasEvent(log, l, Recovered), HasEvent(log, l, LossClosed))
  }

  function Counting(t: Tally, kind: EventKind): Tally {
    Tally(t.losses + (if kind == LoanLost then 1 else 0), t.cancellations + (if kind == HandoverCancelled then 1 else 0),
          t.recoveries + (if kind == Recovered then 1 else 0), t.closures + (if kind == LossClosed then 1 else 0),
          t.settlements + (if kind == Recovered || kind == LossClosed then 1 else 0),
          t.recovered || kind == Recovered, t.closed || kind == LossClosed)
  }

  predicate Tallies(f: Facts, t: Tally) {
    && t.losses == (if f.status == Lost then 1 else 0)
    && t.cancellations == (if f.status == Cancelled then 1 else 0)
    && t.recoveries == (if f.recovered then 1 else 0)
    && t.closures == (if f.closed then 1 else 0)
    && t.settlements == t.recoveries + t.closures
    && t.recovered == f.recovered && t.closed == f.closed
  }

  lemma AdvanceTallies(before: Story, t: Tally, kind: EventKind)
    requires Advance(before, kind).At?
    requires if before.At? then Consistent(before.facts) && Tallies(before.facts, t)
             else t == Tally(0, 0, 0, 0, 0, false, false)
    ensures Tallies(Advance(before, kind).facts, Counting(t, kind))
  {
  }

  lemma TallyGrows(log: seq<Event>, e: Event, l: Id)
    ensures TallyOf(log + [e], l) == if e.loan == l then Counting(TallyOf(log, l), e.kind) else TallyOf(log, l)
    ensures Replay(log + [e], l) == if e.loan == l then Advance(Replay(log, l), e.kind) else Replay(log, l)
  {
    if e.loan == l {
      OwnEvent(log, e);
    } else {
      OtherEventAside(log, e, l);
    }
    hide TimesOf, HasEvent, Replay;
  }

  /** What a story tells about the events behind it. */
  lemma {:induction false} StoryHasItsEvents(log: seq<Event>, l: Id)
    requires Replay(log, l).At?
    ensures Consistent(Replay(log, l).facts) && Tallies(Replay(log, l).facts, TallyOf(log, l))
  {
    var init := log[..|log| - 1];
    var e := log[|log| - 1];
    StoryIsConsistent(log, l);
    assert log == init + [e];
    TallyGrows(init, e, l);
    if Replay(init, l).At? {
      StoryIsConsistent(init, l);
      StoryHasItsEvents(init, l);
    } else {
      UntoldHasNoEvents(init, l);
    }
    hide Consistent, Tallies, TallyOf, Counting;
    if e.loan == l {
      AdvanceTallies(Replay(init, l), TallyOf(init, l), e.kind);
    }
  }

  lemma {:induction false} UntoldHasNoEvents(log: seq<Event>, l: Id)
    requires Replay(log, l) == Untold
    ensures forall ks :: TimesOf(log, l, ks) == []
    ensures forall k :: !HasEvent(log, l, k)
    ensures TallyOf(log, l) == Tally(0, 0, 0, 0, 0, false, false)
  {
    if |log| > 0 {
      UntoldHasNoEvents(log[..|log| - 1], l);
    }
  }

  // ----- retention -----

  /** No integrity error of `candidateFor` can be thrown for a finished guest loan. */
  lemma CandidateExists(w: World, l: Id)
    requires l in w.loans && w.loans[l].borrower.Guest? && LoanOk(w, l) && LogOk(w)
    requires !Exclusive(w.loans[l].status)
    ensures CandidateFor(w.loans[l], l, w.log).Success?
  {
    StoryHasItsEvents(w.log, l);
  }

  /** A nonempty set of loans has one that asks for the latest date. */
  lemma LatestExists(w: World, ls: set<Id>) returns (top: Id)
    requires ls != {}
    requires forall l | l in ls :: l in w.loans && CandidateFor(w.loans[l], l, w.log).Success?
    ensures top in ls
    ensures forall l | l in ls :: Asks(w, l, CandidateFor(w.loans[top], top, w.log).value)
    decreases |ls|
  {
    var one :| one in ls;
    top := one;
    var rest := ls - {one};
    if rest != {} {
      var other := LatestExists(w, rest);
      if CandidateFor(w.loans[other], other, w.log).value > CandidateFor(w.loans[one], one, w.log).value {
        top := other;
      }
    }
    forall l | l in ls
      ensures Asks(w, l, CandidateFor(w.loans[top], top, w.log).value)
    {
      assert l == one || l in rest;
    }
  }

  /** The rules give every contact exactly one answer. */
  lemma RetentionUnique(w: World, c: Id, r: Option<Time>, s: Option<Time>)
    requires c in w.contacts && IsRetention(w, c, r) && IsRetention(w, c, s)
    ensures r == s
  {
    if ContactLoans(w, c) != {} && !HasActiveLoan(w, c) {
      var l :| l in ContactLoans(w, c) && CandidateFor(w.loans[l], l, w.log) == Success(r.value);
      var m :| m in ContactLoans(w, c) && CandidateFor(w.loans[m], m, w.log) == Success(s.value);
      assert Asks(w, m, r.value) && Asks(w, l, s.value);
    }
  }

  lemma RetentionExists(w: World, c: Id)
    requires c in w.contacts
    requires LogOk(w)
    requires LoansOk(w)
    ensures IsRetention(w, c, RetentionOf(w, c))
  {
    var ls := ContactLoans(w, c);
    if ls == {} {
      assert IsRetention(w, c, Some(w.contacts[c].createdAt + NO_LOAN_WINDOW));
    } else if HasActiveLoan(w, c) {
      assert IsRetention(w, c, None);
    } else {
      forall l | l in ls
        ensures CandidateFor(w.loans[l], l, w.log).Success?
      {
        assert !Exclusive(w.loans[l].status);
        CandidateExists(w, l);
      }
      var top := LatestExists(w, ls);
      assert IsRetention(w, c, Some(CandidateFor(w.loans[top], top, w.log).value));
    }
  }

  /** The date of a contact depends on nothing but its creation, its loans and their candidates. */
  lemma RetentionFrame(w: World, v: World, c: Id, r: Option<Time>)
    requires c in w.contacts && c in v.contacts && w.contacts[c].createdAt == v.contacts[c].createdAt
    requires ContactLoans(w, c) == ContactLoans(v, c)
    requires forall l | l in ContactLoans(w, c) ::
               && w.loans[l].status == v.loans[l].status
               && CandidateFor(w.loans[l], l, w.log) == CandidateFor(v.loans[l], l, v.log)
    requires IsRetention(w, c, r)
    ensures IsRetention(v, c, r)
  {
    var ls := ContactLoans(w, c);
    assert HasActiveLoan(w, c) <==> exists l | l in ls :: Exclusive(w.loans[l].status);
    assert HasActiveLoan(v, c) <==> exists l | l in ls :: Exclusive(v.loans[l].status);
    if ls != {} && !HasActiveLoan(w, c) {
      forall l | l in ls
        ensures Asks(v, l, r.value)
      {
        assert Asks(w, l, r.value);
      }
    }
  }

  /** Rows that only differ in the dates and identities of their contacts satisfy the same rules. */
  lemma ContactEditsKeepCore(w: World, v: World)
    requires Core(w)
    requires v.clock == w.clock && v.copies == w.copies && v.loans == w.loans && v.confs == w.confs
    requires v.log == w.log && v.notices == w.notices
    requires w.contacts.Keys == v.contacts.Keys
    requires forall c | c in w.contacts ::
               v.contacts[c].owner == w.contacts[c].owner && v.contacts[c].createdAt == w.contacts[c].createdAt
    ensures Core(v)
  {
    forall l | l in v.loans
      ensures LoanOk(v, l)
    {
      assert LoanOk(w, l);
    }
    forall c | c in v.copies
      ensures CopyOk(v, c)
    {
      assert CopyOk(w, c);
      assert forall l | l in v.loans :: HeldBy(v, c, l) == HeldBy(w, c, l);
    }
    forall l | l in v.confs
      ensures ConfOk(v, l)
    {
      assert ConfOk(w, l);
    }
    forall n | n in v.notices
      ensures NoticeOk(v, n)
    {
      assert NoticeOk(w, n);
    }
  }

  /** Recomputing the one contact whose date may be stale makes the whole cache exact. */
  lemma RecachedIsExact(w: World, c: Id)
    requires LoansOk(w) && LogOk(w)
    requires forall k | k in w.contacts && k != c :: IsRetention(w, k, w.contacts[k].retainUntil)
    ensures CacheExact(Recached(w, c))
  {
    var v := Recached(w, c);
    if c in w.contacts {
      RetentionExists(w, c);
    }
    forall k | k in v.contacts
      ensures IsRetention(v, k, v.contacts[k].retainUntil)
    {
      assert ContactLoans(v, k) == ContactLoans(w, k);
      RetentionFrame(w, v, k, v.contacts[k].retainUntil);
    }
  }
}
