/**
 * What one guest transaction may write without breaking the tables: the proof obligations are local to
 * its loan and its copy, and everything else follows here once for all transactions.
 */
module GuestWrites {
  import opened Wrappers
  import opened GuestModel
  import opened GuestInvariant
  import opened GuestSteps
  import P = GuestProtocol
  import S = ProtocolSafety

  // ----- rows a transaction did not write -----

  /** An untouched guest loan, while an event of another loan was appended. */
  lemma GuestUntouched(w: World, v: World, e: Event, m: Id)
    requires m in w.loans && m in v.loans && v.loans[m] == w.loans[m] && w.loans[m].borrower.Guest?
    requires LoanOk(w, m)
    requires v.contacts == w.contacts && v.clock == w.clock
    requires m in w.confs <==> m in v.confs
    requires m in w.confs ==> v.confs[m] == w.confs[m]
    requires v.log == w.log + [e] && e.loan != m
    requires w.loans[m].copy in v.copies && v.copies[w.loans[m].copy].owner == w.copies[w.loans[m].copy].owner
    ensures LoanOk(v, m)
  {
    OtherEventAside(w.log, e, m);
  }

  /** A registered loan that is untouched or, being a rival, has been turned down with its notice. */
  lemma RegisteredUntouched(w: World, v: World, e: Event, m: Id)
    requires m in w.loans && m in v.loans && w.loans[m].borrower.Registered?
    requires LoanOk(w, m)
    requires v.loans[m] == w.loans[m] || (w.loans[m].status == Requested
               && v.loans[m] == w.loans[m].(status := Rejected, respondedAt := Some(w.clock)))
    requires var n := w.loans[m]; var notice := Notice(n.borrower.user, m, n.copy, n.owner);
             notice in v.notices <==> notice in w.notices || v.loans[m] != n
    requires m in w.confs <==> m in v.confs
    requires v.log == w.log + [e] && e.loan != m
    requires w.loans[m].copy in v.copies && v.copies[w.loans[m].copy].owner == w.copies[w.loans[m].copy].owner
    ensures LoanOk(v, m)
  {
    OtherEventAside(w.log, e, m);
  }

  /** A copy whose row and holders are as before. */
  lemma CopyUntouched(w: World, v: World, c: Id)
    requires c in w.copies && c in v.copies && v.copies[c] == w.copies[c]
    requires CopyOk(w, c)
    requires forall m | m in v.loans && HeldBy(v, c, m) :: m in w.loans && HeldBy(w, c, m) && v.loans[m] == w.loans[m]
    requires forall m | m in w.loans && HeldBy(w, c, m) :: m in v.loans && HeldBy(v, c, m)
    ensures CopyOk(v, c)
  {
  }

  /** A copy that at most the one written loan can hold. */
  lemma CopyWritten(v: World, c: Id, l: Id)
    requires c in v.copies && l in v.loans
    requires forall m | m in v.loans && HeldBy(v, c, m) :: m == l
    requires if HeldBy(v, c, l) then MatchesLoan(v.copies[c], v.loans[l])
             else Home(v.copies[c]) && (v.copies[c].status == Available || v.copies[c].status == Unavailable)
    ensures CopyOk(v, c)
  {
  }

  // ----- what has to be shown of the written rows -----

  /** The loan keeps its identity: the same copy and borrower; its dates go with its status. */
  predicate LoanFits(w: World, l: Id, loan: Loan) {
    && loan.copy in w.copies && loan.owner == w.copies[loan.copy].owner
    && loan.borrower.Guest?
    && (loan.borrower.contact.Some? ==>
          loan.borrower.contact.value in w.contacts && w.contacts[loan.borrower.contact.value].owner == loan.owner)
    && (l in w.loans ==> w.loans[l].borrower == loan.borrower && w.loans[l].copy == loan.copy)
    && (Exclusive(loan.status) ==> loan.borrower.contact.Some?)
    && loan.handedAt.Some?
    && (loan.returnedAt.Some? <==> loan.status == Returned)
    && (loan.returnedAt.Some? ==> loan.returnedAt.value <= w.clock)
  }

  predicate ConfFits(w: World, l: Id, loan: Loan, conf: Option<Confirmation>) {
    match conf
    case None => true
    case Some(c) =>
      && loan.borrower.Guest? && c.contact == loan.borrower.contact
      && S.ChecksHold(c.row) && S.CountersBounded(c.row)
  }

  /** The event continues the story of the loan to exactly what the rows will say. */
  predicate StoryFits(w: World, l: Id, loan: Loan, conf: Option<Confirmation>, e: Event) {
    && e.loan == l && e.at <= w.clock
    && Advance(Replay(w.log, l), e.kind) == At(Facts(loan.status, AnswerAfter(w, l, conf),
         e.kind == Recovered || HasEvent(w.log, l, Recovered),
         e.kind == LossClosed || HasEvent(w.log, l, LossClosed)))
  }

  function AnswerAfter(w: World, l: Id, conf: Option<Confirmation>): Option<P.ConfirmationStatus> {
    if conf.Some? then Some(conf.value.row.status)
    else if l in w.confs then Some(w.confs[l].row.status) else None
  }

  predicate OutstandingAfter(w: World, l: Id, loan: Loan, e: Event) {
    loan.status == PendingConfirmation || loan.status == HandedOver
    || (loan.status == Lost && e.kind != Recovered && !HasEvent(w.log, l, Recovered))
  }

  /** No other loan holds the copy, and the copy says what the loan then implies. */
  predicate CopyFits(w: World, l: Id, loan: Loan, copy: Copy, e: Event) {
    && loan.copy in w.copies
    && copy.owner == w.copies[loan.copy].owner
    && (forall m | m in w.loans && m != l :: !HeldBy(w, loan.copy, m))
    && (if OutstandingAfter(w, l, loan, e) then MatchesLoan(copy, loan)
        else Home(copy) && (copy.status == Available || copy.status == Unavailable))
  }

  predicate Fits(w: World, l: Id, loan: Loan, copy: Copy, conf: Option<Confirmation>, e: Event) {
    LoanFits(w, l, loan) && ConfFits(w, l, loan, conf) && StoryFits(w, l, loan, conf, e) && CopyFits(w, l, loan, copy, e)
  }

  // ----- and what follows -----

  lemma OtherLoanOk(w: World, l: Id, loan: Loan, copy: Copy, conf: Option<Confirmation>, e: Event, rejects: bool, m: Id)
    requires m in w.loans && m != l && LoanOk(w, m)
    requires loan.copy in w.copies && loan.owner == w.copies[loan.copy].owner && copy.owner == loan.owner
    requires e.loan == l
    ensures LoanOk(Written(w, l, loan, copy, conf, e, rejects), m)
  {
    var v := Written(w, l, loan, copy, conf, e, rejects);
    if w.loans[m].borrower.Registered? {
      var n := w.loans[m];
      var notice := Notice(n.borrower.user, m, n.copy, n.owner);
      assert notice in RivalNotices(w.loans, loan.copy, loan.owner) <==> Rival(n, loan.copy);
      RegisteredUntouched(w, v, e, m);
    } else {
      GuestUntouched(w, v, e, m);
    }
  }

  lemma OwnLoanOk(w: World, l: Id, loan: Loan, copy: Copy, conf: Option<Confirmation>, e: Event, rejects: bool)
    requires ConfsOk(w)
    requires l in w.loans ==> LoanOk(w, l)
    requires LoanFits(w, l, loan) && ConfFits(w, l, loan, conf) && StoryFits(w, l, loan, conf, e)
    requires copy.owner == w.copies[loan.copy].owner
    ensures LoanOk(Written(w, l, loan, copy, conf, e, rejects), l)
  {
    OwnEvent(w.log, e);
    if l !in w.loans {
      assert l in w.confs ==> ConfOk(w, l);
    }
  }

  lemma LoansOkAfter(w: World, l: Id, loan: Loan, copy: Copy, conf: Option<Confirmation>, e: Event, rejects: bool)
    requires LoansOk(w) && ConfsOk(w) && Fits(w, l, loan, copy, conf, e)
    ensures LoansOk(Written(w, l, loan, copy, conf, e, rejects))
  {
    var v := Written(w, l, loan, copy, conf, e, rejects);
    forall m | m in v.loans
      ensures LoanOk(v, m)
    {
      if m == l {
        OwnLoanOk(w, l, loan, copy, conf, e, rejects);
      } else {
        OtherLoanOk(w, l, loan, copy, conf, e, rejects, m);
      }
    }
  }

  /** Which loans hold a copy after the write. */
  lemma HolderAfter(w: World, l: Id, loan: Loan, copy: Copy, conf: Option<Confirmation>, e: Event, rejects: bool,
                    c: Id, m: Id)
    requires loan.borrower.Guest? && loan.copy in w.copies && e.loan == l
    requires c in w.copies
    requires m in w.loans || m == l
    ensures
      var v := Written(w, l, loan, copy, conf, e, rejects);
      && m in v.loans && c in v.copies
      && (m != l ==> (HeldBy(v, c, m) <==> HeldBy(w, c, m)) && (HeldBy(v, c, m) ==> v.loans[m] == w.loans[m]))
      && (m == l ==> v.loans[m] == loan && (HeldBy(v, c, m) <==> loan.copy == c && OutstandingAfter(w, l, loan, e)))
  {
    if m != l {
      OtherEventAside(w.log, e, m);
    } else {
      OwnEvent(w.log, e);
    }
  }

  lemma CopyOkAfter(w: World, l: Id, loan: Loan, copy: Copy, conf: Option<Confirmation>, e: Event, rejects: bool, c: Id)
    requires c in w.copies && CopyOk(w, c)
    requires LoanFits(w, l, loan) && CopyFits(w, l, loan, copy, e) && e.loan == l
    ensures CopyOk(Written(w, l, loan, copy, conf, e, rejects), c)
  {
    var v := Written(w, l, loan, copy, conf, e, rejects);
    forall m | m in v.loans
      ensures m != l ==> m in w.loans && (HeldBy(v, c, m) <==> HeldBy(w, c, m)) && (HeldBy(v, c, m) ==> v.loans[m] == w.loans[m])
      ensures m == l ==> v.loans[m] == loan && (HeldBy(v, c, m) <==> loan.copy == c && OutstandingAfter(w, l, loan, e))
    {
      HolderAfter(w, l, loan, copy, conf, e, rejects, c, m);
    }
    if c == loan.copy {
      CopyWritten(v, c, l);
    } else {
      forall m | m in w.loans && HeldBy(w, c, m)
        ensures m in v.loans && HeldBy(v, c, m)
      {
        HolderAfter(w, l, loan, copy, conf, e, rejects, c, m);
      }
      CopyUntouched(w, v, c);
    }
  }

  lemma CopiesOkAfter(w: World, l: Id, loan: Loan, copy: Copy, conf: Option<Confirmation>, e: Event, rejects: bool)
    requires CopiesOk(w) && LoanFits(w, l, loan) && CopyFits(w, l, loan, copy, e) && e.loan == l
    ensures CopiesOk(Written(w, l, loan, copy, conf, e, rejects))
  {
    var v := Written(w, l, loan, copy, conf, e, rejects);
    forall c | c in v.copies
      ensures CopyOk(v, c)
    {
      CopyOkAfter(w, l, loan, copy, conf, e, rejects, c);
    }
  }

  lemma ConfsOkAfter(w: World, l: Id, loan: Loan, copy: Copy, conf: Option<Confirmation>, e: Event, rejects: bool)
    requires ConfsOk(w) && LoanFits(w, l, loan) && ConfFits(w, l, loan, conf)
    ensures ConfsOk(Written(w, l, loan, copy, conf, e, rejects))
  {
    var v := Written(w, l, loan, copy, conf, e, rejects);
    forall m | m in v.confs
      ensures ConfOk(v, m)
    {
      if m != l || conf.None? {
        assert ConfOk(w, m);
      }
    }
  }

  lemma NoticesOkAfter(w: World, l: Id, loan: Loan, copy: Copy, conf: Option<Confirmation>, e: Event, rejects: bool)
    requires NoticesOk(w) && LoansOk(w) && LoanFits(w, l, loan)
    ensures NoticesOk(Written(w, l, loan, copy, conf, e, rejects))
  {
    var v := Written(w, l, loan, copy, conf, e, rejects);
    forall n | n in v.notices
      ensures NoticeOk(v, n)
    {
      if n in w.notices {
        assert NoticeOk(w, n);
      } else {
        assert n in RivalNotices(w.loans, loan.copy, loan.owner);
        assert LoanOk(w, n.loan);
      }
    }
  }

  lemma LogOkAfter(w: World, v: World, e: Event)
    requires LogOk(w) && v.clock == w.clock && v.log == w.log + [e]
    requires forall m | m in w.loans :: m in v.loans
    requires e.loan in v.loans && e.at <= w.clock
    ensures LogOk(v)
  {
    forall i | 0 <= i < |v.log|
      ensures v.log[i].loan in v.loans && v.log[i].at <= v.clock
    {
      if i < |w.log| {
        assert v.log[i] == w.log[i];
      }
    }
  }

  lemma LogAndContactsOkAfter(w: World, l: Id, loan: Loan, copy: Copy, conf: Option<Confirmation>, e: Event, rejects: bool)
    requires LogOk(w) && ContactsOk(w) && e.loan == l && e.at <= w.clock
    ensures LogOk(Written(w, l, loan, copy, conf, e, rejects)) && ContactsOk(Written(w, l, loan, copy, conf, e, rejects))
  {
    LogOkAfter(w, Written(w, l, loan, copy, conf, e, rejects), e);
  }

  /** A fitting write keeps every rule of the tables. */
  lemma WrittenKeepsCore(w: World, l: Id, loan: Loan, copy: Copy, conf: Option<Confirmation>, e: Event, rejects: bool)
    requires Core(w) && Fits(w, l, loan, copy, conf, e)
    ensures Core(Written(w, l, loan, copy, conf, e, rejects))
  {
    hide LoansOk, CopiesOk, ConfsOk, NoticesOk, ContactsOk, LogOk, LoanFits, ConfFits, CopyFits;
    LoansOkAfter(w, l, loan, copy, conf, e, rejects);
    CopiesOkAfter(w, l, loan, copy, conf, e, rejects);
    ConfsOkAfter(w, l, loan, copy, conf, e, rejects);
    NoticesOkAfter(w, l, loan, copy, conf, e, rejects);
    LogAndContactsOkAfter(w, l, loan, copy, conf, e, rejects);
  }

  /** A finished or active loan asks the same as long as its row and its events stay as they are. */
  lemma CandidateUntouched(loan: Loan, m: Id, log: seq<Event>, e: Event)
    requires e.loan != m
    ensures CandidateFor(loan, m, log + [e]) == CandidateFor(loan, m, log)
  {
    hide TimesOf, HasEvent, Replay, Earliest;
    OtherEventAside(log, e, m);
  }

  /** A contact none of whose loans was written keeps its date. */
  lemma DateUntouched(w: World, v: World, e: Event, k: Id)
    requires v.contacts == w.contacts && v.log == w.log + [e]
    requires k in w.contacts && IsRetention(w, k, w.contacts[k].retainUntil)
    requires ContactLoans(v, k) == ContactLoans(w, k)
    requires forall m | m in ContactLoans(w, k) :: v.loans[m] == w.loans[m] && m != e.loan
    ensures IsRetention(v, k, w.contacts[k].retainUntil)
  {
    forall m | m in ContactLoans(w, k)
      ensures CandidateFor(w.loans[m], m, w.log) == CandidateFor(v.loans[m], m, v.log)
    {
      CandidateUntouched(w.loans[m], m, w.log, e);
    }
    RetentionFrame(w, v, k, w.contacts[k].retainUntil);
  }

  /** Only the contact of the written loan can have a stale date afterwards. */
  lemma WrittenLeavesOtherDates(w: World, l: Id, loan: Loan, copy: Copy, conf: Option<Confirmation>, e: Event,
                                rejects: bool, k: Id)
    requires k in w.contacts && IsRetention(w, k, w.contacts[k].retainUntil)
    requires l in w.loans ==> w.loans[l].borrower == loan.borrower
    requires loan.borrower != Borrower.Guest(Some(k)) && e.loan == l
    ensures IsRetention(Written(w, l, loan, copy, conf, e, rejects), k, w.contacts[k].retainUntil)
  {
    var v := Written(w, l, loan, copy, conf, e, rejects);
    WrittenLeavesOtherLoans(w, l, loan, copy, conf, e, rejects, k);
    DateUntouched(w, v, e, k);
  }

  lemma WrittenLeavesOtherLoans(w: World, l: Id, loan: Loan, copy: Copy, conf: Option<Confirmation>, e: Event,
                                rejects: bool, k: Id)
    requires l in w.loans ==> w.loans[l].borrower == loan.borrower
    requires loan.borrower != Borrower.Guest(Some(k))
    ensures
      var v := Written(w, l, loan, copy, conf, e, rejects);
      && ContactLoans(v, k) == ContactLoans(w, k)
      && forall m | m in ContactLoans(w, k) :: v.loans[m] == w.loans[m] && m != l
  {
  }

  /** The whole effect of a guest transaction: its writes, then the date of its contact if it has one. */
  ghost function Settled(v: World, contact: Option<Id>): World {
    match contact
    case None => v
    case Some(c) => Recached(v, c)
  }

  lemma RecachedKeepsInv(v: World, contact: Option<Id>)
    requires Core(v)
    requires forall k | k in v.contacts && contact != Some(k) :: IsRetention(v, k, v.contacts[k].retainUntil)
    ensures Inv(Settled(v, contact))
  {
    hide LoansOk, CopiesOk, ConfsOk, NoticesOk, ContactsOk, LogOk, IsRetention, RetentionOf;
    if contact.Some? {
      ContactEditsKeepCore(v, Recached(v, contact.value));
      RecachedIsExact(v, contact.value);
    }
  }

  /** A fitting write followed by the recomputation of its contact keeps the whole invariant. */
  lemma WrittenKeepsInv(w: World, l: Id, loan: Loan, copy: Copy, conf: Option<Confirmation>, e: Event, rejects: bool)
    requires Inv(w) && Fits(w, l, loan, copy, conf, e)
    ensures Inv(Settled(Written(w, l, loan, copy, conf, e, rejects), loan.borrower.contact))
  {
    hide LoansOk, CopiesOk, ConfsOk, NoticesOk, ContactsOk, LogOk, IsRetention, ConfFits, CopyFits, Replay, HasEvent;
    var v := Written(w, l, loan, copy, conf, e, rejects);
    WrittenKeepsCore(w, l, loan, copy, conf, e, rejects);
    forall k | k in v.contacts && loan.borrower.contact != Some(k)
      ensures IsRetention(v, k, v.contacts[k].retainUntil)
    {
      WrittenLeavesOtherDates(w, l, loan, copy, conf, e, rejects, k);
    }
    RecachedKeepsInv(v, loan.borrower.contact);
  }
}
