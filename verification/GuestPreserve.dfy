/**
 * Every transaction keeps the invariant. Along the way the guards that the source keeps "just in case"
 * turn out never to fire: a confirmation that may still be decided always has its whole chain pending,
 * and the copy of a loan that may still move always has the status the table asks for.
 */
module GuestPreserve {
  import opened Wrappers
  import opened GuestModel
  import opened GuestInvariant
  import opened GuestSteps
  import opened GuestWrites
  import P = GuestProtocol
  import S = ProtocolSafety

  // ----- facts about single rows -----

  /** A loan id that is not in use has no event, no confirmation and no notice. */
  lemma FreshLoan(w: World, l: Id)
    requires Core(w) && l !in w.loans
    ensures l !in w.confs
    ensures Replay(w.log, l) == Untold
    ensures forall k :: !HasEvent(w.log, l, k)
  {
    assert l in w.confs ==> ConfOk(w, l);
    UntoldBeforeCreation(w.log, l);
  }

  /** A copy at home is held by no loan. */
  lemma HomeIsFree(w: World, c: Id, l: Id)
    requires CopiesOk(w) && c in w.copies && w.copies[c].holder.Some? && l in w.loans
    ensures !HeldBy(w, c, l)
  {
    assert CopyOk(w, c);
  }

  /** The copy of an outstanding loan says so, and no other loan has it. */
  lemma OutstandingHolds(w: World, l: Id)
    requires Core(w) && Outstanding(w, l)
    ensures w.loans[l].copy in w.copies && MatchesLoan(w.copies[w.loans[l].copy], w.loans[l])
    ensures forall m | m in w.loans && m != l :: !HeldBy(w, w.loans[l].copy, m)
  {
    assert LoanOk(w, l);
    var c := w.loans[l].copy;
    assert CopyOk(w, c) && HeldBy(w, c, l);
  }

  /** A confirmation that may still be answered or decided has loan, copy and contact all pending with it. */
  lemma ChainIsPending(w: World, l: Id)
    requires Core(w) && l in w.confs
    requires w.confs[l].row.status == P.Open || w.confs[l].row.status == P.Denied
    ensures PendingChain(w, l) && Outstanding(w, l)
  {
    assert ConfOk(w, l) && LoanOk(w, l);
    StoryHasItsEvents(w.log, l);
    assert Outstanding(w, l);
    OutstandingHolds(w, l);
  }

  /** The table's requirement on the copy is met by every loan it applies to. */
  lemma TableRequirementHolds(w: World, l: Id, action: GuestAction)
    requires Core(w) && l in w.loans && w.loans[l].borrower.Guest?
    requires ResolveGuest(w.loans[l].status, action).Some?
    requires action == Recover || action == CloseLoss ==> !HasEvent(w.log, l, Recovered)
    ensures Outstanding(w, l) && w.loans[l].copy in w.copies
    ensures
      var needed := ResolveGuest(w.loans[l].status, action).value.requires_;
      needed.Some? ==> w.copies[w.loans[l].copy].status == needed.value
  {
    OutstandingHolds(w, l);
  }

  /** `evidenceOfActive`: a loan shown as active history was recorded without confirmation or settled it. */
  lemma EvidenceExists(w: World, l: Id)
    requires Core(w) && l in w.loans && w.loans[l].borrower.Guest?
    requires w.loans[l].status == HandedOver || w.loans[l].status == Returned || w.loans[l].status == Lost
    ensures l in w.confs ==> w.confs[l].row.status == P.OwnerRecorded || w.confs[l].row.status == P.Received
  {
    assert LoanOk(w, l);
    StoryHasItsEvents(w.log, l);
  }

  // ----- dates that stay -----

  lemma DateKept(w: World, v: World, k: Id)
    requires k in v.contacts && k in w.contacts && v.contacts[k].createdAt == w.contacts[k].createdAt
    requires ContactLoans(v, k) == ContactLoans(w, k) && v.log == w.log
    requires forall l | l in ContactLoans(w, k) ::
               v.loans[l].status == w.loans[l].status && v.loans[l].returnedAt == w.loans[l].returnedAt
    requires IsRetention(w, k, w.contacts[k].retainUntil)
    ensures IsRetention(v, k, w.contacts[k].retainUntil)
  {
    RetentionFrame(w, v, k, w.contacts[k].retainUntil);
  }

  lemma DatesKept(w: World, v: World)
    requires CacheExact(w)
    requires forall k | k in v.contacts ::
               && k in w.contacts && v.contacts[k].createdAt == w.contacts[k].createdAt
               && v.contacts[k].retainUntil == w.contacts[k].retainUntil
               && ContactLoans(v, k) == ContactLoans(w, k)
    requires v.log == w.log
    requires forall l | l in w.loans && w.loans[l].borrower.Guest? ::
               l in v.loans && v.loans[l].status == w.loans[l].status && v.loans[l].returnedAt == w.loans[l].returnedAt
    ensures CacheExact(v)
  {
    hide IsRetention;
    forall k | k in v.contacts
      ensures IsRetention(v, k, v.contacts[k].retainUntil)
    {
      DateKept(w, v, k);
    }
  }

  // ----- lending -----

  lemma NewLoanFits(w: World, owner: Id, contact: Id, c: Id, l: Id, status: LoanStatus, handedDay: nat, dueDay: Option<nat>)
    requires l !in w.loans && HandoverReply(w, owner, contact, c, handedDay, dueDay) == Done
    requires status == HandedOver || status == PendingConfirmation
    ensures LoanFits(w, l, NewLoan(owner, contact, c, status, handedDay, dueDay))
  {
  }

  /** A new loan takes a copy from home. */
  lemma NewCopyFits(w: World, l: Id, loan: Loan, copy: Copy, e: Event)
    requires CopiesOk(w) && loan.copy in w.copies && w.copies[loan.copy].holder.Some? && copy.owner == w.copies[loan.copy].owner
    requires (loan.status == HandedOver || loan.status == PendingConfirmation) && MatchesLoan(copy, loan)
    ensures CopyFits(w, l, loan, copy, e)
  {
    hide HasEvent, CopiesOk;
    forall m | m in w.loans && m != l
      ensures !HeldBy(w, loan.copy, m)
    {
      HomeIsFree(w, loan.copy, m);
    }
  }

  lemma LendFits(w: World, owner: Id, contact: Id, c: Id, l: Id, handedDay: nat, dueDay: Option<nat>, begun: Time)
    requires Core(w) && l !in w.loans && begun <= w.clock
    requires HandoverReply(w, owner, contact, c, handedDay, dueDay) == Done
    ensures Fits(w, l, NewLoan(owner, contact, c, HandedOver, handedDay, dueDay),
                 w.copies[c].(status := LentOut, holder := None, contact := Some(contact)), None,
                 Event(l, GuestLoanRecorded, Some(owner), begun, None))
  {
    hide LoansOk, CopiesOk, ConfsOk, NoticesOk, ContactsOk, LogOk, LoanFits, CopyFits, Replay, HasEvent;
    var loan := NewLoan(owner, contact, c, HandedOver, handedDay, dueDay);
    var copy := w.copies[c].(status := LentOut, holder := None, contact := Some(contact));
    FreshLoan(w, l);
    NewLoanFits(w, owner, contact, c, l, HandedOver, handedDay, dueDay);
    NewCopyFits(w, l, loan, copy, Event(l, GuestLoanRecorded, Some(owner), begun, None));
  }

  lemma LendKeepsInv(w: World, owner: Id, contact: Id, c: Id, l: Id, handedDay: nat, dueDay: Option<nat>, begun: Time)
    requires Inv(w) && l !in w.loans && begun <= w.clock
    ensures Inv(Lend(w, owner, contact, c, l, handedDay, dueDay, begun))
  {
    if HandoverReply(w, owner, contact, c, handedDay, dueDay) == Done {
      LendFits(w, owner, contact, c, l, handedDay, dueDay, begun);
      WrittenKeepsInv(w, l, NewLoan(owner, contact, c, HandedOver, handedDay, dueDay),
                      w.copies[c].(status := LentOut, holder := None, contact := Some(contact)), None,
                      Event(l, GuestLoanRecorded, Some(owner), begun, None), true);
    }
  }

  lemma OpenConfirmationFits(w: World, owner: Id, contact: Id, c: Id, l: Id, handedDay: nat, dueDay: Option<nat>, begun: Time)
    requires Core(w) && l !in w.loans && begun <= w.clock
    requires HandoverReply(w, owner, contact, c, handedDay, dueDay) == Done
    ensures Fits(w, l, NewLoan(owner, contact, c, PendingConfirmation, handedDay, dueDay),
                 w.copies[c].(status := Reserved, holder := None, contact := Some(contact)),
                 Some(Confirmation(Some(contact), P.NEW_ROW)),
                 Event(l, ConfirmationRequested, Some(owner), begun, None))
  {
    hide LoansOk, CopiesOk, ConfsOk, NoticesOk, ContactsOk, LogOk, LoanFits, CopyFits, Replay, HasEvent;
    var loan := NewLoan(owner, contact, c, PendingConfirmation, handedDay, dueDay);
    var copy := w.copies[c].(status := Reserved, holder := None, contact := Some(contact));
    FreshLoan(w, l);
    NewLoanFits(w, owner, contact, c, l, PendingConfirmation, handedDay, dueDay);
    NewCopyFits(w, l, loan, copy, Event(l, ConfirmationRequested, Some(owner), begun, None));
  }

  lemma OpenConfirmationKeepsInv(w: World, owner: Id, contact: Id, c: Id, l: Id, handedDay: nat, dueDay: Option<nat>,
                                 begun: Time)
    requires Inv(w) && l !in w.loans && begun <= w.clock
    ensures Inv(OpenConfirmation(w, owner, contact, c, l, handedDay, dueDay, begun))
  {
    if HandoverReply(w, owner, contact, c, handedDay, dueDay) == Done {
      OpenConfirmationFits(w, owner, contact, c, l, handedDay, dueDay, begun);
      WrittenKeepsInv(w, l, NewLoan(owner, contact, c, PendingConfirmation, handedDay, dueDay),
                      w.copies[c].(status := Reserved, holder := None, contact := Some(contact)),
                      Some(Confirmation(Some(contact), P.NEW_ROW)),
                      Event(l, ConfirmationRequested, Some(owner), begun, None), false);
    }
  }

  /** The dates of a handover that was let through: handed over by now, and due no earlier than that. */
  lemma HandoverDatesOrdered(w: World, owner: Id, contact: Id, c: Id, handedDay: nat, dueDay: Option<nat>, status: LoanStatus)
    requires HandoverReply(w, owner, contact, c, handedDay, dueDay) == Done
    ensures
      var loan := NewLoan(owner, contact, c, status, handedDay, dueDay);
      && loan.handedAt.value <= w.clock < loan.handedAt.value + (Today(w.clock) - handedDay + 1) * P.DAY
      && (loan.dueAt.Some? ==> loan.handedAt.value <= loan.dueAt.value)
  {
    var today := Today(w.clock);
    assert today * P.DAY <= w.clock < (today + 1) * P.DAY;
    assert handedDay * P.DAY <= today * P.DAY;
    assert (today + 1) * P.DAY == handedDay * P.DAY + (today - handedDay + 1) * P.DAY;
  }

  // ----- return, loss, recovery, closure -----

  /** All that the rules say about an outstanding loan, its copy and its confirmation. */
  predicate Standing(w: World, l: Id) {
    && Outstanding(w, l) && LoanOk(w, l) && (l in w.confs ==> ConfOk(w, l))
    && MatchesLoan(w.copies[w.loans[l].copy], w.loans[l])
    && forall m | m in w.loans && m != l :: !HeldBy(w, w.loans[l].copy, m)
  }

  lemma OutstandingStands(w: World, l: Id)
    requires Core(w) && Outstanding(w, l)
    ensures Standing(w, l)
  {
    OutstandingHolds(w, l);
  }

  /** The rows of a loan that moves on: it keeps its identity, and its copy either comes home or follows it. */
  lemma MovedFits(w: World, l: Id, loan: Loan, copy: Copy, e: Event)
    requires Standing(w, l)
    requires loan.borrower == w.loans[l].borrower && loan.copy == w.loans[l].copy && loan.owner == w.loans[l].owner
    requires loan.handedAt == w.loans[l].handedAt
    requires loan.returnedAt == (if loan.status == Returned then Some(w.clock) else None)
    requires Exclusive(loan.status) ==> Exclusive(w.loans[l].status)
    requires w.loans[l].copy in w.copies && copy.owner == w.copies[loan.copy].owner
    requires if OutstandingAfter(w, l, loan, e)
             then copy.holder == w.copies[loan.copy].holder && copy.contact == w.copies[loan.copy].contact
                  && copy.status == AwayStatus(loan.status)
             else Home(copy) && (copy.status == Available || copy.status == Unavailable)
    ensures LoanFits(w, l, loan) && CopyFits(w, l, loan, copy, e)
  {
  }

  lemma ApplyStoryFits(w: World, l: Id, action: GuestAction, e: Event)
    requires l in w.loans && Replay(w.log, l) == At(FactsOf(w, l))
    requires ResolveGuest(w.loans[l].status, action).Some?
    requires action == Recover ==> !HasEvent(w.log, l, Recovered)
    requires action == CloseLoss ==> !HasEvent(w.log, l, Recovered) && !HasEvent(w.log, l, LossClosed)
    requires e.loan == l && e.at <= w.clock && e.kind == ResolveGuest(w.loans[l].status, action).value.event
    ensures StoryFits(w, l, AppliedLoan(w.loans[l], ResolveGuest(w.loans[l].status, action).value, w.clock), None, e)
  {
    StoryIsConsistent(w.log, l);
    hide HasEvent, Replay;
  }

  lemma ApplyFits(w: World, owner: Id, l: Id, action: GuestAction, day: Option<nat>, begun: Time)
    requires Standing(w, l) && ApplyReply(w, owner, l, action, day) == Done && begun <= w.clock
    ensures
      var loan := w.loans[l];
      var t := ResolveGuest(loan.status, action).value;
      Fits(w, l, AppliedLoan(loan, t, w.clock), AppliedCopy(w.copies[loan.copy], t), None,
           Event(l, t.event, Some(owner), begun, EffectiveAt(action, day, w.clock)))
  {
    var loan := w.loans[l];
    var t := ResolveGuest(loan.status, action).value;
    var e := Event(l, t.event, Some(owner), begun, EffectiveAt(action, day, w.clock));
    StoryIsConsistent(w.log, l);
    hide HasEvent, Replay, StoryFits, LoanFits, CopyFits, HeldBy;
    ApplyStoryFits(w, l, action, e);
    MovedFits(w, l, AppliedLoan(loan, t, w.clock), AppliedCopy(w.copies[loan.copy], t), e);
  }

  lemma ApplyKeepsInv(w: World, owner: Id, l: Id, action: GuestAction, day: Option<nat>, begun: Time)
    requires Inv(w) && begun <= w.clock
    ensures Inv(Apply(w, owner, l, action, day, begun))
  {
    if ApplyReply(w, owner, l, action, day) == Done {
      var loan := w.loans[l];
      var t := ResolveGuest(loan.status, action).value;
      TableRequirementHolds(w, l, action);
      OutstandingStands(w, l);
      ApplyFits(w, owner, l, action, day, begun);
      WrittenKeepsInv(w, l, AppliedLoan(loan, t, w.clock), AppliedCopy(w.copies[loan.copy], t), None,
                      Event(l, t.event, Some(owner), begun, EffectiveAt(action, day, w.clock)), false);
    }
  }

  // ----- the owner's decision -----

  /** The row stays within its checks and its event continues the story of a pending loan. */
  lemma SettledStoryFits(w: World, l: Id, loan: Loan, row: P.Row, e: Event)
    requires l in w.loans && l in w.confs && w.loans[l].status == PendingConfirmation
    requires Replay(w.log, l) == At(FactsOf(w, l))
    requires e.loan == l && e.at <= w.clock
    requires
      || (e.kind == HandoverCancelled && loan.status == Cancelled && row.status == P.CancelledByOwner)
      || (e.kind == LoanOwnerRecorded && loan.status == HandedOver && row.status == P.OwnerRecorded)
      || (w.confs[l].row.status == P.Open
          && ((e.kind == LoanReceived && loan.status == HandedOver && row.status == P.Received)
              || (e.kind == LoanDenied && loan.status == PendingConfirmation && row.status == P.Denied)))
    ensures StoryFits(w, l, loan, Some(w.confs[l].(row := row)), e)
  {
    StoryHasItsEvents(w.log, l);
  }

  lemma DecideFits(w: World, owner: Id, l: Id, decision: P.Decision, begun: Time)
    requires Standing(w, l) && DecideReply(w, owner, l, decision) == Done && PendingChain(w, l) && begun <= w.clock
    ensures
      var loan := w.loans[l];
      var copy := w.copies[loan.copy];
      var conf := w.confs[l].(row := P.Decide(w.confs[l].row, decision, w.clock).0);
      var cancels := decision == P.CancelHandover;
      Fits(w, l, loan.(status := if cancels then Cancelled else HandedOver),
           if cancels then copy.(status := Available, holder := Some(owner), contact := None)
           else copy.(status := LentOut),
           Some(conf),
           Event(l, if cancels then HandoverCancelled else LoanOwnerRecorded, Some(owner), begun, None))
  {
    var loan := w.loans[l];
    var copy := w.copies[loan.copy];
    var row := P.Decide(w.confs[l].row, decision, w.clock).0;
    var cancels := decision == P.CancelHandover;
    var e := Event(l, if cancels then HandoverCancelled else LoanOwnerRecorded, Some(owner), begun, None);
    var newLoan := loan.(status := if cancels then Cancelled else HandedOver);
    SettledStoryFits(w, l, newLoan, row, e);
    MovedFits(w, l, newLoan, if cancels then copy.(status := Available, holder := Some(owner), contact := None)
                             else copy.(status := LentOut), e);
    S.StepKeepsChecks(w.confs[l].row, l, P.OwnerDecides(decision), w.clock);
  }

  lemma DecideKeepsInv(w: World, owner: Id, l: Id, decision: P.Decision, begun: Time)
    requires Inv(w) && begun <= w.clock
    ensures Inv(Decide(w, owner, l, decision, begun))
  {
    if DecideReply(w, owner, l, decision) == Done && PendingChain(w, l) {
      var loan := w.loans[l];
      var copy := w.copies[loan.copy];
      var conf := w.confs[l].(row := P.Decide(w.confs[l].row, decision, w.clock).0);
      var cancels := decision == P.CancelHandover;
      OutstandingStands(w, l);
      DecideFits(w, owner, l, decision, begun);
      WrittenKeepsInv(w, l, loan.(status := if cancels then Cancelled else HandedOver),
                      if cancels then copy.(status := Available, holder := Some(owner), contact := None)
                      else copy.(status := LentOut),
                      Some(conf),
                      Event(l, if cancels then HandoverCancelled else LoanOwnerRecorded, Some(owner), begun, None),
                      !cancels);
    }
  }

  // ----- the guest's answer -----

  lemma AnswerFits(w: World, l: Id, token: P.Secret, email: string, nickname: string, proof: P.Secret, answer: P.Answer,
                   begun: Time)
    requires Standing(w, l) && AnswerReply(w, l, token, email, nickname, proof, answer) == Done && PendingChain(w, l)
    requires begun <= w.clock
    ensures
      var loan := w.loans[l];
      var copy := w.copies[loan.copy];
      var conf := w.confs[l].(row := P.AnswerLink(w.confs[l].row, l, token, email, nickname, proof, answer, w.clock).0);
      var received := answer == P.SaysReceived;
      Fits(w, l, if received then loan.(status := HandedOver) else loan,
           if received then copy.(status := LentOut) else copy,
           Some(conf), Event(l, if received then LoanReceived else LoanDenied, None, begun, None))
  {
    var loan := w.loans[l];
    var copy := w.copies[loan.copy];
    var row := P.AnswerLink(w.confs[l].row, l, token, email, nickname, proof, answer, w.clock).0;
    var received := answer == P.SaysReceived;
    var newLoan := if received then loan.(status := HandedOver) else loan;
    var e := Event(l, if received then LoanReceived else LoanDenied, None, begun, None);
    SettledStoryFits(w, l, newLoan, row, e);
    MovedFits(w, l, newLoan, if received then copy.(status := LentOut) else copy, e);
    S.StepKeepsChecks(w.confs[l].row, l, P.Respond(token, email, nickname, proof, answer), w.clock);
  }

  lemma OtherDateStays(v: World, u: World, contact: Id, k: Id)
    requires contact in v.contacts && contact in u.contacts
    requires u == v.(contacts := v.contacts[contact := v.contacts[contact].(guest := u.contacts[contact].guest)])
    requires k in v.contacts && IsRetention(v, k, v.contacts[k].retainUntil)
    ensures k in u.contacts && u.contacts[k].retainUntil == v.contacts[k].retainUntil
    ensures IsRetention(u, k, u.contacts[k].retainUntil)
  {
    assert ContactLoans(u, k) == ContactLoans(v, k);
    RetentionFrame(v, u, k, v.contacts[k].retainUntil);
  }

  /** The verified identity of a contact is no part of its date. */
  lemma IdentityIsNoDate(v: World, u: World, contact: Id)
    requires Core(v) && contact in v.contacts && contact in u.contacts
    requires forall k | k in v.contacts && k != contact :: IsRetention(v, k, v.contacts[k].retainUntil)
    requires u == v.(contacts := v.contacts[contact := v.contacts[contact].(guest := u.contacts[contact].guest)])
    ensures Inv(Recached(u, contact))
  {
    hide LoansOk, CopiesOk, ConfsOk, ContactsOk, NoticesOk, LogOk, IsRetention;
    ContactEditsKeepCore(v, u);
    forall k | k in u.contacts && k != contact
      ensures IsRetention(u, k, u.contacts[k].retainUntil)
    {
      OtherDateStays(v, u, contact, k);
    }
    RecachedKeepsInv(u, Some(contact));
  }

  lemma AnswerKeepsInv(w: World, l: Id, token: P.Secret, email: string, nickname: string, proof: P.Secret, answer: P.Answer,
                       begun: Time)
    requires Inv(w) && begun <= w.clock
    ensures Inv(AnswerGuest(w, l, token, email, nickname, proof, answer, begun))
  {
    if AnswerReply(w, l, token, email, nickname, proof, answer) == Done && PendingChain(w, l) {
      var loan := w.loans[l];
      var copy := w.copies[loan.copy];
      var conf := w.confs[l].(row := P.AnswerLink(w.confs[l].row, l, token, email, nickname, proof, answer, w.clock).0);
      var received := answer == P.SaysReceived;
      OutstandingStands(w, l);
      AnswerFits(w, l, token, email, nickname, proof, answer, begun);
      IdentifiedKeepsInv(w, l, if received then loan.(status := HandedOver) else loan,
                         if received then copy.(status := LentOut) else copy, Some(conf),
                         Event(l, if received then LoanReceived else LoanDenied, None, begun, None),
                         received, nickname, email, w.confs[l].row.verifiedAt);
    }
  }

  lemma IdentifiedKeepsInv(w: World, l: Id, loan: Loan, copy: Copy, conf: Option<Confirmation>, e: Event, rejects: bool,
                           nickname: string, email: string, verifiedAt: Option<P.Time>)
    requires Inv(w) && Fits(w, l, loan, copy, conf, e) && loan.borrower.contact.Some?
    ensures
      var contact := loan.borrower.contact.value;
      Inv(Recached(Identified(Written(w, l, loan, copy, conf, e, rejects), contact, nickname, email, verifiedAt), contact))
  {
    hide LoansOk, CopiesOk, ConfsOk, NoticesOk, ContactsOk, LogOk, IsRetention, ConfFits, CopyFits, Replay, HasEvent;
    var v := Written(w, l, loan, copy, conf, e, rejects);
    var contact := loan.borrower.contact.value;
    WrittenKeepsCore(w, l, loan, copy, conf, e, rejects);
    forall k | k in v.contacts && k != contact
      ensures IsRetention(v, k, v.contacts[k].retainUntil)
    {
      WrittenLeavesOtherDates(w, l, loan, copy, conf, e, rejects, k);
    }
    IdentityIsNoDate(v, Identified(v, contact, nickname, email, verifiedAt), contact);
  }
}
