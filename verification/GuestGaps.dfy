/**
 * Tables written before the date cache existed. A contact's date is then exact or still missing, and a
 * missing date changes nothing but dates: every step goes as it would on complete tables.
 */
module GuestGaps {
  import opened Wrappers
  import opened GuestModel
  import opened GuestInvariant
  import opened GuestSteps
  import opened GuestUpkeep
  import opened GuestRuns
  import P = GuestProtocol

  /** The rules of the tables, with dates that are exact or missing. */
  ghost predicate Sound(w: World) {
    Core(w) && CacheSound(w)
  }

  /** `w` is `u` with some dates missing. */
  predicate Gaps(w: World, u: World) {
    && w.(contacts := map[]) == u.(contacts := map[])
    && w.contacts.Keys == u.contacts.Keys
    && forall c | c in w.contacts ::
         w.contacts[c] == u.contacts[c] || w.contacts[c] == u.contacts[c].(retainUntil := None)
  }

  lemma GapsShareRows(w: World, u: World)
    requires Gaps(w, u)
    ensures w.clock == u.clock && w.copies == u.copies && w.loans == u.loans && w.confs == u.confs
    ensures w.contacts.Keys == u.contacts.Keys
  {
  }

  lemma GapsMoveNoDate(w: World, u: World, c: Id, r: Option<Time>)
    requires Gaps(w, u) && c in w.contacts
    ensures IsRetention(w, c, r) <==> IsRetention(u, c, r)
  {
    assert ContactLoans(w, c) == ContactLoans(u, c);
    if IsRetention(w, c, r) {
      RetentionFrame(w, u, c, r);
    }
    if IsRetention(u, c, r) {
      RetentionFrame(u, w, c, r);
    }
  }

  lemma RecachedKeepsGaps(w: World, u: World, c: Id)
    requires Gaps(w, u)
    ensures Gaps(Recached(w, c), Recached(u, c))
  {
    if c in w.contacts {
      GapsMoveNoDate(w, u, c, RetentionOf(w, c));
      GapsMoveNoDate(w, u, c, RetentionOf(u, c));
      hide IsRetention;
      if IsRetention(w, c, RetentionOf(w, c)) && IsRetention(w, c, RetentionOf(u, c)) {
        RetentionUnique(w, c, RetentionOf(w, c), RetentionOf(u, c));
      }
    }
  }

  lemma WrittenKeepsGaps(w: World, u: World, l: Id, loan: Loan, copy: Copy, conf: Option<Confirmation>, e: Event, rejects: bool)
    requires Gaps(w, u)
    ensures Gaps(Written(w, l, loan, copy, conf, e, rejects), Written(u, l, loan, copy, conf, e, rejects))
  {
  }

  // ----- no step but the retention run reads a date -----

  lemma HandoverKeepsGaps(w: World, u: World, owner: Id, contact: Id, c: Id, l: Id, handedDay: nat, dueDay: Option<nat>,
                          begun: Time)
    requires Gaps(w, u)
    ensures Gaps(Lend(w, owner, contact, c, l, handedDay, dueDay, begun),
                 Lend(u, owner, contact, c, l, handedDay, dueDay, begun))
    ensures Gaps(OpenConfirmation(w, owner, contact, c, l, handedDay, dueDay, begun),
                 OpenConfirmation(u, owner, contact, c, l, handedDay, dueDay, begun))
  {
    assert HandoverReply(w, owner, contact, c, handedDay, dueDay) == HandoverReply(u, owner, contact, c, handedDay, dueDay);
    if HandoverReply(w, owner, contact, c, handedDay, dueDay) == Done {
      var copy := w.copies[c].(status := LentOut, holder := None, contact := Some(contact));
      var loan := NewLoan(owner, contact, c, HandedOver, handedDay, dueDay);
      var e := Event(l, GuestLoanRecorded, Some(owner), begun, None);
      WrittenKeepsGaps(w, u, l, loan, copy, None, e, true);
      RecachedKeepsGaps(Written(w, l, loan, copy, None, e, true), Written(u, l, loan, copy, None, e, true), contact);
      copy := copy.(status := Reserved);
      loan := NewLoan(owner, contact, c, PendingConfirmation, handedDay, dueDay);
      e := Event(l, ConfirmationRequested, Some(owner), begun, None);
      var conf := Some(Confirmation(Some(contact), P.NEW_ROW));
      WrittenKeepsGaps(w, u, l, loan, copy, conf, e, false);
      RecachedKeepsGaps(Written(w, l, loan, copy, conf, e, false), Written(u, l, loan, copy, conf, e, false), contact);
    }
  }

  lemma ApplyKeepsGaps(w: World, u: World, owner: Id, l: Id, action: GuestAction, day: Option<nat>, begun: Time)
    requires Gaps(w, u)
    ensures Gaps(Apply(w, owner, l, action, day, begun), Apply(u, owner, l, action, day, begun))
  {
    assert ApplyReply(w, owner, l, action, day) == ApplyReply(u, owner, l, action, day);
    if ApplyReply(w, owner, l, action, day) == Done {
      var loan := w.loans[l];
      var t := ResolveGuest(loan.status, action).value;
      var e := Event(l, t.event, Some(owner), begun, EffectiveAt(action, day, w.clock));
      var newLoan, newCopy := AppliedLoan(loan, t, w.clock), AppliedCopy(w.copies[loan.copy], t);
      WrittenKeepsGaps(w, u, l, newLoan, newCopy, None, e, false);
      if loan.borrower.contact.Some? {
        RecachedKeepsGaps(Written(w, l, newLoan, newCopy, None, e, false), Written(u, l, newLoan, newCopy, None, e, false),
                          loan.borrower.contact.value);
      }
    }
  }

  lemma DecideKeepsGaps(w: World, u: World, owner: Id, l: Id, decision: P.Decision, begun: Time)
    requires Gaps(w, u)
    ensures Gaps(Decide(w, owner, l, decision, begun), Decide(u, owner, l, decision, begun))
  {
    assert DecideReply(w, owner, l, decision) == DecideReply(u, owner, l, decision) && PendingChain(w, l) == PendingChain(u, l);
    if DecideReply(w, owner, l, decision) == Done && PendingChain(w, l) {
      var loan := w.loans[l];
      var copy := w.copies[loan.copy];
      var conf := Some(w.confs[l].(row := P.Decide(w.confs[l].row, decision, w.clock).0));
      var cancels := decision == P.CancelHandover;
      var newLoan := loan.(status := if cancels then Cancelled else HandedOver);
      var newCopy := if cancels then copy.(status := Available, holder := Some(owner), contact := None) else copy.(status := LentOut);
      var e := Event(l, if cancels then HandoverCancelled else LoanOwnerRecorded, Some(owner), begun, None);
      WrittenKeepsGaps(w, u, l, newLoan, newCopy, conf, e, !cancels);
      RecachedKeepsGaps(Written(w, l, newLoan, newCopy, conf, e, !cancels), Written(u, l, newLoan, newCopy, conf, e, !cancels),
                        loan.borrower.contact.value);
    }
  }

  lemma IdentifiedKeepsGaps(w: World, u: World, contact: Id, nickname: string, email: string, verifiedAt: Option<Time>)
    requires Gaps(w, u)
    ensures Gaps(Identified(w, contact, nickname, email, verifiedAt), Identified(u, contact, nickname, email, verifiedAt))
  {
  }

  lemma AnswerKeepsGaps(w: World, u: World, l: Id, token: P.Secret, email: string, nickname: string, proof: P.Secret,
                        answer: P.Answer, begun: Time)
    requires Gaps(w, u)
    ensures Gaps(AnswerGuest(w, l, token, email, nickname, proof, answer, begun),
                 AnswerGuest(u, l, token, email, nickname, proof, answer, begun))
  {
    assert AnswerReply(w, l, token, email, nickname, proof, answer) == AnswerReply(u, l, token, email, nickname, proof, answer);
    assert PendingChain(w, l) == PendingChain(u, l);
    if AnswerReply(w, l, token, email, nickname, proof, answer) == Done && PendingChain(w, l) {
      var loan := w.loans[l];
      var copy := w.copies[loan.copy];
      var before := w.confs[l].row;
      var conf := Some(w.confs[l].(row := P.AnswerLink(before, l, token, email, nickname, proof, answer, w.clock).0));
      var contact := loan.borrower.contact.value;
      var received := answer == P.SaysReceived;
      var newLoan := if received then loan.(status := HandedOver) else loan;
      var newCopy := if received then copy.(status := LentOut) else copy;
      var e := Event(l, if received then LoanReceived else LoanDenied, None, begun, None);
      WrittenKeepsGaps(w, u, l, newLoan, newCopy, conf, e, received);
      var w1, u1 := Written(w, l, newLoan, newCopy, conf, e, received), Written(u, l, newLoan, newCopy, conf, e, received);
      IdentifiedKeepsGaps(w1, u1, contact, nickname, email, before.verifiedAt);
      RecachedKeepsGaps(Identified(w1, contact, nickname, email, before.verifiedAt),
                        Identified(u1, contact, nickname, email, before.verifiedAt), contact);
    }
  }

  lemma AddContactKeepsGaps(w: World, u: World, owner: Id, c: Id, begun: Time)
    requires Gaps(w, u)
    ensures Gaps(AddContact(w, owner, c, begun), AddContact(u, owner, c, begun))
  {
  }

  lemma ErasedKeepsGaps(w: World, u: World, gone: set<Id>)
    requires Gaps(w, u)
    ensures Gaps(Erased(w, gone), Erased(u, gone))
  {
    hide Forgetting, LoanForgetting;
  }

  lemma EraseContactKeepsGaps(w: World, u: World, owner: Id, c: Id)
    requires Gaps(w, u)
    ensures Gaps(EraseContact(w, owner, c), EraseContact(u, owner, c))
  {
    assert EraseReply(w, owner, c) == EraseReply(u, owner, c);
    ErasedKeepsGaps(w, u, {c});
    hide EraseReply, Erased;
  }

  lemma AddCopyKeepsGaps(w: World, u: World, owner: Id, c: Id)
    requires Gaps(w, u)
    ensures Gaps(AddCopy(w, owner, c), AddCopy(u, owner, c))
  {
  }

  lemma EditStatusKeepsGaps(w: World, u: World, owner: Id, c: Id, available: bool)
    requires Gaps(w, u)
    ensures Gaps(EditStatus(w, owner, c, available), EditStatus(u, owner, c, available))
  {
  }

  lemma RestoreKeepsGaps(w: World, u: World, owner: Id, c: Id)
    requires Gaps(w, u)
    ensures Gaps(Restore(w, owner, c), Restore(u, owner, c))
  {
  }

  lemma RemoveKeepsGaps(w: World, u: World, owner: Id, c: Id)
    requires Gaps(w, u)
    ensures Gaps(Remove(w, owner, c), Remove(u, owner, c))
  {
  }

  lemma RequestStepsKeepGaps(w: World, u: World, person: Id, c: Id, l: Id)
    requires Gaps(w, u)
    ensures Gaps(Archive(w, person, c), Archive(u, person, c))
    ensures Gaps(AskToBorrow(w, person, c, l), AskToBorrow(u, person, c, l))
  {
  }

  lemma RowStepKeepsGaps(w: World, u: World, s: Step)
    requires Gaps(w, u) && RowStep(s)
    ensures Gaps(Next(w, s), Next(u, s))
  {
    RowStepIsRequest(w, s);
    RowStepIsRequest(u, s);
  }

  lemma TickKeepsGaps(w: World, u: World, later: Time)
    requires Gaps(w, u)
    ensures Gaps(Next(w, TimePasses(later)), Next(u, TimePasses(later)))
  {
  }

  predicate RetentionStep(s: Step) {
    s.BackfillBatch? || s.CleanupBatch?
  }

  /** Missing dates stay missing or are filled in; everything else goes on as it would without them. */
  lemma NextKeepsGaps(w: World, u: World, s: Step)
    requires Gaps(w, u) && !RetentionStep(s)
    ensures Gaps(Next(w, s), Next(u, s))
  {
    hide Gaps, Lend, OpenConfirmation, Apply, Decide, AnswerGuest, IssueLink, RequestCode, VerifyCode, CodeMailFailed,
         LinkMailFailed, EraseContact, AddContact, AddCopy, EditStatus, Archive, Restore, Remove, AskToBorrow, Backfilled, Cleaned;
    GapsShareRows(w, u);
    if Begun(s) > w.clock {
      return;
    }
    if RowStep(s) {
      RowStepKeepsGaps(w, u, s);
      return;
    }
    match s {
      case DoLend(owner, contact, copy, loan, handedDay, dueDay, begun) =>
        HandoverKeepsGaps(w, u, owner, contact, copy, loan, handedDay, dueDay, begun);
      case DoOpenConfirmation(owner, contact, copy, loan, handedDay, dueDay, begun) =>
        HandoverKeepsGaps(w, u, owner, contact, copy, loan, handedDay, dueDay, begun);
      case DoApply(owner, loan, action, day, begun) => ApplyKeepsGaps(w, u, owner, loan, action, day, begun);
      case DoDecide(owner, loan, decision, begun) => DecideKeepsGaps(w, u, owner, loan, decision, begun);
      case DoAnswer(loan, token, email, nickname, proof, answer, begun) =>
        AnswerKeepsGaps(w, u, loan, token, email, nickname, proof, answer, begun);
      case DoAddContact(owner, contact, begun) => AddContactKeepsGaps(w, u, owner, contact, begun);
      case DoEraseContact(owner, contact) => EraseContactKeepsGaps(w, u, owner, contact);
      case DoAddCopy(owner, copy) => AddCopyKeepsGaps(w, u, owner, copy);
      case DoEditStatus(owner, copy, available) => EditStatusKeepsGaps(w, u, owner, copy, available);
      case DoArchive(owner, copy) => RequestStepsKeepGaps(w, u, owner, copy, 0);
      case DoRestore(owner, copy) => RestoreKeepsGaps(w, u, owner, copy);
      case DoRemove(owner, copy) => RemoveKeepsGaps(w, u, owner, copy);
      case ReaderAsks(user, copy, loan) => RequestStepsKeepGaps(w, u, user, copy, loan);
      case TimePasses(later) => TickKeepsGaps(w, u, later);
      case _ =>
    }
  }

  // ----- so every step keeps sound tables sound -----

  lemma CompletedIsExact(w: World)
    requires Sound(w)
    ensures Gaps(w, Backfilled(w, w.contacts.Keys)) && Inv(Backfilled(w, w.contacts.Keys))
  {
    hide LoanOk, CopiesOk, ConfsOk, NoticesOk, ContactsOk, IsRetention;
    var all := w.contacts.Keys;
    BackfilledKeeps(w, all);
    forall c | c in w.contacts
      ensures IsRetention(Backfilled(w, all), c, Backfilled(w, all).contacts[c].retainUntil)
    {
      BackfilledDate(w, all, c);
    }
  }

  lemma GapsOfExactAreSound(w: World, u: World)
    requires Gaps(w, u) && Inv(u)
    ensures Sound(w)
  {
    hide LoansOk, CopiesOk, ConfsOk, NoticesOk, ContactsOk, LogOk, IsRetention;
    ContactEditsKeepCore(u, w);
    forall c | c in w.contacts && w.contacts[c].retainUntil.Some?
      ensures IsRetention(w, c, w.contacts[c].retainUntil)
    {
      GapsMoveNoDate(w, u, c, w.contacts[c].retainUntil);
    }
  }

  /** Every transaction keeps the rules of the tables, and every date it leaves is exact or still missing. */
  lemma NextKeepsSound(w: World, s: Step)
    requires Sound(w)
    ensures Sound(Next(w, s))
  {
    hide Core, CacheSound, Gaps, Inv;
    match s {
      case BackfillBatch(batch) => BackfillKeepsSound(w, batch);
      case CleanupBatch(now, batch) => CleanupKeepsSound(w, now, batch);
      case _ =>
        var u := Backfilled(w, w.contacts.Keys);
        CompletedIsExact(w);
        NextKeepsGaps(w, u, s);
        NextKeepsInv(u, s);
        GapsOfExactAreSound(Next(w, s), Next(u, s));
    }
  }

  lemma BackfillKeepsSound(w: World, batch: set<Id>)
    requires Sound(w)
    ensures Sound(Backfilled(w, batch))
  {
    BackfilledKeeps(w, batch);
  }

  lemma CleanupKeepsSound(w: World, now: Time, batch: set<Id>)
    requires Sound(w)
    ensures Sound(Cleaned(w, now, batch))
  {
    CleanedKeeps(w, now, batch);
  }

  /** The tables after some steps. */
  ghost function After(w: World, steps: seq<Step>): World {
    if |steps| == 0 then w else Next(After(w, steps[..|steps| - 1]), steps[|steps| - 1])
  }

  lemma {:induction false} AfterIsSound(w: World, steps: seq<Step>)
    requires Sound(w)
    ensures Sound(After(w, steps))
  {
    if |steps| > 0 {
      AfterIsSound(w, steps[..|steps| - 1]);
      NextKeepsSound(After(w, steps[..|steps| - 1]), steps[|steps| - 1]);
    }
  }
}
