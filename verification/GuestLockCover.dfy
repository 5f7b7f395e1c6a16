/**
 * The data and the locks belong together: every row that a transaction writes is among the rows its lock
 * list names.
 */
module GuestLockCover {
  import opened Counting
  import opened Wrappers
  import opened GuestModel
  import opened GuestSteps
  import opened GuestRuns
  import LO = LockOrder
  import LP = LockPlans
  import GL = GuestLocks
  import P = GuestProtocol

  function LoanResource(loan: Loan, l: Id): LO.Resource {
    if loan.borrower.Guest? then GL.Loan(l) else GL.Rival(l, loan.copy)
  }

  /** All rows inserted, changed or deleted between `w` and `v` are in `locks`. */
  predicate OnlyWrites(w: World, v: World, locks: set<LO.Resource>) {
    && (forall c | c in w.contacts :: (c in v.contacts && v.contacts[c] == w.contacts[c]) || GL.Contact(c) in locks)
    && (forall c | c in v.contacts && c !in w.contacts :: GL.Contact(c) in locks)
    && (forall c | c in w.copies :: (c in v.copies && v.copies[c] == w.copies[c]) || GL.Copy(c) in locks)
    && (forall c | c in v.copies && c !in w.copies :: GL.Copy(c) in locks)
    && (forall l | l in w.loans ::
          (l in v.loans && v.loans[l] == w.loans[l]) || LoanResource(w.loans[l], l) in locks)
    && (forall l | l in v.loans ::
          (l in w.loans && v.loans[l] == w.loans[l]) || LoanResource(v.loans[l], l) in locks)
    && (forall l | l in w.confs :: (l in v.confs && v.confs[l] == w.confs[l]) || GL.Confirmation(l) in locks)
    && (forall l | l in v.confs && l !in w.confs :: GL.Confirmation(l) in locks)
  }

  function Locks(op: GL.Operation): set<LO.Resource> {
    set want | want in GL.Plan(op) :: want.r
  }

  // ----- which operation a step is -----

  function RivalsOf(w: World, c: Id): seq<Id> {
    Listed(set l | l in w.loans && Rival(w.loans[l], c))
  }

  function MaybeOf(contact: Option<Id>): GL.Maybe {
    if contact.None? then GL.Nobody else GL.Somebody(contact.value)
  }

  function HeldCopies(w: World, gone: set<Id>): seq<Id> {
    Listed(set c | c in w.copies && w.copies[c].contact.Some? && w.copies[c].contact.value in gone)
  }

  function LoansTo(w: World, gone: set<Id>): seq<Id> {
    Listed(set l | l in w.loans && w.loans[l].borrower.Guest? && w.loans[l].borrower.contact.Some?
                   && w.loans[l].borrower.contact.value in gone)
  }

  function ConfirmationsOf(w: World, gone: set<Id>): seq<Id> {
    Listed(set l | l in w.confs && w.confs[l].contact.Some? && w.confs[l].contact.value in gone)
  }

  /** The lock list of a step, from the rows its unlocked lookup finds; without those rows it has none. */
  function OperationOf(w: World, s: Step): Option<GL.Operation> {
    match s
    case DoLend(_, contact, copy, loan, _, _, _) => Some(GL.CreateGuestLoan(contact, copy, loan, RivalsOf(w, copy)))
    case DoOpenConfirmation(_, contact, copy, loan, _, _, _) => Some(GL.CreateConfirmation(contact, copy, loan, loan))
    case DoApply(_, l, _, _, _) =>
      if l in w.loans && w.loans[l].borrower.Guest?
      then Some(GL.ApplyTransition(MaybeOf(w.loans[l].borrower.contact), w.loans[l].copy, l)) else None
    case DoDecide(_, l, _, _) =>
      if l in w.loans && l in w.confs
      then Some(GL.Decide(MaybeOf(w.confs[l].contact), w.loans[l].copy, l, l, RivalsOf(w, w.loans[l].copy))) else None
    case DoIssueLink(_, l, _) =>
      if l in w.loans && l in w.confs
      then Some(GL.RotateLink(MaybeOf(w.confs[l].contact), w.loans[l].copy, l, l)) else None
    case DoAnswer(l, _, _, _, _, _, _) =>
      if l in w.loans && l in w.confs && w.confs[l].contact.Some?
      then Some(GL.Answer(w.confs[l].contact.value, w.loans[l].copy, l, l, RivalsOf(w, w.loans[l].copy))) else None
    case DoRequestCode(l, _, _, _, _, _) => Some(GL.CodeStep(l))
    case DoVerifyCode(l, _, _, _, _, _) => Some(GL.CodeStep(l))
    case CodeMailFails(l, _) => Some(GL.CodeStep(l))
    case LinkMailFails(l, _) => Some(GL.CodeStep(l))
    case DoEraseContact(_, c) =>
      Some(GL.DeleteContact(c, HeldCopies(w, {c}), LoansTo(w, {c}), ConfirmationsOf(w, {c})))
    case DoEditStatus(_, c, _) => Some(GL.EditCopy(c))
    case DoArchive(_, c) => Some(GL.ArchiveCopy(c, RivalsOf(w, c)))
    case DoRestore(_, c) => Some(GL.EditCopy(c))
    case DoRemove(_, c) => Some(GL.EditCopy(c))
    case BackfillBatch(batch) => Some(GL.BackfillBatch(Listed(batch)))
    case CleanupBatch(_, batch) =>
      Some(GL.CleanupBatch(Listed(batch), HeldCopies(w, batch), LoansTo(w, batch), ConfirmationsOf(w, batch)))
    case DoAddContact(_, contact, _) => Some(GL.CreateContact(contact))
    case DoAddCopy(_, copy) => Some(GL.EditCopy(copy))
    case ReaderAsks(_, copy, loan) => Some(GL.RegisteredLoan(copy, loan, []))
    case TimePasses(_) => None
  }

  /** Every such list is one the lock model admits. */
  lemma StepsAreOrdered(w: World, s: Step)
    requires OperationOf(w, s).Some?
    ensures GL.Ordered(OperationOf(w, s).value)
    ensures LO.Disciplined({}, GL.Plan(OperationOf(w, s).value))
  {
    GL.PlansAreDisciplined(OperationOf(w, s).value);
  }

  // ----- what is in a plan -----

  lemma WaitsName(rs: seq<LO.Resource>, r: LO.Resource)
    requires r in rs
    ensures LO.Wait(r) in LP.Waits(rs)
  {
    var i :| 0 <= i < |rs| && rs[i] == r;
    assert LP.Waits(rs)[i] == LO.Wait(r);
  }

  lemma SkipsName(rs: seq<LO.Resource>, r: LO.Resource)
    requires r in rs
    ensures LO.SkipLocked(r) in LP.Skips(rs)
  {
    var i :| 0 <= i < |rs| && rs[i] == r;
    assert LP.Skips(rs)[i] == LO.SkipLocked(r);
  }

  lemma RowsName(level: nat, ids: seq<Id>, id: Id)
    requires id in ids
    ensures LO.Row(level, id) in LP.Rows(level, ids)
  {
    var i :| 0 <= i < |ids| && ids[i] == id;
    assert LP.Rows(level, ids)[i] == LO.Row(level, id);
  }

  lemma RivalsName(c: Id, ids: seq<Id>, id: Id)
    requires id in ids
    ensures GL.Rival(id, c) in GL.Rivals(c, ids)
  {
    var i :| 0 <= i < |ids| && ids[i] == id;
    assert GL.Rivals(c, ids)[i] == GL.Rival(id, c);
  }

  /** A plan that waits for a list of rows locks each of them. */
  lemma PlanLocks(op: GL.Operation, rs: seq<LO.Resource>, r: LO.Resource)
    requires GL.Plan(op) == LP.Waits(rs) && r in rs
    ensures r in Locks(op)
  {
    WaitsName(rs, r);
    assert LO.Wait(r).r == r;
  }

  /** The locks of a guest transaction on one chain. */
  predicate HasChain(locks: set<LO.Resource>, contact: Option<Id>, copy: Id, l: Id) {
    && (contact.Some? ==> GL.Contact(contact.value) in locks)
    && GL.Copy(copy) in locks && GL.Loan(l) in locks
  }

  predicate HasRivals(locks: set<LO.Resource>, w: World, copy: Id) {
    forall l | l in w.loans && Rival(w.loans[l], copy) :: GL.Rival(l, copy) in locks
  }

  lemma RivalsAreNamed(w: World, copy: Id, op: GL.Operation, before: seq<LO.Resource>, after: seq<LO.Resource>)
    requires GL.Plan(op) == LP.Waits(before + GL.Rivals(copy, RivalsOf(w, copy)) + after)
    ensures HasRivals(Locks(op), w, copy)
  {
    forall l | l in w.loans && Rival(w.loans[l], copy)
      ensures GL.Rival(l, copy) in Locks(op)
    {
      assert l in RivalsOf(w, copy);
      RivalsName(copy, RivalsOf(w, copy), l);
      PlanLocks(op, before + GL.Rivals(copy, RivalsOf(w, copy)) + after, GL.Rival(l, copy));
    }
  }

  lemma LendLocks(w: World, contact: Id, copy: Id, l: Id)
    ensures
      var locks := Locks(GL.CreateGuestLoan(contact, copy, l, RivalsOf(w, copy)));
      HasChain(locks, Some(contact), copy, l) && HasRivals(locks, w, copy)
  {
    var op := GL.CreateGuestLoan(contact, copy, l, RivalsOf(w, copy));
    var chain := [GL.Contact(contact), GL.Copy(copy), GL.Loan(l)];
    var rs := chain + [GL.Copy(copy)] + GL.Rivals(copy, RivalsOf(w, copy)) + [GL.Contact(contact)];
    assert forall r | r in chain :: r in rs;
    PlanLocks(op, rs, chain[0]);
    PlanLocks(op, rs, chain[1]);
    PlanLocks(op, rs, chain[2]);
    RivalsAreNamed(w, copy, op, chain + [GL.Copy(copy)], [GL.Contact(contact)]);
  }

  lemma OpenLocks(contact: Id, copy: Id, l: Id)
    ensures
      var locks := Locks(GL.CreateConfirmation(contact, copy, l, l));
      HasChain(locks, Some(contact), copy, l) && GL.Confirmation(l) in locks
  {
    var op := GL.CreateConfirmation(contact, copy, l, l);
    var chain := [GL.Contact(contact), GL.Copy(copy), GL.Loan(l)];
    var rs := chain + [GL.Copy(copy)] + [GL.Confirmation(l)] + [GL.Contact(contact)];
    assert forall r | r in chain :: r in rs;
    PlanLocks(op, rs, chain[0]);
    PlanLocks(op, rs, chain[1]);
    PlanLocks(op, rs, chain[2]);
    PlanLocks(op, rs, GL.Confirmation(l));
  }

  lemma ApplyLocks(contact: Option<Id>, copy: Id, l: Id)
    ensures HasChain(Locks(GL.ApplyTransition(MaybeOf(contact), copy, l)), contact, copy, l)
  {
    var op := GL.ApplyTransition(MaybeOf(contact), copy, l);
    var mine := GL.MaybeContact(MaybeOf(contact));
    var rs := mine + [GL.Copy(copy), GL.Loan(l)] + [GL.Copy(copy)] + mine;
    assert GL.Copy(copy) == [GL.Copy(copy), GL.Loan(l)][0] && GL.Loan(l) == [GL.Copy(copy), GL.Loan(l)][1];
    PlanLocks(op, rs, GL.Copy(copy));
    PlanLocks(op, rs, GL.Loan(l));
    if contact.Some? {
      assert mine[0] == GL.Contact(contact.value);
      PlanLocks(op, rs, GL.Contact(contact.value));
    }
  }

  lemma DecideLocks(w: World, contact: Option<Id>, copy: Id, l: Id)
    ensures
      var locks := Locks(GL.Decide(MaybeOf(contact), copy, l, l, RivalsOf(w, copy)));
      HasChain(locks, contact, copy, l) && HasRivals(locks, w, copy) && GL.Confirmation(l) in locks
  {
    var op := GL.Decide(MaybeOf(contact), copy, l, l, RivalsOf(w, copy));
    var mine := GL.MaybeContact(MaybeOf(contact));
    var chain := [GL.Copy(copy), GL.Loan(l), GL.Confirmation(l)];
    var before := mine + chain + [GL.Loan(l), GL.Copy(copy)];
    var after := [GL.Confirmation(l)] + mine;
    var rs := before + GL.Rivals(copy, RivalsOf(w, copy)) + after;
    assert rs == mine + chain + [GL.Loan(l), GL.Copy(copy)] + GL.Rivals(copy, RivalsOf(w, copy)) + [GL.Confirmation(l)] + mine;
    assert forall r | r in chain || r in mine :: r in rs;
    PlanLocks(op, rs, chain[0]);
    PlanLocks(op, rs, chain[1]);
    PlanLocks(op, rs, chain[2]);
    if contact.Some? {
      PlanLocks(op, rs, mine[0]);
    }
    RivalsAreNamed(w, copy, op, before, after);
  }

  lemma AnswerLocks(w: World, contact: Id, copy: Id, l: Id)
    ensures
      var locks := Locks(GL.Answer(contact, copy, l, l, RivalsOf(w, copy)));
      HasChain(locks, Some(contact), copy, l) && HasRivals(locks, w, copy) && GL.Confirmation(l) in locks
  {
    var op, other := GL.Answer(contact, copy, l, l, RivalsOf(w, copy)), GL.Decide(GL.Somebody(contact), copy, l, l, RivalsOf(w, copy));
    assert GL.MaybeContact(GL.Somebody(contact)) + [GL.Copy(copy), GL.Loan(l), GL.Confirmation(l)]
        == [GL.Contact(contact), GL.Copy(copy), GL.Loan(l), GL.Confirmation(l)];
    assert GL.Plan(op) == GL.Plan(other);
    DecideLocks(w, Some(contact), copy, l);
  }

  // ----- what a transaction writes -----

  /** A guest transaction writes its loan, its copy, its confirmation, the rivals and its contact; nothing else. */
  lemma WritesAreLocked(w: World, v: World, l: Id, loan: Loan, copy: Copy, conf: Option<Confirmation>, e: Event,
                        rejects: bool, contact: Option<Id>, locks: set<LO.Resource>)
    requires loan.borrower.Guest? && (l in w.loans ==> w.loans[l].borrower.Guest?)
    requires HasChain(locks, contact, loan.copy, l)
    requires conf.Some? ==> GL.Confirmation(l) in locks
    requires rejects ==> HasRivals(locks, w, loan.copy)
    requires
      var u := Written(w, l, loan, copy, conf, e, rejects);
      && v.copies == u.copies && v.loans == u.loans && v.confs == u.confs
      && v.contacts.Keys == u.contacts.Keys
      && forall c | c in v.contacts && contact != Some(c) :: v.contacts[c] == u.contacts[c]
    ensures OnlyWrites(w, v, locks)
  {
  }

  lemma LendIsLocked(w: World, owner: Id, contact: Id, c: Id, l: Id, handedDay: nat, dueDay: Option<nat>, begun: Time)
    requires l !in w.loans
    ensures OnlyWrites(w, Lend(w, owner, contact, c, l, handedDay, dueDay, begun),
                       Locks(GL.CreateGuestLoan(contact, c, l, RivalsOf(w, c))))
  {
    hide Locks;
    if HandoverReply(w, owner, contact, c, handedDay, dueDay) == Done {
      LendLocks(w, contact, c, l);
      WritesAreLocked(w, Lend(w, owner, contact, c, l, handedDay, dueDay, begun), l,
                      NewLoan(owner, contact, c, HandedOver, handedDay, dueDay),
                      w.copies[c].(status := LentOut, holder := None, contact := Some(contact)), None,
                      Event(l, GuestLoanRecorded, Some(owner), begun, None), true,
                      Some(contact), Locks(GL.CreateGuestLoan(contact, c, l, RivalsOf(w, c))));
    }
  }

  lemma OpeningIsLocked(w: World, owner: Id, contact: Id, c: Id, l: Id, handedDay: nat, dueDay: Option<nat>, begun: Time)
    requires l !in w.loans
    ensures OnlyWrites(w, OpenConfirmation(w, owner, contact, c, l, handedDay, dueDay, begun),
                       Locks(GL.CreateConfirmation(contact, c, l, l)))
  {
    hide Locks;
    if HandoverReply(w, owner, contact, c, handedDay, dueDay) == Done {
      OpenLocks(contact, c, l);
      WritesAreLocked(w, OpenConfirmation(w, owner, contact, c, l, handedDay, dueDay, begun), l,
                      NewLoan(owner, contact, c, PendingConfirmation, handedDay, dueDay),
                      w.copies[c].(status := Reserved, holder := None, contact := Some(contact)),
                      Some(Confirmation(Some(contact), P.NEW_ROW)),
                      Event(l, ConfirmationRequested, Some(owner), begun, None), false,
                      Some(contact), Locks(GL.CreateConfirmation(contact, c, l, l)));
    }
  }

  lemma ApplyIsLocked(w: World, owner: Id, l: Id, action: GuestAction, day: Option<nat>, begun: Time)
    requires l in w.loans && w.loans[l].borrower.Guest?
    ensures OnlyWrites(w, Apply(w, owner, l, action, day, begun),
                       Locks(GL.ApplyTransition(MaybeOf(w.loans[l].borrower.contact), w.loans[l].copy, l)))
  {
    hide Locks;
    if ApplyReply(w, owner, l, action, day) == Done {
      var loan := w.loans[l];
      var t := ResolveGuest(loan.status, action).value;
      ApplyLocks(loan.borrower.contact, loan.copy, l);
      WritesAreLocked(w, Apply(w, owner, l, action, day, begun), l, AppliedLoan(loan, t, w.clock),
                      AppliedCopy(w.copies[loan.copy], t), None,
                      Event(l, t.event, Some(owner), begun, EffectiveAt(action, day, w.clock)), false,
                      loan.borrower.contact, Locks(GL.ApplyTransition(MaybeOf(loan.borrower.contact), loan.copy, l)));
    }
  }

  lemma DecisionIsLocked(w: World, owner: Id, l: Id, decision: P.Decision, begun: Time)
    requires l in w.loans && l in w.confs
    ensures OnlyWrites(w, Decide(w, owner, l, decision, begun),
                       Locks(GL.Decide(MaybeOf(w.confs[l].contact), w.loans[l].copy, l, l, RivalsOf(w, w.loans[l].copy))))
  {
    hide Locks;
    if DecideReply(w, owner, l, decision) == Done && PendingChain(w, l) {
      var loan := w.loans[l];
      var copy := w.copies[loan.copy];
      var cancels := decision == P.CancelHandover;
      DecideLocks(w, w.confs[l].contact, loan.copy, l);
      WritesAreLocked(w, Decide(w, owner, l, decision, begun), l,
                      loan.(status := if cancels then Cancelled else HandedOver),
                      if cancels then copy.(status := Available, holder := Some(owner), contact := None)
                      else copy.(status := LentOut),
                      Some(w.confs[l].(row := P.Decide(w.confs[l].row, decision, w.clock).0)),
                      Event(l, if cancels then HandoverCancelled else LoanOwnerRecorded, Some(owner), begun, None),
                      !cancels, w.confs[l].contact,
                      Locks(GL.Decide(MaybeOf(w.confs[l].contact), loan.copy, l, l, RivalsOf(w, loan.copy))));
    }
  }

  lemma AnswerIsLocked(w: World, l: Id, token: P.Secret, email: string, nickname: string, proof: P.Secret, answer: P.Answer,
                       begun: Time)
    requires l in w.loans && l in w.confs && w.confs[l].contact.Some?
    ensures OnlyWrites(w, AnswerGuest(w, l, token, email, nickname, proof, answer, begun),
                       Locks(GL.Answer(w.confs[l].contact.value, w.loans[l].copy, l, l, RivalsOf(w, w.loans[l].copy))))
  {
    hide Locks, P.AnswerLink;
    if AnswerReply(w, l, token, email, nickname, proof, answer) == Done && PendingChain(w, l) {
      var loan := w.loans[l];
      var copy := w.copies[loan.copy];
      var received := answer == P.SaysReceived;
      var row := P.AnswerLink(w.confs[l].row, l, token, email, nickname, proof, answer, w.clock).0;
      AnswerLocks(w, w.confs[l].contact.value, loan.copy, l);
      WritesAreLocked(w, AnswerGuest(w, l, token, email, nickname, proof, answer, begun), l,
                      if received then loan.(status := HandedOver) else loan,
                      if received then copy.(status := LentOut) else copy, Some(w.confs[l].(row := row)),
                      Event(l, if received then LoanReceived else LoanDenied, None, begun, None), received,
                      w.confs[l].contact, Locks(GL.Answer(w.confs[l].contact.value, loan.copy, l, l, RivalsOf(w, loan.copy))));
    }
  }

  // ----- single rows -----

  lemma RowIsLocked(w: World, l: Id, row: P.Row, locks: set<LO.Resource>)
    requires l in w.confs && GL.Confirmation(l) in locks
    ensures OnlyWrites(w, WithRow(w, l, row), locks)
  {
  }

  lemma NothingIsLocked(w: World, locks: set<LO.Resource>)
    ensures OnlyWrites(w, w, locks)
  {
  }

  lemma RowStepIsLocked(w: World, s: Step, locks: set<LO.Resource>)
    requires RowStep(s) && GL.Confirmation(s.loan) in locks
    ensures OnlyWrites(w, Next(w, s), locks)
  {
    RowStepIsRequest(w, s);
    hide Next, OnlyWrites;
    NothingIsLocked(w, locks);
    if s.loan in w.confs {
      RowIsLocked(w, s.loan, P.Step(w.confs[s.loan].row, s.loan, RequestOf(s), w.clock).0, locks);
    }
  }

  lemma LinkLocks(contact: Option<Id>, copy: Id, l: Id)
    ensures
      var locks := Locks(GL.RotateLink(MaybeOf(contact), copy, l, l));
      HasChain(locks, contact, copy, l) && GL.Confirmation(l) in locks
  {
    var op := GL.RotateLink(MaybeOf(contact), copy, l, l);
    var mine := GL.MaybeContact(MaybeOf(contact));
    var chain := [GL.Copy(copy), GL.Loan(l), GL.Confirmation(l)];
    var rs := mine + chain;
    assert forall r | r in chain || r in mine :: r in rs;
    PlanLocks(op, rs, chain[0]);
    PlanLocks(op, rs, chain[1]);
    PlanLocks(op, rs, chain[2]);
    if contact.Some? {
      PlanLocks(op, rs, mine[0]);
    }
  }

  lemma CodeLocks(l: Id)
    ensures GL.Confirmation(l) in Locks(GL.CodeStep(l))
  {
    PlanLocks(GL.CodeStep(l), [GL.Confirmation(l)], [GL.Confirmation(l)][0]);
  }

  lemma OneCopyLocks(c: Id)
    ensures GL.Copy(c) in Locks(GL.EditCopy(c))
  {
    PlanLocks(GL.EditCopy(c), [GL.Copy(c)], [GL.Copy(c)][0]);
  }

  lemma OneCopyChanged(w: World, v: World, c: Id, locks: set<LO.Resource>)
    requires GL.Copy(c) in locks && v == w.(copies := v.copies)
    requires forall k | k != c :: (k in v.copies <==> k in w.copies) && (k in w.copies ==> v.copies[k] == w.copies[k])
    ensures OnlyWrites(w, v, locks)
  {
  }

  lemma CopyIsLocked(w: World, owner: Id, c: Id, available: bool)
    ensures OnlyWrites(w, EditStatus(w, owner, c, available), Locks(GL.EditCopy(c)))
    ensures OnlyWrites(w, Restore(w, owner, c), Locks(GL.EditCopy(c)))
    ensures OnlyWrites(w, Remove(w, owner, c), Locks(GL.EditCopy(c)))
    ensures OnlyWrites(w, AddCopy(w, owner, c), Locks(GL.EditCopy(c)))
  {
    OneCopyLocks(c);
    hide Locks, CopyOccupied, OnlyWrites;
    OneCopyChanged(w, EditStatus(w, owner, c, available), c, Locks(GL.EditCopy(c)));
    OneCopyChanged(w, Restore(w, owner, c), c, Locks(GL.EditCopy(c)));
    OneCopyChanged(w, Remove(w, owner, c), c, Locks(GL.EditCopy(c)));
    OneCopyChanged(w, AddCopy(w, owner, c), c, Locks(GL.EditCopy(c)));
  }

  lemma NewContactIsLocked(w: World, owner: Id, c: Id, begun: Time)
    requires c !in w.contacts
    ensures OnlyWrites(w, AddContact(w, owner, c, begun), Locks(GL.CreateContact(c)))
  {
    PlanLocks(GL.CreateContact(c), [GL.Contact(c)], [GL.Contact(c)][0]);
    hide Locks;
  }

  lemma RequestLocks(c: Id, l: Id)
    ensures GL.Rival(l, c) in Locks(GL.RegisteredLoan(c, l, []))
  {
    var rs := [GL.Copy(c)] + GL.Rivals(c, [l] + []) + [GL.Copy(c)];
    RivalsName(c, [l] + [], l);
    PlanLocks(GL.RegisteredLoan(c, l, []), rs, GL.Rival(l, c));
  }

  lemma RequestIsLocked(w: World, user: Id, c: Id, l: Id)
    requires l !in w.loans
    ensures OnlyWrites(w, AskToBorrow(w, user, c, l), Locks(GL.RegisteredLoan(c, l, [])))
  {
    RequestLocks(c, l);
    hide Locks;
  }

  lemma ArchiveLocks(w: World, c: Id)
    ensures
      var locks := Locks(GL.ArchiveCopy(c, RivalsOf(w, c)));
      GL.Copy(c) in locks && HasRivals(locks, w, c)
  {
    var op := GL.ArchiveCopy(c, RivalsOf(w, c));
    var one := [GL.Copy(c)];
    var all := one + GL.Rivals(c, RivalsOf(w, c)) + one;
    assert one[0] in all;
    PlanLocks(op, all, one[0]);
    RivalsAreNamed(w, c, op, one, one);
  }

  lemma ArchivedRows(w: World, owner: Id, c: Id, locks: set<LO.Resource>)
    requires GL.Copy(c) in locks && HasRivals(locks, w, c)
    ensures OnlyWrites(w, Archive(w, owner, c), locks)
  {
  }

  // ----- deletions -----

  lemma DeletionLocks(op: GL.Operation, first: seq<LO.Resource>, copies: seq<Id>, loans: seq<Id>, confs: seq<Id>, last: seq<LO.Resource>)
    requires
      GL.Plan(op) == LP.Waits(first + (LP.Rows(1, copies) + LP.Rows(2, loans) + LP.Rows(3, confs)) + last)
      || GL.Plan(op) == LP.Skips(first) + LP.Waits(LP.Rows(1, copies) + LP.Rows(2, loans) + LP.Rows(3, confs))
    ensures forall r | r in first :: r in Locks(op)
    ensures forall c | c in copies :: GL.Copy(c) in Locks(op)
    ensures forall l | l in loans :: GL.Loan(l) in Locks(op)
    ensures forall l | l in confs :: GL.Confirmation(l) in Locks(op)
  {
    var rows := LP.Rows(1, copies) + LP.Rows(2, loans) + LP.Rows(3, confs);
    forall r | r in first || r in rows
      ensures r in Locks(op)
    {
      if GL.Plan(op) == LP.Waits(first + rows + last) {
        PlanLocks(op, first + rows + last, r);
      } else if r in first {
        SkipsName(first, r);
        assert LO.SkipLocked(r) in GL.Plan(op);
      } else {
        WaitsName(rows, r);
        assert LO.Wait(r) in GL.Plan(op);
      }
    }
    forall c | c in copies
      ensures GL.Copy(c) in rows
    {
      RowsName(1, copies, c);
    }
    forall l | l in loans
      ensures GL.Loan(l) in rows
    {
      RowsName(2, loans, l);
    }
    forall l | l in confs
      ensures GL.Confirmation(l) in rows
    {
      RowsName(3, confs, l);
    }
  }

  lemma ErasureIsLocked(w: World, gone: set<Id>, batch: set<Id>, locks: set<LO.Resource>)
    requires gone <= batch
    requires forall c | c in batch :: GL.Contact(c) in locks
    requires forall c | c in HeldCopies(w, batch) :: GL.Copy(c) in locks
    requires forall l | l in LoansTo(w, batch) :: GL.Loan(l) in locks
    requires forall l | l in ConfirmationsOf(w, batch) :: GL.Confirmation(l) in locks
    ensures OnlyWrites(w, Erased(w, gone), locks)
  {
    var v := Erased(w, gone);
    forall c | c in w.copies
      ensures v.copies[c] == w.copies[c] || GL.Copy(c) in locks
    {
      assert c in HeldCopies(w, batch) || v.copies[c] == w.copies[c];
    }
    forall l | l in w.loans
      ensures v.loans[l] == w.loans[l] || LoanResource(w.loans[l], l) in locks
    {
      assert l in LoansTo(w, batch) || v.loans[l] == w.loans[l];
    }
    forall l | l in w.confs
      ensures v.confs[l] == w.confs[l] || GL.Confirmation(l) in locks
    {
      assert l in ConfirmationsOf(w, batch) || v.confs[l] == w.confs[l];
    }
  }

  lemma DeleteLocks(w: World, c: Id)
    ensures
      var locks := Locks(GL.DeleteContact(c, HeldCopies(w, {c}), LoansTo(w, {c}), ConfirmationsOf(w, {c})));
      && GL.Contact(c) in locks
      && (forall k | k in HeldCopies(w, {c}) :: GL.Copy(k) in locks)
      && (forall l | l in LoansTo(w, {c}) :: GL.Loan(l) in locks)
      && (forall l | l in ConfirmationsOf(w, {c}) :: GL.Confirmation(l) in locks)
  {
    hide HeldCopies, LoansTo, ConfirmationsOf, Locks;
    var copies, loans, confs := HeldCopies(w, {c}), LoansTo(w, {c}), ConfirmationsOf(w, {c});
    var one := [GL.Contact(c)];
    DeletionLocks(GL.DeleteContact(c, copies, loans, confs), one, copies, loans, confs, one);
    assert one[0] in one;
  }

  lemma EraseIsLocked(w: World, owner: Id, c: Id)
    ensures OnlyWrites(w, EraseContact(w, owner, c),
                       Locks(GL.DeleteContact(c, HeldCopies(w, {c}), LoansTo(w, {c}), ConfirmationsOf(w, {c}))))
  {
    hide Locks, OnlyWrites, HeldCopies, LoansTo, ConfirmationsOf, Erased;
    DeleteLocks(w, c);
    var locks := Locks(GL.DeleteContact(c, HeldCopies(w, {c}), LoansTo(w, {c}), ConfirmationsOf(w, {c})));
    ErasureIsLocked(w, {c}, {c}, locks);
    NothingIsLocked(w, locks);
  }

  lemma CleanupLocks(w: World, batch: set<Id>)
    ensures
      var locks := Locks(GL.CleanupBatch(Listed(batch), HeldCopies(w, batch), LoansTo(w, batch), ConfirmationsOf(w, batch)));
      && (forall c | c in batch :: GL.Contact(c) in locks)
      && (forall c | c in HeldCopies(w, batch) :: GL.Copy(c) in locks)
      && (forall l | l in LoansTo(w, batch) :: GL.Loan(l) in locks)
      && (forall l | l in ConfirmationsOf(w, batch) :: GL.Confirmation(l) in locks)
  {
    hide HeldCopies, LoansTo, ConfirmationsOf, Locks;
    var copies, loans, confs := HeldCopies(w, batch), LoansTo(w, batch), ConfirmationsOf(w, batch);
    DeletionLocks(GL.CleanupBatch(Listed(batch), copies, loans, confs), LP.Rows(0, Listed(batch)), copies, loans, confs, []);
    forall c | c in batch
      ensures GL.Contact(c) in LP.Rows(0, Listed(batch))
    {
      RowsName(0, Listed(batch), c);
    }
  }

  lemma CleanupIsLocked(w: World, now: Time, batch: set<Id>)
    ensures OnlyWrites(w, Cleaned(w, now, batch),
                       Locks(GL.CleanupBatch(Listed(batch), HeldCopies(w, batch), LoansTo(w, batch), ConfirmationsOf(w, batch))))
  {
    hide Locks, OnlyWrites, HeldCopies, LoansTo, ConfirmationsOf, Due, Erased;
    CleanupLocks(w, batch);
    ErasureIsLocked(w, (set c | c in batch && Due(w, now, c)), batch,
                    Locks(GL.CleanupBatch(Listed(batch), HeldCopies(w, batch), LoansTo(w, batch), ConfirmationsOf(w, batch))));
  }

  lemma BackfillLocks(batch: set<Id>)
    ensures forall c | c in batch :: GL.Contact(c) in Locks(GL.BackfillBatch(Listed(batch)))
  {
    forall c | c in batch
      ensures GL.Contact(c) in Locks(GL.BackfillBatch(Listed(batch)))
    {
      RowsName(0, Listed(batch), c);
      SkipsName(LP.Rows(0, Listed(batch)), GL.Contact(c));
    }
  }

  lemma BackfillIsLocked(w: World, batch: set<Id>, locks: set<LO.Resource>)
    requires forall c | c in batch :: GL.Contact(c) in locks
    ensures OnlyWrites(w, Backfilled(w, batch), locks)
  {
    hide RetentionOf;
  }

  // ----- all steps -----

  /** Without a list nothing is written. */
  lemma NoListNoWrite(w: World, s: Step)
    requires OperationOf(w, s).None?
    ensures Next(w, s) == w || s.TimePasses?
  {
    hide Lend, OpenConfirmation, EraseContact, AddContact, AddCopy, EditStatus, Archive, Restore, Remove, AskToBorrow,
         Backfilled, Cleaned;
  }

  function LocksOf(w: World, s: Step): set<LO.Resource> {
    if OperationOf(w, s).Some? then Locks(OperationOf(w, s).value) else {}
  }

  lemma RowStepLocks(w: World, s: Step)
    requires RowStep(s) && OperationOf(w, s).Some?
    ensures GL.Confirmation(s.loan) in LocksOf(w, s)
  {
    if s.DoIssueLink? {
      LinkLocks(w.confs[s.loan].contact, w.loans[s.loan].copy, s.loan);
    } else {
      CodeLocks(s.loan);
    }
  }

  /** Whatever step is taken on whatever tables: it writes only rows that its lock list names. */
  lemma EveryWriteIsLocked(w: World, s: Step)
    ensures OnlyWrites(w, Next(w, s), LocksOf(w, s))
  {
    if OperationOf(w, s).None? {
      UnlistedWritesNothing(w, s);
    } else if RowStep(s) {
      RowStepLocks(w, s);
      RowStepIsLocked(w, s, LocksOf(w, s));
    } else {
      ListedWriteIsLocked(w, s);
    }
  }

  /**
   * The rows a transaction decides by are locked before it decides, written or not: contact, copy and loan of an action
   * on a loan, the confirmation too where one is decided about, and everything of a contact that is to go.
   */
  lemma ChainIsLocked(w: World, s: Step)
    ensures
      var locks := LocksOf(w, s);
      match s
      case DoLend(_, contact, copy, l, _, _, _) => HasChain(locks, Some(contact), copy, l)
      case DoOpenConfirmation(_, contact, copy, l, _, _, _) => HasChain(locks, Some(contact), copy, l) && GL.Confirmation(l) in locks
      case DoApply(_, l, _, _, _) =>
        l in w.loans && w.loans[l].borrower.Guest? ==> HasChain(locks, w.loans[l].borrower.contact, w.loans[l].copy, l)
      case DoDecide(_, l, _, _) =>
        l in w.loans && l in w.confs ==> HasChain(locks, w.confs[l].contact, w.loans[l].copy, l) && GL.Confirmation(l) in locks
      case DoIssueLink(_, l, _) =>
        l in w.loans && l in w.confs ==> HasChain(locks, w.confs[l].contact, w.loans[l].copy, l) && GL.Confirmation(l) in locks
      case DoAnswer(l, _, _, _, _, _, _) =>
        l in w.loans && l in w.confs && w.confs[l].contact.Some? ==>
          HasChain(locks, w.confs[l].contact, w.loans[l].copy, l) && GL.Confirmation(l) in locks
      case DoEraseContact(_, c) =>
        && GL.Contact(c) in locks
        && (forall k | k in w.copies && w.copies[k].contact == Some(c) :: GL.Copy(k) in locks)
        && (forall l | l in w.loans && w.loans[l].borrower == Borrower.Guest(Some(c)) :: GL.Loan(l) in locks)
        && (forall l | l in w.confs && w.confs[l].contact == Some(c) :: GL.Confirmation(l) in locks)
      case CleanupBatch(_, batch) =>
        forall c | c in batch ::
          && GL.Contact(c) in locks
          && (forall k | k in w.copies && w.copies[k].contact == Some(c) :: GL.Copy(k) in locks)
          && (forall l | l in w.loans && w.loans[l].borrower == Borrower.Guest(Some(c)) :: GL.Loan(l) in locks)
          && (forall l | l in w.confs && w.confs[l].contact == Some(c) :: GL.Confirmation(l) in locks)
      case _ => true
  {
    hide Locks;
    match s {
      case DoLend(_, contact, copy, l, _, _, _) => LendLocks(w, contact, copy, l);
      case DoOpenConfirmation(_, contact, copy, l, _, _, _) => OpenLocks(contact, copy, l);
      case DoApply(_, l, _, _, _) =>
        if l in w.loans && w.loans[l].borrower.Guest? {
          ApplyLocks(w.loans[l].borrower.contact, w.loans[l].copy, l);
        }
      case DoDecide(_, l, _, _) =>
        if l in w.loans && l in w.confs {
          DecideLocks(w, w.confs[l].contact, w.loans[l].copy, l);
        }
      case DoIssueLink(_, l, _) =>
        if l in w.loans && l in w.confs {
          LinkLocks(w.confs[l].contact, w.loans[l].copy, l);
        }
      case DoAnswer(l, _, _, _, _, _, _) =>
        if l in w.loans && l in w.confs && w.confs[l].contact.Some? {
          AnswerLocks(w, w.confs[l].contact.value, w.loans[l].copy, l);
        }
      case DoEraseContact(_, c) => DeleteLocks(w, c);
      case CleanupBatch(_, batch) => CleanupLocks(w, batch);
      case _ =>
    }
  }

  lemma UnlistedWritesNothing(w: World, s: Step)
    requires OperationOf(w, s).None?
    ensures OnlyWrites(w, Next(w, s), {})
  {
    NoListNoWrite(w, s);
    hide OperationOf, Lend, OpenConfirmation, Apply, Decide, AnswerGuest, EraseContact, AddContact, AddCopy, EditStatus, Archive,
         Restore, Remove, AskToBorrow, Backfilled, Cleaned;
  }

  lemma ListedWriteIsLocked(w: World, s: Step)
    requires !RowStep(s) && OperationOf(w, s).Some?
    ensures OnlyWrites(w, Next(w, s), LocksOf(w, s))
  {
    hide OnlyWrites, Locks, RivalsOf, HeldCopies, LoansTo, ConfirmationsOf, MaybeOf, Lend, OpenConfirmation, Apply, Decide,
         AnswerGuest, EraseContact, AddContact, AddCopy, EditStatus, Archive, Restore, Remove, AskToBorrow, Backfilled, Cleaned;
    NothingIsLocked(w, LocksOf(w, s));
    match s {
      case DoLend(owner, contact, copy, loan, handedDay, dueDay, begun) =>
        if loan !in w.loans {
          LendIsLocked(w, owner, contact, copy, loan, handedDay, dueDay, begun);
        }
      case DoOpenConfirmation(owner, contact, copy, loan, handedDay, dueDay, begun) =>
        if loan !in w.loans {
          OpeningIsLocked(w, owner, contact, copy, loan, handedDay, dueDay, begun);
        }
      case DoApply(owner, loan, action, day, begun) => ApplyIsLocked(w, owner, loan, action, day, begun);
      case DoDecide(owner, loan, decision, begun) => DecisionIsLocked(w, owner, loan, decision, begun);
      case DoAnswer(loan, token, email, nickname, proof, answer, begun) =>
        AnswerIsLocked(w, loan, token, email, nickname, proof, answer, begun);
      case DoAddContact(owner, contact, begun) =>
        if contact !in w.contacts {
          NewContactIsLocked(w, owner, contact, begun);
        }
      case DoEraseContact(owner, contact) => EraseIsLocked(w, owner, contact);
      case DoAddCopy(owner, copy) => CopyIsLocked(w, owner, copy, true);
      case DoEditStatus(owner, copy, available) => CopyIsLocked(w, owner, copy, available);
      case DoArchive(owner, copy) =>
        ArchiveLocks(w, copy);
        ArchivedRows(w, owner, copy, LocksOf(w, s));
      case DoRestore(owner, copy) => CopyIsLocked(w, owner, copy, true);
      case DoRemove(owner, copy) => CopyIsLocked(w, owner, copy, true);
      case ReaderAsks(user, copy, loan) =>
        if loan !in w.loans {
          RequestIsLocked(w, user, copy, loan);
        }
      case BackfillBatch(batch) =>
        BackfillLocks(batch);
        BackfillIsLocked(w, batch, LocksOf(w, s));
      case CleanupBatch(now, batch) => CleanupIsLocked(w, now, batch);
      case _ =>
    }
  }
}
