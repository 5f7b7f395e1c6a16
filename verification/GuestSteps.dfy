/**
 * The transactions of the guest-loan world, each as the reply it gives and the rows it leaves. A refused
 * transaction is rolled back: it changes nothing.
 */
module GuestSteps {
  import opened Wrappers
  import opened GuestModel
  import P = GuestProtocol
  import F = Framing

  datatype Reply =
    | Done
    | NotFound
    | CopyArchived
    | CopyUnavailable
    | DateInvalid
    | InvalidTransition
    | AlreadyRecovered
    | AlreadyClosed
    | RecoveryDateInvalid
    | HasActive
    | HasUnresolvedLoss
    | StatusLocked
    | CopyHasActiveLoan
    | HasLoanHistory
    | StateMismatch
    | LinkRefused(reply: P.Reply)

  // ----- rivals -----

  /** A pending request of a registered reader for copy `c`. */
  predicate Rival(loan: Loan, c: Id) {
    loan.copy == c && loan.borrower.Registered? && loan.status == Requested
  }

  function WithoutRivals(loans: map<Id, Loan>, c: Id, now: Time): map<Id, Loan> {
    map l | l in loans ::
      if Rival(loans[l], c) then loans[l].(status := Rejected, respondedAt := Some(now)) else loans[l]
  }

  function RivalNotices(loans: map<Id, Loan>, c: Id, actor: Id): set<Notice> {
    set l | l in loans && Rival(loans[l], c) :: Notice(loans[l].borrower.user, l, c, actor)
  }

  // ----- the writes of one guest transaction -----

  /** One loan, its copy, its confirmation and one event; with `rejects`, also every rival request. */
  function Written(w: World, l: Id, loan: Loan, copy: Copy, conf: Option<Confirmation>, e: Event, rejects: bool): World {
    w.(copies := w.copies[loan.copy := copy],
       loans := (if rejects then WithoutRivals(w.loans, loan.copy, w.clock) else w.loans)[l := loan],
       confs := if conf.Some? then w.confs[l := conf.value] else w.confs,
       log := w.log + [e],
       notices := w.notices + (if rejects then RivalNotices(w.loans, loan.copy, loan.owner) else {}))
  }

  // ----- dates: days are counted from the epoch, as the ISO day strings order them -----

  function Today(now: Time): nat {
    now / P.DAY
  }

  predicate DatesValid(handedDay: nat, dueDay: Option<nat>, now: Time) {
    handedDay <= Today(now) && (dueDay.Some? ==> handedDay <= dueDay.value)
  }

  function Midnight(day: Option<nat>): Option<Time> {
    match day
    case None => None
    case Some(d) => Some(d * P.DAY)
  }

  // ----- POST /loans/guest and POST /guest-loan-confirmations -----

  function HandoverReply(w: World, owner: Id, contact: Id, c: Id, handedDay: nat, dueDay: Option<nat>): Reply {
    if contact !in w.contacts || w.contacts[contact].owner != owner then NotFound
    else if c !in w.copies || w.copies[c].owner != owner then NotFound
    else if w.copies[c].archivedAt.Some? then CopyArchived
    else if w.copies[c].status != Available || !Home(w.copies[c]) then CopyUnavailable
    else if !DatesValid(handedDay, dueDay, w.clock) then DateInvalid
    else Done
  }

  function NewLoan(owner: Id, contact: Id, c: Id, status: LoanStatus, handedDay: nat, dueDay: Option<nat>): Loan {
    Loan(c, owner, Borrower.Guest(Some(contact)), status, None, Midnight(Some(handedDay)), Midnight(dueDay), None)
  }

  /** `begun` is when the transaction began; its event carries that time. */
  ghost function Lend(w: World, owner: Id, contact: Id, c: Id, l: Id, handedDay: nat, dueDay: Option<nat>, begun: Time): World
  {
    if HandoverReply(w, owner, contact, c, handedDay, dueDay) != Done then w
    else
      Recached(
        Written(w, l, NewLoan(owner, contact, c, HandedOver, handedDay, dueDay),
                w.copies[c].(status := LentOut, holder := None, contact := Some(contact)), None,
                Event(l, GuestLoanRecorded, Some(owner), begun, None), true),
        contact)
  }

  ghost function OpenConfirmation(w: World, owner: Id, contact: Id, c: Id, l: Id, handedDay: nat, dueDay: Option<nat>,
                                  begun: Time): World
  {
    if HandoverReply(w, owner, contact, c, handedDay, dueDay) != Done then w
    else
      Recached(
        Written(w, l, NewLoan(owner, contact, c, PendingConfirmation, handedDay, dueDay),
                w.copies[c].(status := Reserved, holder := None, contact := Some(contact)),
                Some(Confirmation(Some(contact), P.NEW_ROW)),
                Event(l, ConfirmationRequested, Some(owner), begun, None), false),
        contact)
  }

  // ----- PATCH /loans/guest/:id -----

  predicate GuestLoanVisible(w: World, owner: Id, l: Id) {
    && l in w.loans && w.loans[l].borrower.Guest? && w.loans[l].owner == owner
    && (w.loans[l].status == HandedOver || w.loans[l].status == Returned || w.loans[l].status == Lost)
    && w.loans[l].handedAt.Some? && w.loans[l].copy in w.copies
  }

  function ApplyReply(w: World, owner: Id, l: Id, action: GuestAction, day: Option<nat>): Reply {
    if !GuestLoanVisible(w, owner, l) then NotFound
    else if ResolveGuest(w.loans[l].status, action).None? then InvalidTransition
    else if action == Recover && HasEvent(w.log, l, Recovered) then AlreadyRecovered
    else if action == CloseLoss && (HasEvent(w.log, l, Recovered) || HasEvent(w.log, l, LossClosed)) then AlreadyClosed
    else if action == Recover && day.Some? && day.value > Today(w.clock) then RecoveryDateInvalid
    else if action == Recover && w.copies[w.loans[l].copy].archivedAt.Some? then CopyArchived
    else Done
  }

  function AppliedLoan(loan: Loan, t: GuestTransition, now: Time): Loan {
    loan.(status := t.to, returnedAt := if t.stampsReturn then Some(now) else loan.returnedAt)
  }

  function AppliedCopy(copy: Copy, t: GuestTransition): Copy {
    copy.(status := if t.copyStatus.Some? then t.copyStatus.value else copy.status,
          holder := if t.toOwner then Some(copy.owner) else copy.holder,
          contact := if t.toOwner then None else copy.contact)
  }

  function EffectiveAt(action: GuestAction, day: Option<nat>, now: Time): Option<Time> {
    if action != Recover then None else if day.None? then Some(now) else Midnight(day)
  }

  ghost function Apply(w: World, owner: Id, l: Id, action: GuestAction, day: Option<nat>, begun: Time): World {
    if ApplyReply(w, owner, l, action, day) != Done then w
    else
      var loan := w.loans[l];
      var t := ResolveGuest(loan.status, action).value;
      var v := Written(w, l, AppliedLoan(loan, t, w.clock), AppliedCopy(w.copies[loan.copy], t), None,
                       Event(l, t.event, Some(owner), begun, EffectiveAt(action, day, w.clock)), false);
      match loan.borrower.contact
      case None => v
      case Some(contact) => Recached(v, contact)
  }

  // ----- PATCH /guest-loan-confirmations/:id -----

  function DecideReply(w: World, owner: Id, l: Id, decision: P.Decision): Reply {
    if l !in w.confs || l !in w.loans || w.loans[l].owner != owner then NotFound
    else if P.DecidedStatus(w.confs[l].row.status, decision).None? then InvalidTransition
    else Done
  }

  ghost function Decide(w: World, owner: Id, l: Id, decision: P.Decision, begun: Time): World {
    if DecideReply(w, owner, l, decision) != Done || !PendingChain(w, l) then w
    else
      var loan := w.loans[l];
      var copy := w.copies[loan.copy];
      var conf := w.confs[l].(row := P.Decide(w.confs[l].row, decision, w.clock).0);
      var cancels := decision == P.CancelHandover;
      Recached(
        Written(w, l, loan.(status := if cancels then Cancelled else HandedOver),
                if cancels then copy.(status := Available, holder := Some(owner), contact := None)
                else copy.(status := LentOut),
                Some(conf),
                Event(l, if cancels then HandoverCancelled else LoanOwnerRecorded, Some(owner), begun, None),
                !cancels),
        loan.borrower.contact.value)
  }

  /** `readPendingChain`: loan, copy and confirmation all speak of one pending handover to one contact. */
  predicate PendingChain(w: World, l: Id) {
    && l in w.loans && l in w.confs && w.loans[l].copy in w.copies
    && w.loans[l].status == PendingConfirmation
    && w.confs[l].contact.Some?
    && w.loans[l].borrower == Borrower.Guest(w.confs[l].contact)
    && w.copies[w.loans[l].copy].status == Reserved
    && w.copies[w.loans[l].copy].holder.None?
    && w.copies[w.loans[l].copy].contact == w.confs[l].contact
  }

  // ----- POST /guest-loan-responses/answer -----

  function AnswerReply(w: World, l: Id, token: P.Secret, email: string, nickname: string, proof: P.Secret,
                       answer: P.Answer): Reply
  {
    if l !in w.confs then LinkRefused(P.LinkInvalid)
    else
      var reply := P.AnswerLink(w.confs[l].row, l, token, email, nickname, proof, answer, w.clock).1;
      if reply == P.Accepted then Done else LinkRefused(reply)
  }

  function Identified(w: World, contact: Id, nickname: string, email: string, verifiedAt: Option<Time>): World {
    if contact in w.contacts && verifiedAt.Some?
    then w.(contacts := w.contacts[contact :=
              w.contacts[contact].(guest := Some(GuestIdentity(F.Trim(nickname), F.CanonicalEmail(email), verifiedAt.value)))])
    else w
  }

  ghost function AnswerGuest(w: World, l: Id, token: P.Secret, email: string, nickname: string, proof: P.Secret,
                       answer: P.Answer, begun: Time): World
  {
    if AnswerReply(w, l, token, email, nickname, proof, answer) != Done || !PendingChain(w, l) then w
    else
      var loan := w.loans[l];
      var copy := w.copies[loan.copy];
      var before := w.confs[l].row;
      var conf := w.confs[l].(row := P.AnswerLink(before, l, token, email, nickname, proof, answer, w.clock).0);
      var contact := loan.borrower.contact.value;
      var received := answer == P.SaysReceived;
      Recached(
        Identified(
          Written(w, l, if received then loan.(status := HandedOver) else loan,
                  if received then copy.(status := LentOut) else copy,
                  Some(conf),
                  Event(l, if received then LoanReceived else LoanDenied, None, begun, None),
                  received),
          contact, nickname, email, before.verifiedAt),
        contact)
  }

  // ----- steps that touch only the confirmation row -----

  function WithRow(w: World, l: Id, row: P.Row): World
    requires l in w.confs
  {
    w.(confs := w.confs[l := w.confs[l].(row := row)])
  }

  function IssueLinkReply(w: World, owner: Id, l: Id): Reply {
    if l !in w.confs || l !in w.loans || w.loans[l].owner != owner then NotFound
    else if w.confs[l].row.status != P.Open then LinkRefused(P.LinkNotIssuable)
    else Done
  }

  function IssueLink(w: World, owner: Id, l: Id, token: P.Secret): World {
    if IssueLinkReply(w, owner, l) != Done || !PendingChain(w, l) then w
    else WithRow(w, l, P.RotateLink(w.confs[l].row, token, w.clock).0)
  }

  function GuestReply(r: P.Reply): Reply {
    if r == P.Accepted then Done else LinkRefused(r)
  }

  function RequestCodeReply(w: World, l: Id, token: P.Secret, email: string, nickname: string, code: string, nonce: P.Secret): Reply {
    if l !in w.confs then LinkRefused(P.LinkInvalid)
    else GuestReply(P.RequestCode(w.confs[l].row, l, token, email, nickname, code, nonce, w.clock).1)
  }

  function RequestCode(w: World, l: Id, token: P.Secret, email: string, nickname: string, code: string, nonce: P.Secret): World {
    if l !in w.confs then w
    else WithRow(w, l, P.RequestCode(w.confs[l].row, l, token, email, nickname, code, nonce, w.clock).0)
  }

  function VerifyCodeReply(w: World, l: Id, token: P.Secret, email: string, nickname: string, code: string, proof: P.Secret): Reply {
    if l !in w.confs then LinkRefused(P.LinkInvalid)
    else GuestReply(P.VerifyCode(w.confs[l].row, l, token, email, nickname, code, proof, w.clock).1)
  }

  function VerifyCode(w: World, l: Id, token: P.Secret, email: string, nickname: string, code: string, proof: P.Secret): World {
    if l !in w.confs then w
    else WithRow(w, l, P.VerifyCode(w.confs[l].row, l, token, email, nickname, code, proof, w.clock).0)
  }

  function CodeMailFailed(w: World, l: Id, nonce: P.Secret): World {
    if l !in w.confs then w else WithRow(w, l, P.CodeMailFailed(w.confs[l].row, nonce))
  }

  function LinkMailFailed(w: World, l: Id, token: P.Secret): World {
    if l !in w.confs then w else WithRow(w, l, P.LinkMailFailed(w.confs[l].row, token))
  }

  // ----- contacts -----

  function AddContact(w: World, owner: Id, c: Id, begun: Time): World {
    w.(contacts := w.contacts[c := Contact(owner, begun, Some(begun + NO_LOAN_WINDOW), None)])
  }

  /** `ON DELETE SET NULL` on loans, copies and confirmations, for all contacts in `gone`. */
  function Erased(w: World, gone: set<Id>): World {
    w.(contacts := map c | c in w.contacts && c !in gone :: w.contacts[c],
       copies := map c | c in w.copies :: Forgetting(w.copies[c], gone),
       loans := map l | l in w.loans :: LoanForgetting(w.loans[l], gone),
       confs := map l | l in w.confs ::
                  if w.confs[l].contact.Some? && w.confs[l].contact.value in gone
                  then w.confs[l].(contact := None) else w.confs[l])
  }

  function Forgetting(copy: Copy, gone: set<Id>): Copy {
    if copy.contact.Some? && copy.contact.value in gone then copy.(contact := None) else copy
  }

  function LoanForgetting(loan: Loan, gone: set<Id>): Loan {
    if loan.borrower.Guest? && loan.borrower.contact.Some? && loan.borrower.contact.value in gone
    then loan.(borrower := Borrower.Guest(None)) else loan
  }

  predicate HasOpenLoss(w: World, c: Id) {
    exists l | l in w.loans ::
      && w.loans[l].borrower == Borrower.Guest(Some(c)) && w.loans[l].status == Lost
      && !HasEvent(w.log, l, Recovered) && !HasEvent(w.log, l, LossClosed)
  }

  function EraseReply(w: World, owner: Id, c: Id): Reply {
    if c !in w.contacts || w.contacts[c].owner != owner then NotFound
    else if HasActiveLoan(w, c) then HasActive
    else if HasOpenLoss(w, c) then HasUnresolvedLoss
    else Done
  }

  function EraseContact(w: World, owner: Id, c: Id): World {
    if EraseReply(w, owner, c) == Done then Erased(w, {c}) else w
  }

  // ----- the other writers of `Copy` -----

  function AddCopy(w: World, owner: Id, c: Id): World {
    w.(copies := w.copies[c := Copy(owner, Available, Some(owner), None, None)])
  }

  predicate CopyOccupied(w: World, c: Id) {
    exists l | l in w.loans :: w.loans[l].copy == c && Exclusive(w.loans[l].status)
  }

  predicate OwnCopy(w: World, owner: Id, c: Id) {
    c in w.copies && w.copies[c].owner == owner
  }

  /** The owner may choose between `AVAILABLE` and `UNAVAILABLE` only. */
  function EditStatusReply(w: World, owner: Id, c: Id): Reply {
    if !OwnCopy(w, owner, c) then NotFound
    else if w.copies[c].holder != Some(owner) || CopyOccupied(w, c) then StatusLocked
    else Done
  }

  function EditStatus(w: World, owner: Id, c: Id, available: bool): World {
    if EditStatusReply(w, owner, c) != Done then w
    else w.(copies := w.copies[c := w.copies[c].(status := if available then Available else Unavailable)])
  }

  function ArchiveReply(w: World, owner: Id, c: Id): Reply {
    if !OwnCopy(w, owner, c) then NotFound
    else if w.copies[c].archivedAt.None? && CopyOccupied(w, c) then CopyHasActiveLoan
    else Done
  }

  function Archive(w: World, owner: Id, c: Id): World {
    if ArchiveReply(w, owner, c) != Done || w.copies[c].archivedAt.Some? then w
    else w.(copies := w.copies[c := w.copies[c].(archivedAt := Some(w.clock))],
            loans := WithoutRivals(w.loans, c, w.clock),
            notices := w.notices + RivalNotices(w.loans, c, owner))
  }

  function RestoreReply(w: World, owner: Id, c: Id): Reply {
    if OwnCopy(w, owner, c) then Done else NotFound
  }

  function Restore(w: World, owner: Id, c: Id): World {
    if !OwnCopy(w, owner, c) then w
    else w.(copies := w.copies[c := w.copies[c].(archivedAt := None)])
  }

  function RemoveReply(w: World, owner: Id, c: Id): Reply {
    if !OwnCopy(w, owner, c) then NotFound
    else if exists l | l in w.loans :: w.loans[l].copy == c then HasLoanHistory
    else Done
  }

  function Remove(w: World, owner: Id, c: Id): World {
    if RemoveReply(w, owner, c) != Done then w
    else w.(copies := map k | k in w.copies && k != c :: w.copies[k])
  }

  // ----- the environment: a registered reader asks for an available copy -----

  predicate MayAsk(w: World, c: Id) {
    c in w.copies && w.copies[c].archivedAt.None? && w.copies[c].status == Available && Home(w.copies[c])
  }

  function AskToBorrow(w: World, user: Id, c: Id, l: Id): World {
    if !MayAsk(w, c) then w
    else w.(loans := w.loans[l := Loan(c, w.copies[c].owner, Registered(user), Requested, None, None, None, None)])
  }

  // ----- the two batches of the retention run -----

  /** Backfill of one batch: each contact in it that still has no date gets the one the rules give. */
  ghost function Backfilled(w: World, batch: set<Id>): World {
    w.(contacts := map c | c in w.contacts ::
         if c in batch && w.contacts[c].retainUntil.None?
         then w.contacts[c].(retainUntil := RetentionOf(w, c)) else w.contacts[c])
  }

  predicate Due(w: World, now: Time, c: Id) {
    c in w.contacts && w.contacts[c].retainUntil.Some? && w.contacts[c].retainUntil.value <= now
    && !HasActiveLoan(w, c)
  }

  /** Cleanup of one batch: the due contacts in it that have no active loan are erased. */
  function Cleaned(w: World, now: Time, batch: set<Id>): World {
    Erased(w, set c | c in batch && Due(w, now, c))
  }
}
