/**
 * The database of the guest-loan world: one method per transaction, which reads and writes the tables in
 * the order the services do. Each is proved against the step of `GuestSteps` it performs.
 */
module GuestDb {
  import opened Wrappers
  import opened GuestModel
  import opened GuestInvariant
  import opened GuestSteps
  import opened GuestWrites
  import opened GuestPreserve
  import opened GuestUpkeep
  import D = GuestDates
  import P = GuestProtocol
  import F = Framing

  class Db {
    var clock: Time
    var contacts: map<Id, Contact>
    var copies: map<Id, Copy>
    var loans: map<Id, Loan>
    var confs: map<Id, Confirmation>
    var log: seq<Event>
    var notices: set<Notice>

    function Rows(): World
      reads this
    {
      World(clock, contacts, copies, loans, confs, log, notices)
    }

    ghost predicate Valid()
      reads this
    {
      Inv(Rows())
    }

    constructor ()
      ensures Valid() && Rows() == EMPTY
    {
      clock := 0;
      contacts, copies, loans, confs := map[], map[], map[], map[];
      log, notices := [], {};
    }

    // ----- the retention date -----

    /** The formula of `recomputeRetainUntil`: the date, or the integrity error a loan's rows cause. */
    method RetentionDate(c: Id) returns (r: Result<Option<Time>, IntegrityError>)
      requires c in contacts
      ensures r.Success? ==> IsRetention(Rows(), c, r.value)
      ensures r.Success? && LoansOk(Rows()) ==> D.DateInColumns(Rows(), c, r.value)
      ensures r.Failure? ==> exists l | l in ContactLoans(Rows(), c) ::
                !Exclusive(loans[l].status) && CandidateFor(loans[l], l, log) == Failure(r.error)
    {
      var mine := set l | l in loans && loans[l].borrower == Borrower.Guest(Some(c));
      if mine == {} {
        InColumns(Rows(), c, Some(contacts[c].createdAt + NO_LOAN_WINDOW));
        return Success(Some(contacts[c].createdAt + NO_LOAN_WINDOW));
      }
      if exists l | l in mine :: Exclusive(loans[l].status) {
        InColumns(Rows(), c, None);
        return Success(None);
      }
      var todo := mine;
      var latest: Option<Time> := None;
      while todo != {}
        invariant todo <= mine
        invariant latest.None? <==> todo == mine
        invariant latest.Some? ==> forall l | l in mine - todo :: Asks(Rows(), l, latest.value)
        invariant latest.Some? ==> exists l | l in mine - todo :: CandidateFor(loans[l], l, log) == Success(latest.value)
        decreases todo
      {
        var l :| l in todo;
        var candidate := CandidateFor(loans[l], l, log);
        if candidate.Failure? {
          return Failure(candidate.error);
        }
        ghost var seen, before := mine - todo, latest;
        todo := todo - {l};
        if latest.None? || candidate.value > latest.value {
          latest := Some(candidate.value);
        }
        assert l in mine - todo && CandidateFor(loans[l], l, log) == Success(candidate.value);
        forall m | m in mine - todo
          ensures Asks(Rows(), m, latest.value)
        {
          assert m == l || (m in seen && Asks(Rows(), m, before.value));
        }
      }
      assert mine - todo == mine == ContactLoans(Rows(), c);
      InColumns(Rows(), c, latest);
      return Success(latest);
    }

    /** `recomputeRetainUntil` on rows that break no rule: it never throws, and a missing contact is left alone. */
    method RecomputeRetainUntil(c: Id)
      requires Core(Rows())
      modifies this`contacts
      ensures Rows() == Recached(old(Rows()), c)
    {
      if c !in contacts {
        return;
      }
      var date := RetentionDate(c);
      RetentionExists(Rows(), c);
      if date.Failure? {
        ghost var l :| l in ContactLoans(Rows(), c) && !Exclusive(loans[l].status)
                       && CandidateFor(loans[l], l, log) == Failure(date.error);
        CandidateExists(Rows(), l);
        assert false;
      }
      RetentionUnique(Rows(), c, date.value, RetentionOf(Rows(), c));
      contacts := contacts[c := contacts[c].(retainUntil := date.value)];
    }

    // ----- guest loans -----

    /** `rejectRequestedRivals`: every pending request for the copy is turned down, each with its notice. */
    method RejectRequestedRivals(c: Id, actor: Id)
      modifies this`loans, this`notices
      ensures loans == WithoutRivals(old(loans), c, clock)
      ensures notices == old(notices) + RivalNotices(old(loans), c, actor)
    {
      ghost var told := notices;
      var before := loans;
      var rivals := set l | l in loans && Rival(loans[l], c);
      loans := WithoutRivals(loans, c, clock);
      var todo := rivals;
      while todo != {}
        invariant todo <= rivals && loans == WithoutRivals(before, c, clock)
        invariant notices == told + set l | l in rivals - todo :: Notice(before[l].borrower.user, l, c, actor)
        decreases todo
      {
        var l :| l in todo;
        notices := notices + {Notice(before[l].borrower.user, l, c, actor)};
        todo := todo - {l};
      }
      assert rivals - todo == rivals;
    }

    /** The writes of a handover: the loan, its copy, the rivals if it takes effect, the confirmation, the event. */
    method RecordHandover(l: Id, loan: Loan, copy: Copy, conf: Option<Confirmation>, e: Event, rejects: bool)
      requires l !in loans && loan.borrower.Guest?
      modifies this
      ensures Rows() == Written(old(Rows()), l, loan, copy, conf, e, rejects)
    {
      ghost var w := Rows();
      loans := loans[l := loan];
      copies := copies[loan.copy := copy];
      if rejects {
        RejectRequestedRivals(loan.copy, loan.owner);
      }
      if conf.Some? {
        confs := confs[l := conf.value];
      }
      log := log + [e];
      RejectedBeside(w.loans, l, loan, loan.copy, loan.owner, clock);
    }

    method CreateGuestLoan(owner: Id, contact: Id, c: Id, l: Id, handedDay: nat, dueDay: Option<nat>, begun: Time)
      returns (reply: Reply)
      requires Valid() && l !in loans && begun <= clock
      modifies this
      ensures Valid()
      ensures reply == HandoverReply(old(Rows()), owner, contact, c, handedDay, dueDay)
      ensures Rows() == Lend(old(Rows()), owner, contact, c, l, handedDay, dueDay, begun)
    {
      hide Inv, Core, Fits, RetentionOf;
      ghost var w := Rows();
      if contact !in contacts || contacts[contact].owner != owner {
        return NotFound;
      }
      if c !in copies || copies[c].owner != owner {
        return NotFound;
      }
      if copies[c].archivedAt.Some? {
        return CopyArchived;
      }
      if copies[c].status != Available || !Home(copies[c]) {
        return CopyUnavailable;
      }
      if !DatesValid(handedDay, dueDay, clock) {
        return DateInvalid;
      }
      var loan := NewLoan(owner, contact, c, HandedOver, handedDay, dueDay);
      var copy := copies[c].(status := LentOut, holder := None, contact := Some(contact));
      var e := Event(l, GuestLoanRecorded, Some(owner), begun, None);
      InvParts(w);
      LendFits(w, owner, contact, c, l, handedDay, dueDay, begun);
      hide Written, NewLoan, MatchesLoan;
      RecordHandover(l, loan, copy, None, e, true);
      WrittenKeepsCore(w, l, loan, copy, None, e, true);
      RecomputeRetainUntil(contact);
      LendKeepsInv(w, owner, contact, c, l, handedDay, dueDay, begun);
      return Done;
    }

    /** The writes of a transition: the loan if its status moves, the copy if the table moves it, the event. */
    method RecordTransition(l: Id, t: GuestTransition, e: Event)
      requires l in loans && loans[l].copy in copies
      requires t.to == loans[l].status ==> !t.stampsReturn
      modifies this`loans, this`copies, this`log
      ensures Rows() == Written(old(Rows()), l, AppliedLoan(old(loans[l]), t, clock),
                                AppliedCopy(old(copies[loans[l].copy]), t), None, e, false)
    {
      var loan, copy := loans[l], copies[loans[l].copy];
      ghost var w := Rows();
      if t.to != loan.status {
        loans := loans[l := loan.(status := t.to, returnedAt := if t.stampsReturn then Some(clock) else loan.returnedAt)];
      }
      if t.copyStatus.Some? || t.toOwner {
        copies := copies[loan.copy := AppliedCopy(copy, t)];
      }
      log := log + [e];
      assert loans == w.loans[l := AppliedLoan(loan, t, clock)];
      assert copies == w.copies[loan.copy := AppliedCopy(copy, t)];
    }

    method ApplyTransition(owner: Id, l: Id, action: GuestAction, day: Option<nat>, begun: Time) returns (reply: Reply)
      requires Valid() && begun <= clock
      modifies this
      ensures Valid()
      ensures reply == ApplyReply(old(Rows()), owner, l, action, day)
      ensures Rows() == Apply(old(Rows()), owner, l, action, day, begun)
    {
      hide Inv, Core, HasEvent, RetentionOf, Written;
      ghost var w := Rows();
      if !GuestLoanVisible(Rows(), owner, l) {
        return NotFound;
      }
      var loan, copy := loans[l], copies[loans[l].copy];
      var resolved := ResolveGuest(loan.status, action);
      if resolved.None? {
        return InvalidTransition;
      }
      var t := resolved.value;
      if t.event == Recovered || t.event == LossClosed {
        var recovered, closed := HasEvent(log, l, Recovered), HasEvent(log, l, LossClosed);
        if t.event == Recovered && recovered {
          return AlreadyRecovered;
        }
        if t.event == LossClosed && (recovered || closed) {
          return AlreadyClosed;
        }
      }
      if t.event == Recovered {
        if day.Some? && day.value > Today(clock) {
          return RecoveryDateInvalid;
        }
        if copy.archivedAt.Some? {
          return CopyArchived;
        }
      }
      NoMismatch(w, owner, l, action, day, begun);
      if t.event == Recovered && exists m | m in loans :: m != l && loans[m].copy == loan.copy && Exclusive(loans[m].status) {
        // LOAN_COPY_STATE_MISMATCH
        assert false;
      }
      if t.requires_.Some? && (copy.status != t.requires_.value || copy.holder.Some? || copy.contact != loan.borrower.contact) {
        // LOAN_COPY_STATE_MISMATCH
        assert false;
      }
      var e := Event(l, t.event, Some(owner), begun, EffectiveAt(action, day, clock));
      RecordTransition(l, t, e);
      if loan.borrower.contact.Some? {
        RecomputeRetainUntil(loan.borrower.contact.value);
      }
      assert Rows() == Apply(w, owner, l, action, day, begun);
      ApplyKeepsInv(w, owner, l, action, day, begun);
      return Done;
    }

    // ----- guest confirmations -----

    method CreateConfirmation(owner: Id, contact: Id, c: Id, l: Id, handedDay: nat, dueDay: Option<nat>, begun: Time)
      returns (reply: Reply)
      requires Valid() && l !in loans && begun <= clock
      modifies this
      ensures Valid()
      ensures reply == HandoverReply(old(Rows()), owner, contact, c, handedDay, dueDay)
      ensures Rows() == OpenConfirmation(old(Rows()), owner, contact, c, l, handedDay, dueDay, begun)
    {
      hide Inv, Core, Fits, RetentionOf;
      ghost var w := Rows();
      if contact !in contacts || contacts[contact].owner != owner {
        return NotFound;
      }
      if c !in copies || copies[c].owner != owner {
        return NotFound;
      }
      if copies[c].archivedAt.Some? {
        return CopyArchived;
      }
      if copies[c].status != Available || !Home(copies[c]) {
        return CopyUnavailable;
      }
      if !DatesValid(handedDay, dueDay, clock) {
        return DateInvalid;
      }
      var loan := NewLoan(owner, contact, c, PendingConfirmation, handedDay, dueDay);
      var copy := copies[c].(status := Reserved, holder := None, contact := Some(contact));
      var conf := Confirmation(Some(contact), P.NEW_ROW);
      var e := Event(l, ConfirmationRequested, Some(owner), begun, None);
      InvParts(w);
      OpenConfirmationFits(w, owner, contact, c, l, handedDay, dueDay, begun);
      hide Written, NewLoan, MatchesLoan;
      RecordHandover(l, loan, copy, Some(conf), e, false);
      WrittenKeepsCore(w, l, loan, copy, Some(conf), e, false);
      RecomputeRetainUntil(contact);
      OpenConfirmationKeepsInv(w, owner, contact, c, l, handedDay, dueDay, begun);
      return Done;
    }

    /** The writes of a decision to the loan, its copy, the rivals, the confirmation and the log. */
    method RecordDecision(owner: Id, l: Id, row: P.Row, cancels: bool, begun: Time)
      requires PendingChain(Rows(), l)
      modifies this
      ensures Rows() == Decided(old(Rows()), owner, l, row, cancels, begun)
    {
      ghost var w := Rows();
      var loan := loans[l];
      loans := loans[l := loan.(status := if cancels then Cancelled else HandedOver)];
      if cancels {
        copies := copies[loan.copy := copies[loan.copy].(status := Available, holder := Some(owner), contact := None)];
      } else {
        copies := copies[loan.copy := copies[loan.copy].(status := LentOut)];
        RejectRequestedRivals(loan.copy, loan.owner);
      }
      confs := confs[l := confs[l].(row := row)];
      log := log + [Event(l, if cancels then HandoverCancelled else LoanOwnerRecorded, Some(owner), begun, None)];
      RejectedBeside(w.loans, l, loan.(status := HandedOver), loan.copy, loan.owner, clock);
    }

    method ApplyAction(owner: Id, l: Id, decision: P.Decision, begun: Time) returns (reply: Reply)
      requires Valid() && begun <= clock
      modifies this
      ensures Valid()
      ensures reply == DecideReply(old(Rows()), owner, l, decision)
      ensures Rows() == Decide(old(Rows()), owner, l, decision, begun)
    {
      hide Inv, Core, RetentionOf;
      ghost var w := Rows();
      if l !in confs || l !in loans || loans[l].owner != owner {
        return NotFound;
      }
      var to := P.DecidedStatus(confs[l].row.status, decision);
      if to.None? {
        return InvalidTransition;
      }
      DecisionGoesThrough(w, owner, l, decision, begun);
      if !PendingChain(Rows(), l) {
        // LOAN_COPY_STATE_MISMATCH
        assert false;
      }
      var contact := confs[l].contact.value;
      var row := P.ClearLink(confs[l].row).(status := to.value, resolvedAt := Some(clock));
      RecordDecision(owner, l, row, decision == P.CancelHandover, begun);
      RecomputeRetainUntil(contact);
      assert Rows() == Decide(w, owner, l, decision, begun);
      DecideKeepsInv(w, owner, l, decision, begun);
      return Done;
    }

    method RotateLink(owner: Id, l: Id, token: P.Secret) returns (reply: Reply)
      requires Valid()
      modifies this`confs
      ensures Valid()
      ensures reply == IssueLinkReply(old(Rows()), owner, l)
      ensures Rows() == IssueLink(old(Rows()), owner, l, token)
    {
      hide Inv, Core;
      ghost var w := Rows();
      if l !in confs || l !in loans || loans[l].owner != owner {
        return NotFound;
      }
      if confs[l].row.status != P.Open {
        return LinkRefused(P.LinkNotIssuable);
      }
      InvParts(w);
      ChainIsPending(w, l);
      if !PendingChain(Rows(), l) {
        // LOAN_COPY_STATE_MISMATCH
        assert false;
      }
      RequestKeepsInv(w, l, P.IssueLink(token));
      confs := confs[l := confs[l].(row :=
        P.ClearLink(confs[l].row).(linkToken := Some(token), linkIssuedAt := Some(clock), linkExpiresAt := Some(clock + P.LINK_TTL)))];
      return Done;
    }

    // ----- the guest's side of a confirmation -----

    method AskForCode(l: Id, token: P.Secret, email: string, nickname: string, code: string, nonce: P.Secret)
      returns (reply: Reply)
      requires Valid()
      modifies this`confs
      ensures Valid()
      ensures reply == RequestCodeReply(old(Rows()), l, token, email, nickname, code, nonce)
      ensures Rows() == RequestCode(old(Rows()), l, token, email, nickname, code, nonce)
    {
      hide Inv, Core;
      if l !in confs {
        return LinkRefused(P.LinkInvalid);
      }
      RequestKeepsInv(Rows(), l, P.AskCode(token, email, nickname, code, nonce));
      var row, conf := confs[l].row, confs[l];
      var link := P.CheckLink(row, token, clock);
      if link != P.Accepted {
        assert confs == confs[l := conf.(row := row)];
        return LinkRefused(link);
      }
      var windowOpen := row.codeWindowStartedAt.Some? && clock - row.codeWindowStartedAt.value < P.SEND_WINDOW;
      var sent := if windowOpen then row.codeSentCount else 0;
      if row.codeFailedTotal >= P.MAX_FAILED_TOTAL || sent >= P.MAX_SENDS {
        assert confs == confs[l := conf.(row := row)];
        return LinkRefused(P.RateLimited);
      }
      var mac := F.ChallengeMac(l, email, nickname);
      row := P.ClearChallenge(row);
      row := row.(challengeMac := Some(mac), codeHash := Some(F.CodeHash(l, mac, code)));
      row := row.(codeNonce := Some(nonce), codeExpiresAt := Some(clock + P.CODE_TTL));
      row := row.(codeSentCount := sent + 1);
      if !windowOpen {
        row := row.(codeWindowStartedAt := Some(clock));
      }
      confs := confs[l := conf.(row := row)];
      return Done;
    }

    method CheckCode(l: Id, token: P.Secret, email: string, nickname: string, code: string, proof: P.Secret)
      returns (reply: Reply)
      requires Valid()
      modifies this`confs
      ensures Valid()
      ensures reply == VerifyCodeReply(old(Rows()), l, token, email, nickname, code, proof)
      ensures Rows() == VerifyCode(old(Rows()), l, token, email, nickname, code, proof)
    {
      hide Inv, Core;
      if l !in confs {
        return LinkRefused(P.LinkInvalid);
      }
      RequestKeepsInv(Rows(), l, P.Verify(token, email, nickname, code, proof));
      var row, conf := confs[l].row, confs[l];
      assert confs == confs[l := conf.(row := row)];
      var link := P.CheckLink(row, token, clock);
      if link != P.Accepted {
        return LinkRefused(link);
      }
      if row.codeFailedTotal >= P.MAX_FAILED_TOTAL {
        return LinkRefused(P.RateLimited);
      }
      if row.codeHash.None? || row.codeExpiresAt.None? || row.challengeMac.None? || row.codeExpiresAt.value <= clock {
        return LinkRefused(P.CodeInvalid);
      }
      var mac := F.ChallengeMac(l, email, nickname);
      if mac != row.challengeMac.value || F.CodeHash(l, mac, code) != row.codeHash.value {
        var attempts := row.codeAttempts + 1;
        row := row.(codeFailedTotal := row.codeFailedTotal + 1);
        row := if attempts >= P.MAX_ATTEMPTS then P.ClearChallenge(row) else row.(codeAttempts := attempts);
        confs := confs[l := conf.(row := row)];
        return LinkRefused(P.CodeInvalid);
      }
      row := row.(codeHash := None, codeExpiresAt := None, codeNonce := None, codeAttempts := 0);
      row := row.(proofHash := Some(proof), proofExpiresAt := Some(clock + P.PROOF_TTL), verifiedAt := Some(clock));
      confs := confs[l := conf.(row := row)];
      return Done;
    }

    /** The clean-up after the letter with a code failed; `updateMany` finds the row only by its nonce. */
    method CodeLetterFailed(l: Id, nonce: P.Secret)
      requires Valid()
      modifies this`confs
      ensures Valid()
      ensures Rows() == CodeMailFailed(old(Rows()), l, nonce)
    {
      hide Inv, Core;
      if l in confs {
        RequestKeepsInv(Rows(), l, P.CodeBounced(nonce));
        assert confs == confs[l := confs[l].(row := confs[l].row)];
        if confs[l].row.codeNonce == Some(nonce) {
          confs := confs[l := confs[l].(row := P.ClearChallenge(confs[l].row))];
        }
      }
    }

    method LinkLetterFailed(l: Id, token: P.Secret)
      requires Valid()
      modifies this`confs
      ensures Valid()
      ensures Rows() == LinkMailFailed(old(Rows()), l, token)
    {
      hide Inv, Core;
      if l in confs {
        RequestKeepsInv(Rows(), l, P.LinkBounced(token));
        assert confs == confs[l := confs[l].(row := confs[l].row)];
        if confs[l].row.linkToken == Some(token) {
          confs := confs[l := confs[l].(row := P.ClearLink(confs[l].row))];
        }
      }
    }

    /** The writes of an accepted answer to the loan, its copy, the rivals, the confirmation and the log. */
    method RecordAnswer(l: Id, row: P.Row, answer: P.Answer, begun: Time)
      requires PendingChain(Rows(), l)
      modifies this
      ensures Rows() == Answered(old(Rows()), l, row, answer, begun)
    {
      ghost var w := Rows();
      var loan, received := loans[l], answer == P.SaysReceived;
      if received {
        loans := loans[l := loan.(status := HandedOver)];
        copies := copies[loan.copy := copies[loan.copy].(status := LentOut)];
        RejectRequestedRivals(loan.copy, loan.owner);
      }
      confs := confs[l := confs[l].(row := row)];
      log := log + [Event(l, if received then LoanReceived else LoanDenied, None, begun, None)];
      RejectedBeside(w.loans, l, loan.(status := HandedOver), loan.copy, loan.owner, clock);
    }

    method ApplyAnswer(l: Id, token: P.Secret, email: string, nickname: string, proof: P.Secret, answer: P.Answer,
                       begun: Time)
      returns (reply: Reply)
      requires Valid() && begun <= clock
      modifies this
      ensures Valid()
      ensures reply == AnswerReply(old(Rows()), l, token, email, nickname, proof, answer)
      ensures Rows() == AnswerGuest(old(Rows()), l, token, email, nickname, proof, answer, begun)
    {
      hide Inv, Core, RetentionOf, F.ChallengeMac, F.CanonicalEmail, F.Trim, Answered, AnswerGuest;
      ghost var w := Rows();
      AnswerByParts(w, l, token, email, nickname, proof, answer, begun);
      if l !in confs {
        return LinkRefused(P.LinkInvalid);
      }
      var row, conf := confs[l].row, confs[l];
      var link := P.CheckLink(row, token, clock);
      if link != P.Accepted {
        return LinkRefused(link);
      }
      var mac := F.ChallengeMac(l, email, nickname);
      if row.proofHash.None? || row.proofExpiresAt.None? || row.verifiedAt.None? || row.challengeMac.None?
         || row.proofExpiresAt.value <= clock || row.proofHash.value != proof || row.challengeMac.value != mac
      {
        return LinkRefused(P.ProofInvalid);
      }
      AnswerGoesThrough(w, l, token, email, nickname, proof, answer, begun);
      if !PendingChain(Rows(), l) {
        // LOAN_COPY_STATE_MISMATCH
        assert false;
      }
      var contact := conf.contact.value;
      row := P.ClearLink(row).(status := if answer == P.SaysReceived then P.Received else P.Denied,
                               resolvedAt := if answer == P.SaysReceived then Some(clock) else None);
      RecordAnswer(l, row, answer, begun);
      ghost var v := Rows();
      if contact in contacts {
        contacts := contacts[contact := contacts[contact].(guest :=
          Some(GuestIdentity(F.Trim(nickname), F.CanonicalEmail(email), conf.row.verifiedAt.value)))];
      }
      IdentityKeepsCore(v, contact, nickname, email, conf.row.verifiedAt);
      RecomputeRetainUntil(contact);
      AnswerKeepsInv(w, l, token, email, nickname, proof, answer, begun);
      return Done;
    }

    // ----- contacts -----

    method CreateContact(owner: Id, c: Id, begun: Time)
      requires Valid() && c !in contacts && begun <= clock
      modifies this`contacts
      ensures Valid()
      ensures Rows() == AddContact(old(Rows()), owner, c, begun)
    {
      hide Inv, Core;
      AddContactKeepsInv(Rows(), owner, c, begun);
      contacts := contacts[c := Contact(owner, begun, Some(begun + NO_LOAN_WINDOW), None)];
    }

    /** `ExternalBorrowersService.delete`; the foreign keys set the references of loans, copies and confirmations to NULL. */
    method DeleteContact(owner: Id, c: Id) returns (reply: Reply)
      requires Valid()
      modifies this
      ensures Valid()
      ensures reply == EraseReply(old(Rows()), owner, c)
      ensures Rows() == EraseContact(old(Rows()), owner, c)
    {
      hide Inv, Core, Erased, HasOpenLoss, HasEvent;
      EraseKeepsInv(Rows(), owner, c);
      if c !in contacts || contacts[c].owner != owner {
        return NotFound;
      }
      if exists l | l in loans :: loans[l].borrower == Borrower.Guest(Some(c)) && Exclusive(loans[l].status) {
        return HasActive;
      }
      if HasOpenLoss(Rows(), c) {
        return HasUnresolvedLoss;
      }
      EraseContacts({c});
      return Done;
    }

    /** `delete` and `deleteMany` on contacts, with the foreign keys set to NULL. */
    method EraseContacts(gone: set<Id>)
      modifies this
      ensures Rows() == Erased(old(Rows()), gone)
    {
      contacts := map k | k in contacts && k !in gone :: contacts[k];
      copies := map k | k in copies :: Forgetting(copies[k], gone);
      loans := map l | l in loans :: LoanForgetting(loans[l], gone);
      confs := map l | l in confs ::
        if confs[l].contact.Some? && confs[l].contact.value in gone then confs[l].(contact := None) else confs[l];
    }

    // ----- the owner's library -----

    method UpdateCopy(owner: Id, c: Id, available: bool) returns (reply: Reply)
      requires Valid()
      modifies this`copies
      ensures Valid()
      ensures reply == EditStatusReply(old(Rows()), owner, c)
      ensures Rows() == EditStatus(old(Rows()), owner, c, available)
    {
      hide Inv, Core;
      EditStatusKeepsInv(Rows(), owner, c, available);
      if c !in copies || copies[c].owner != owner {
        return NotFound;
      }
      if copies[c].holder != Some(owner)
         || exists l | l in loans :: loans[l].copy == c && Exclusive(loans[l].status)
      {
        return StatusLocked;
      }
      copies := copies[c := copies[c].(status := if available then Available else Unavailable)];
      return Done;
    }

    method ArchiveCopy(owner: Id, c: Id) returns (reply: Reply)
      requires Valid()
      modifies this
      ensures Valid()
      ensures reply == ArchiveReply(old(Rows()), owner, c)
      ensures Rows() == Archive(old(Rows()), owner, c)
    {
      hide Inv, Core;
      ArchiveKeepsInv(Rows(), owner, c);
      if c !in copies || copies[c].owner != owner {
        return NotFound;
      }
      if copies[c].archivedAt.Some? {
        return Done;
      }
      if exists l | l in loans :: loans[l].copy == c && Exclusive(loans[l].status) {
        return CopyHasActiveLoan;
      }
      copies := copies[c := copies[c].(archivedAt := Some(clock))];
      RejectRequestedRivals(c, owner);
      return Done;
    }

    method RestoreCopy(owner: Id, c: Id) returns (reply: Reply)
      requires Valid()
      modifies this`copies
      ensures Valid()
      ensures reply == RestoreReply(old(Rows()), owner, c)
      ensures Rows() == Restore(old(Rows()), owner, c)
    {
      hide Inv, Core;
      RestoreKeepsInv(Rows(), owner, c);
      if c !in copies || copies[c].owner != owner {
        return NotFound;
      }
      copies := copies[c := copies[c].(archivedAt := None)];
      return Done;
    }

    method RemoveCopy(owner: Id, c: Id) returns (reply: Reply)
      requires Valid()
      modifies this`copies
      ensures Valid()
      ensures reply == RemoveReply(old(Rows()), owner, c)
      ensures Rows() == Remove(old(Rows()), owner, c)
    {
      hide Inv, Core;
      RemoveKeepsInv(Rows(), owner, c);
      if c !in copies || copies[c].owner != owner {
        return NotFound;
      }
      if exists l | l in loans :: loans[l].copy == c {
        return HasLoanHistory;
      }
      copies := map k | k in copies && k != c :: copies[k];
      return Done;
    }
  }

  lemma InvParts(w: World)
    requires Inv(w)
    ensures Core(w) && CacheExact(w)
  {
  }

  /** Turning the rivals down after the guest loan was written is the same as before it: it is no rival. */
  lemma RejectedBeside(loans: map<Id, Loan>, l: Id, loan: Loan, c: Id, actor: Id, now: Time)
    requires loan.borrower.Guest?
    requires l in loans ==> loans[l].borrower.Guest?
    ensures WithoutRivals(loans[l := loan], c, now) == WithoutRivals(loans, c, now)[l := loan]
    ensures RivalNotices(loans[l := loan], c, actor) == RivalNotices(loans, c, actor)
  {
    var after := loans[l := loan];
    assert forall m | m in after && Rival(after[m], c) :: m in loans && Rival(loans[m], c) && after[m] == loans[m];
    assert forall m | m in loans && Rival(loans[m], c) :: m in after && Rival(after[m], c) && after[m] == loans[m];
  }

  /** The last guards of a transition that passed the others: neither of them can fire. */
  lemma NoMismatch(w: World, owner: Id, l: Id, action: GuestAction, day: Option<nat>, begun: Time)
    requires Inv(w) && ApplyReply(w, owner, l, action, day) == Done && begun <= w.clock
    ensures
      var loan := w.loans[l];
      var copy := w.copies[loan.copy];
      var t := ResolveGuest(loan.status, action).value;
      && (t.requires_.Some? ==> copy.status == t.requires_.value)
      && copy.holder.None? && copy.contact == loan.borrower.contact
      && (forall m | m in w.loans && m != l && w.loans[m].copy == loan.copy :: !Exclusive(w.loans[m].status))
    ensures
      var loan := w.loans[l];
      var t := ResolveGuest(loan.status, action).value;
      Core(Written(w, l, AppliedLoan(loan, t, w.clock), AppliedCopy(w.copies[loan.copy], t), None,
                   Event(l, t.event, Some(owner), begun, EffectiveAt(action, day, w.clock)), false))
  {
    hide LoansOk, CopiesOk, ConfsOk, NoticesOk, ContactsOk, LogOk, CacheExact, Fits, Written;
    TableRequirementHolds(w, l, action);
    OutstandingStands(w, l);
    OthersInactive(w, l);
    ApplyFits(w, owner, l, action, day, begun);
    var loan := w.loans[l];
    var t := ResolveGuest(loan.status, action).value;
    WrittenKeepsCore(w, l, AppliedLoan(loan, t, w.clock), AppliedCopy(w.copies[loan.copy], t), None,
                     Event(l, t.event, Some(owner), begun, EffectiveAt(action, day, w.clock)), false);
  }

  /** The rows after a decision, before the date of the contact is written. */
  function Decided(w: World, owner: Id, l: Id, row: P.Row, cancels: bool, begun: Time): World
    requires PendingChain(w, l)
  {
    var loan := w.loans[l];
    var copy := w.copies[loan.copy];
    Written(w, l, loan.(status := if cancels then Cancelled else HandedOver),
            if cancels then copy.(status := Available, holder := Some(owner), contact := None)
            else copy.(status := LentOut),
            Some(w.confs[l].(row := row)),
            Event(l, if cancels then HandoverCancelled else LoanOwnerRecorded, Some(owner), begun, None), !cancels)
  }

  lemma DecisionGoesThrough(w: World, owner: Id, l: Id, decision: P.Decision, begun: Time)
    requires Inv(w) && begun <= w.clock && DecideReply(w, owner, l, decision) == Done
    ensures PendingChain(w, l)
    ensures
      Core(Decided(w, owner, l, P.Decide(w.confs[l].row, decision, w.clock).0, decision == P.CancelHandover, begun))
  {
    hide LoansOk, CopiesOk, ConfsOk, NoticesOk, ContactsOk, LogOk, CacheExact, Fits, Written;
    ChainIsPending(w, l);
    OutstandingStands(w, l);
    DecideFits(w, owner, l, decision, begun);
    var loan := w.loans[l];
    var copy := w.copies[loan.copy];
    var conf := w.confs[l].(row := P.Decide(w.confs[l].row, decision, w.clock).0);
    var cancels := decision == P.CancelHandover;
    WrittenKeepsCore(w, l, loan.(status := if cancels then Cancelled else HandedOver),
                     if cancels then copy.(status := Available, holder := Some(owner), contact := None)
                     else copy.(status := LentOut),
                     Some(conf),
                     Event(l, if cancels then HandoverCancelled else LoanOwnerRecorded, Some(owner), begun, None),
                     !cancels);
  }

  /** The rows after an accepted answer, before the identity and the date of the contact are written. */
  function Answered(w: World, l: Id, row: P.Row, answer: P.Answer, begun: Time): World
    requires PendingChain(w, l)
  {
    var loan := w.loans[l];
    var copy := w.copies[loan.copy];
    var received := answer == P.SaysReceived;
    Written(w, l, if received then loan.(status := HandedOver) else loan,
            if received then copy.(status := LentOut) else copy,
            Some(w.confs[l].(row := row)),
            Event(l, if received then LoanReceived else LoanDenied, None, begun, None), received)
  }

  lemma AnswerByParts(w: World, l: Id, token: P.Secret, email: string, nickname: string, proof: P.Secret, answer: P.Answer,
                      begun: Time)
    ensures
      var v := AnswerGuest(w, l, token, email, nickname, proof, answer, begun);
      if AnswerReply(w, l, token, email, nickname, proof, answer) != Done || !PendingChain(w, l) then v == w
      else
        var row := P.AnswerLink(w.confs[l].row, l, token, email, nickname, proof, answer, w.clock).0;
        var contact := w.confs[l].contact.value;
        var answered := Answered(w, l, row, answer, begun);
        v == Recached(Identified(answered, contact, nickname, email, w.confs[l].row.verifiedAt), contact)
  {
  }

  lemma AnswerGoesThrough(w: World, l: Id, token: P.Secret, email: string, nickname: string, proof: P.Secret,
                          answer: P.Answer, begun: Time)
    requires Inv(w) && begun <= w.clock && AnswerReply(w, l, token, email, nickname, proof, answer) == Done
    ensures PendingChain(w, l)
    ensures
      var row := P.AnswerLink(w.confs[l].row, l, token, email, nickname, proof, answer, w.clock).0;
      Core(Answered(w, l, row, answer, begun))
  {
    hide LoansOk, CopiesOk, ConfsOk, NoticesOk, ContactsOk, LogOk, CacheExact, Fits, Written;
    ChainIsPending(w, l);
    OutstandingStands(w, l);
    AnswerFits(w, l, token, email, nickname, proof, answer, begun);
    var loan := w.loans[l];
    var copy := w.copies[loan.copy];
    var conf := w.confs[l].(row := P.AnswerLink(w.confs[l].row, l, token, email, nickname, proof, answer, w.clock).0);
    var received := answer == P.SaysReceived;
    WrittenKeepsCore(w, l, if received then loan.(status := HandedOver) else loan,
                     if received then copy.(status := LentOut) else copy, Some(conf),
                     Event(l, if received then LoanReceived else LoanDenied, None, begun, None), received);
  }

  lemma IdentityKeepsCore(v: World, contact: Id, nickname: string, email: string, verifiedAt: Option<P.Time>)
    requires Core(v)
    ensures Core(Identified(v, contact, nickname, email, verifiedAt))
  {
    hide LoansOk, CopiesOk, ConfsOk, ContactsOk, NoticesOk, LogOk, F.Trim, F.CanonicalEmail;
    ContactEditsKeepCore(v, Identified(v, contact, nickname, email, verifiedAt));
  }

  /** While a loan is outstanding no other loan of its copy is active. */
  lemma OthersInactive(w: World, l: Id)
    requires LoansOk(w) && Standing(w, l)
    ensures forall m | m in w.loans && m != l && w.loans[m].copy == w.loans[l].copy :: !Exclusive(w.loans[m].status)
  {
    forall m | m in w.loans && m != l && w.loans[m].copy == w.loans[l].copy
      ensures !Exclusive(w.loans[m].status)
    {
      assert LoanOk(w, m);
      if w.loans[m].borrower.Guest? {
        StoryHasItsEvents(w.log, m);
        assert !HeldBy(w, w.loans[l].copy, m);
      }
    }
  }

  lemma InColumns(w: World, c: Id, r: Option<Time>)
    requires c in w.contacts && IsRetention(w, c, r)
    ensures LoansOk(w) ==> D.DateInColumns(w, c, r)
  {
    hide LoansOk, IsRetention, D.DateInColumns;
    if LoansOk(w) {
      D.RetentionInColumns(w, c, r);
    }
  }
}
