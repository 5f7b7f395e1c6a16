/**
 * Whole runs of the guest-loan world, from empty tables, in any interleaving of its transactions; and
 * what holds in every state such a run can reach.
 */
module GuestRuns {
  import opened Wrappers
  import opened GuestModel
  import opened GuestInvariant
  import opened GuestSteps
  import opened GuestWrites
  import opened GuestPreserve
  import opened GuestUpkeep
  import P = GuestProtocol

  datatype Step =
    | DoLend(owner: Id, contact: Id, copy: Id, loan: Id, handedDay: nat, dueDay: Option<nat>, begun: Time)
    | DoOpenConfirmation(owner: Id, contact: Id, copy: Id, loan: Id, handedDay: nat, dueDay: Option<nat>, begun: Time)
    | DoApply(owner: Id, loan: Id, action: GuestAction, day: Option<nat>, begun: Time)
    | DoDecide(owner: Id, loan: Id, decision: P.Decision, begun: Time)
    | DoAnswer(loan: Id, token: P.Secret, email: string, nickname: string, proof: P.Secret, answer: P.Answer, begun: Time)
    | DoIssueLink(owner: Id, loan: Id, token: P.Secret)
    | DoRequestCode(loan: Id, token: P.Secret, email: string, nickname: string, code: string, nonce: P.Secret)
    | DoVerifyCode(loan: Id, token: P.Secret, email: string, nickname: string, code: string, proof: P.Secret)
    | CodeMailFails(loan: Id, nonce: P.Secret)
    | LinkMailFails(loan: Id, token: P.Secret)
    | DoAddContact(owner: Id, contact: Id, begun: Time)
    | DoEraseContact(owner: Id, contact: Id)
    | DoAddCopy(owner: Id, copy: Id)
    | DoEditStatus(owner: Id, copy: Id, available: bool)
    | DoArchive(owner: Id, copy: Id)
    | DoRestore(owner: Id, copy: Id)
    | DoRemove(owner: Id, copy: Id)
    | ReaderAsks(user: Id, copy: Id, loan: Id)
    | BackfillBatch(batch: set<Id>)
    | CleanupBatch(now: Time, batch: set<Id>)
    | TimePasses(later: Time)

  /** When the transaction began, the default of `occurredAt`; for a new contact, the clock read before the insert. */
  function Begun(s: Step): Time {
    match s
    case DoLend(_, _, _, _, _, _, begun) => begun
    case DoOpenConfirmation(_, _, _, _, _, _, begun) => begun
    case DoApply(_, _, _, _, begun) => begun
    case DoDecide(_, _, _, begun) => begun
    case DoAnswer(_, _, _, _, _, _, begun) => begun
    case DoAddContact(_, _, begun) => begun
    case _ => 0
  }

  /** Nothing begins after it reads the clock. */
  ghost function Next(w: World, s: Step): World {
    if Begun(s) > w.clock then w else Effect(w, s)
  }

  /** An identifier that is already in use violates the primary key, and the step is rolled back. */
  ghost function Effect(w: World, s: Step): World {
    match s
    case DoLend(owner, contact, copy, loan, handedDay, dueDay, begun) =>
      if loan in w.loans then w else Lend(w, owner, contact, copy, loan, handedDay, dueDay, begun)
    case DoOpenConfirmation(owner, contact, copy, loan, handedDay, dueDay, begun) =>
      if loan in w.loans then w else OpenConfirmation(w, owner, contact, copy, loan, handedDay, dueDay, begun)
    case DoApply(owner, loan, action, day, begun) => Apply(w, owner, loan, action, day, begun)
    case DoDecide(owner, loan, decision, begun) => Decide(w, owner, loan, decision, begun)
    case DoAnswer(loan, token, email, nickname, proof, answer, begun) =>
      AnswerGuest(w, loan, token, email, nickname, proof, answer, begun)
    case DoIssueLink(owner, loan, token) => IssueLink(w, owner, loan, token)
    case DoRequestCode(loan, token, email, nickname, code, nonce) =>
      RequestCode(w, loan, token, email, nickname, code, nonce)
    case DoVerifyCode(loan, token, email, nickname, code, proof) =>
      VerifyCode(w, loan, token, email, nickname, code, proof)
    case CodeMailFails(loan, nonce) => CodeMailFailed(w, loan, nonce)
    case LinkMailFails(loan, token) => LinkMailFailed(w, loan, token)
    case DoAddContact(owner, contact, begun) => if contact in w.contacts then w else AddContact(w, owner, contact, begun)
    case DoEraseContact(owner, contact) => EraseContact(w, owner, contact)
    case DoAddCopy(owner, copy) => if copy in w.copies then w else AddCopy(w, owner, copy)
    case DoEditStatus(owner, copy, available) => EditStatus(w, owner, copy, available)
    case DoArchive(owner, copy) => Archive(w, owner, copy)
    case DoRestore(owner, copy) => Restore(w, owner, copy)
    case DoRemove(owner, copy) => Remove(w, owner, copy)
    case ReaderAsks(user, copy, loan) => if loan in w.loans then w else AskToBorrow(w, user, copy, loan)
    case BackfillBatch(batch) => Backfilled(w, batch)
    case CleanupBatch(now, batch) => Cleaned(w, now, batch)
    case TimePasses(later) => if w.clock <= later then w.(clock := later) else w
  }

  ghost function Run(steps: seq<Step>): World {
    if |steps| == 0 then EMPTY else Next(Run(steps[..|steps| - 1]), steps[|steps| - 1])
  }

  // ----- every step keeps the invariant -----

  /** The steps that stay within one confirmation row. */
  predicate RowStep(s: Step) {
    s.DoIssueLink? || s.DoRequestCode? || s.DoVerifyCode? || s.CodeMailFails? || s.LinkMailFails?
  }

  function RequestOf(s: Step): P.Request
    requires RowStep(s)
  {
    match s
    case DoIssueLink(_, _, token) => P.IssueLink(token)
    case DoRequestCode(_, token, email, nickname, code, nonce) => P.AskCode(token, email, nickname, code, nonce)
    case DoVerifyCode(_, token, email, nickname, code, proof) => P.Verify(token, email, nickname, code, proof)
    case CodeMailFails(_, nonce) => P.CodeBounced(nonce)
    case LinkMailFails(_, token) => P.LinkBounced(token)
  }

  lemma RowStepIsRequest(w: World, s: Step)
    requires RowStep(s)
    ensures
      || Next(w, s) == w
      || (s.loan in w.confs && Next(w, s) == WithRow(w, s.loan, P.Step(w.confs[s.loan].row, s.loan, RequestOf(s), w.clock).0))
    ensures s.loan in w.confs && !s.DoIssueLink? ==>
              Next(w, s) == WithRow(w, s.loan, P.Step(w.confs[s.loan].row, s.loan, RequestOf(s), w.clock).0)
  {
  }

  lemma RowStepKeepsInv(w: World, s: Step)
    requires Inv(w) && RowStep(s)
    ensures Inv(Next(w, s))
  {
    hide Next, Inv, P.Step, WithRow;
    RowStepIsRequest(w, s);
    if s.loan in w.confs {
      RequestKeepsInv(w, s.loan, RequestOf(s));
    }
  }

  /** On exact dates a backfill batch changes nothing. */
  lemma BatchDate(w: World, batch: set<Id>, c: Id)
    requires LoansOk(w) && LogOk(w) && c in w.contacts && IsRetention(w, c, w.contacts[c].retainUntil)
    ensures Backfilled(w, batch).contacts[c] == w.contacts[c]
  {
    RetentionExists(w, c);
    RetentionUnique(w, c, w.contacts[c].retainUntil, RetentionOf(w, c));
  }

  lemma BatchFindsNothing(w: World, batch: set<Id>)
    requires Inv(w)
    ensures Backfilled(w, batch) == w
  {
    hide IsRetention, LoansOk, CopiesOk, ConfsOk, NoticesOk, ContactsOk, LogOk;
    forall c | c in w.contacts
      ensures Backfilled(w, batch).contacts[c] == w.contacts[c]
    {
      BatchDate(w, batch, c);
    }
    assert Backfilled(w, batch).contacts == w.contacts;
  }

  lemma CleanedKeepsInv(w: World, now: Time, batch: set<Id>)
    requires Inv(w)
    ensures Inv(Cleaned(w, now, batch))
  {
    CleanedKeeps(w, now, batch);
  }

  /** The steps that write an event. */
  predicate LoanStep(s: Step) {
    s.DoLend? || s.DoOpenConfirmation? || s.DoApply? || s.DoDecide? || s.DoAnswer?
  }

  lemma LoanStepKeepsInv(w: World, s: Step)
    requires Inv(w) && LoanStep(s) && Begun(s) <= w.clock
    ensures Inv(Effect(w, s))
  {
    hide Inv, Lend, OpenConfirmation, Apply, Decide, AnswerGuest;
    match s {
      case DoLend(owner, contact, copy, loan, handedDay, dueDay, begun) =>
        if loan !in w.loans {
          LendKeepsInv(w, owner, contact, copy, loan, handedDay, dueDay, begun);
        }
      case DoOpenConfirmation(owner, contact, copy, loan, handedDay, dueDay, begun) =>
        if loan !in w.loans {
          OpenConfirmationKeepsInv(w, owner, contact, copy, loan, handedDay, dueDay, begun);
        }
      case DoApply(owner, loan, action, day, begun) => ApplyKeepsInv(w, owner, loan, action, day, begun);
      case DoDecide(owner, loan, decision, begun) => DecideKeepsInv(w, owner, loan, decision, begun);
      case DoAnswer(loan, token, email, nickname, proof, answer, begun) =>
        AnswerKeepsInv(w, loan, token, email, nickname, proof, answer, begun);
    }
  }

  lemma UpkeepKeepsInv(w: World, s: Step)
    requires Inv(w) && !LoanStep(s) && !RowStep(s) && Begun(s) <= w.clock
    ensures Inv(Effect(w, s))
  {
    hide Inv, AddContact, EraseContact, AddCopy, EditStatus, Archive, Restore, Remove, AskToBorrow, Backfilled, Cleaned;
    match s {
      case DoAddContact(owner, contact, begun) =>
        if contact !in w.contacts {
          AddContactKeepsInv(w, owner, contact, begun);
        }
      case DoEraseContact(owner, contact) => EraseKeepsInv(w, owner, contact);
      case DoAddCopy(owner, copy) =>
        if copy !in w.copies {
          AddCopyKeepsInv(w, owner, copy);
        }
      case DoEditStatus(owner, copy, available) => EditStatusKeepsInv(w, owner, copy, available);
      case DoArchive(owner, copy) => ArchiveKeepsInv(w, owner, copy);
      case DoRestore(owner, copy) => RestoreKeepsInv(w, owner, copy);
      case DoRemove(owner, copy) => RemoveKeepsInv(w, owner, copy);
      case ReaderAsks(user, copy, loan) =>
        if loan !in w.loans {
          AskKeepsInv(w, user, copy, loan);
        }
      case BackfillBatch(batch) => BatchFindsNothing(w, batch);
      case CleanupBatch(now, batch) => CleanedKeepsInv(w, now, batch);
      case TimePasses(later) =>
        if w.clock <= later {
          TickKeepsInv(w, later);
        }
    }
  }

  lemma NextKeepsInv(w: World, s: Step)
    requires Inv(w)
    ensures Inv(Next(w, s))
  {
    hide Inv, Effect;
    if RowStep(s) {
      RowStepKeepsInv(w, s);
    } else if Begun(s) <= w.clock {
      if LoanStep(s) {
        LoanStepKeepsInv(w, s);
      } else {
        UpkeepKeepsInv(w, s);
      }
    }
  }

  lemma {:induction false} RunKeepsInv(steps: seq<Step>)
    ensures Inv(Run(steps))
  {
    if |steps| > 0 {
      RunKeepsInv(steps[..|steps| - 1]);
      NextKeepsInv(Run(steps[..|steps| - 1]), steps[|steps| - 1]);
    }
  }

  // ----- what every reachable state looks like -----

  /**
   * Custody: a copy is at home exactly when no guest loan is outstanding on it; no two are; and while one
   * is, the copy names its contact (or nobody, once the contact is deleted) and its status follows the loan.
   */
  ghost predicate Custody(w: World, c: Id)
    requires c in w.copies
  {
    var copy := w.copies[c];
    && (Home(copy) <==> !exists l :: HeldBy(w, c, l))
    && (forall l, m | HeldBy(w, c, l) && HeldBy(w, c, m) :: l == m)
    && (forall l | HeldBy(w, c, l) ::
          copy.contact == w.loans[l].borrower.contact && copy.holder.None? && copy.status == AwayStatus(w.loans[l].status))
    && (Home(copy) ==> copy.status == Available || copy.status == Unavailable)
  }

  lemma CustodyAlways(steps: seq<Step>, c: Id)
    requires c in Run(steps).copies
    ensures Custody(Run(steps), c)
  {
    var w := Run(steps);
    RunKeepsInv(steps);
    assert CopyOk(w, c);
    forall l | HeldBy(w, c, l)
      ensures l in w.loans && MatchesLoan(w.copies[c], w.loans[l])
    {
    }
  }

  /** The CHECK constraints on `Copy` and the three partial unique indexes, as the database states them. */
  ghost predicate DatabaseAccepts(w: World) {
    // copy_available_is_home, copy_lent_out_is_away, copy_single_holder, copy_away_is_lent_or_unavailable
    && (forall c | c in w.copies ::
          var copy := w.copies[c];
          && (copy.status == Available ==> Home(copy))
          && (copy.status == LentOut ==> !Home(copy))
          && (copy.holder.None? || copy.contact.None?)
          && (Home(copy) || copy.status == LentOut || copy.status == Unavailable
              || (copy.status == Reserved && copy.holder.None? && copy.contact.Some?)))
    // one_active_loan_per_copy
    && (forall l, m | l in w.loans && m in w.loans && w.loans[l].copy == w.loans[m].copy
                      && Exclusive(w.loans[l].status) && Exclusive(w.loans[m].status) :: l == m)
    // one_recovery_per_loan, one_loss_closure_per_loan
    && (forall i, j | 0 <= i < j < |w.log| && w.log[i].loan == w.log[j].loan && w.log[i].kind == w.log[j].kind
                      && (w.log[i].kind == Recovered || w.log[i].kind == LossClosed) :: false)
  }

  /** `LOSS_CLOSED` after `RECOVERED`, or either of them twice. */
  predicate AfterSettlement(first: EventKind, second: EventKind) {
    || (first == Recovered && (second == Recovered || second == LossClosed))
    || (first == LossClosed && second == LossClosed)
  }

  /** A story that has a later chapter had a possible beginning. */
  lemma {:induction false} StoryKeepsItsMarks(log: seq<Event>, l: Id, i: nat)
    requires i < |log| && log[i].loan == l && !Replay(log, l).Impossible?
    ensures Replay(log, l).At?
    ensures log[i].kind == Recovered ==> Replay(log, l).facts.recovered
    ensures log[i].kind == LossClosed ==> Replay(log, l).facts.closed
  {
    var init := log[..|log| - 1];
    if i < |init| {
      StoryKeepsItsMarks(init, l, i);
    }
  }

  lemma SettledOnce(log: seq<Event>, l: Id, i: nat, j: nat)
    requires i < j < |log| && log[i].loan == l && log[j].loan == l && !Replay(log, l).Impossible?
    ensures !AfterSettlement(log[i].kind, log[j].kind)
    decreases |log|
  {
    var init := log[..|log| - 1];
    if j < |init| {
      SettledOnce(init, l, i, j);
    } else {
      StoryKeepsItsMarks(init, l, i);
    }
  }

  /** In no run does a loan see a second recovery, a second closure, or a closure after a recovery. */
  lemma SettlementOrder(steps: seq<Step>, i: nat, j: nat)
    requires i < j < |Run(steps).log| && Run(steps).log[i].loan == Run(steps).log[j].loan
    ensures !AfterSettlement(Run(steps).log[i].kind, Run(steps).log[j].kind)
  {
    RunKeepsInv(steps);
    var w := Run(steps);
    assert LoanOk(w, w.log[i].loan);
    UntoldHasNoEventsAt(w.log, w.log[i].loan, i);
    SettledOnce(w.log, w.log[i].loan, i, j);
  }

  lemma {:induction false} UntoldHasNoEventsAt(log: seq<Event>, l: Id, i: nat)
    requires i < |log| && log[i].loan == l
    ensures Replay(log, l) != Untold
  {
    if i < |log| - 1 {
      UntoldHasNoEventsAt(log[..|log| - 1], l, i);
    }
  }

  lemma OneActiveLoan(w: World, l: Id, m: Id)
    requires LoansOk(w) && CopiesOk(w) && l in w.loans && m in w.loans && w.loans[l].copy == w.loans[m].copy
    requires Exclusive(w.loans[l].status) && Exclusive(w.loans[m].status)
    ensures l == m
  {
    hide LoanOk, Outstanding, MatchesLoan, Home;
    ActiveLoanIsOutstanding(w, l);
    ActiveLoanIsOutstanding(w, m);
    assert CopyOk(w, w.loans[l].copy);
  }

  lemma DatabaseNeverRefuses(steps: seq<Step>)
    ensures DatabaseAccepts(Run(steps))
  {
    hide LoansOk, CopiesOk, ConfsOk, NoticesOk, ContactsOk, LogOk, CacheExact, Run;
    var w := Run(steps);
    RunKeepsInv(steps);
    forall c | c in w.copies
      ensures
        var copy := w.copies[c];
        && (copy.status == Available ==> Home(copy))
        && (copy.status == LentOut ==> !Home(copy))
        && (copy.holder.None? || copy.contact.None?)
        && (Home(copy) || copy.status == LentOut || copy.status == Unavailable
            || (copy.status == Reserved && copy.holder.None? && copy.contact.Some?))
    {
      CopyAccepted(w, c);
    }
    forall l, m | l in w.loans && m in w.loans && w.loans[l].copy == w.loans[m].copy
                  && Exclusive(w.loans[l].status) && Exclusive(w.loans[m].status)
      ensures l == m
    {
      OneActiveLoan(w, l, m);
    }
    forall i, j | 0 <= i < j < |w.log| && w.log[i].loan == w.log[j].loan && w.log[i].kind == w.log[j].kind
                  && (w.log[i].kind == Recovered || w.log[i].kind == LossClosed)
      ensures false
    {
      SettlementOrder(steps, i, j);
    }
  }

  lemma ActiveLoanIsOutstanding(w: World, l: Id)
    requires LoansOk(w) && l in w.loans && Exclusive(w.loans[l].status)
    ensures Outstanding(w, l) && w.loans[l].copy in w.copies
  {
    assert LoanOk(w, l);
    if w.loans[l].borrower.Guest? {
      StoryHasItsEvents(w.log, l);
    }
  }

  lemma CopyAccepted(w: World, c: Id)
    requires Core(w) && c in w.copies
    ensures
      var copy := w.copies[c];
      && (copy.status == Available ==> Home(copy))
      && (copy.status == LentOut ==> !Home(copy))
      && (copy.holder.None? || copy.contact.None?)
      && (Home(copy) || copy.status == LentOut || copy.status == Unavailable
          || (copy.status == Reserved && copy.holder.None? && copy.contact.Some?))
  {
    assert CopyOk(w, c);
    if l :| l in w.loans && HeldBy(w, c, l) {
      assert LoanOk(w, l);
    }
  }

  /** The events of a guest loan, replayed, give exactly what its rows say. */
  lemma EventsTellTheState(steps: seq<Step>, l: Id)
    requires l in Run(steps).loans && Run(steps).loans[l].borrower.Guest?
    ensures Replay(Run(steps).log, l) == At(FactsOf(Run(steps), l))
  {
    RunKeepsInv(steps);
    assert LoanOk(Run(steps), l);
  }

  /** Neither `candidateFor` nor `evidenceOfActive` can meet rows they would have to refuse. */
  lemma NoIntegrityError(steps: seq<Step>, l: Id)
    requires l in Run(steps).loans && Run(steps).loans[l].borrower.Guest?
    ensures
      var w := Run(steps);
      var status := w.loans[l].status;
      && (Exclusive(status) || CandidateFor(w.loans[l], l, w.log).Success?)
      && (status == HandedOver || status == Returned || status == Lost ==>
            l in w.confs ==> w.confs[l].row.status == P.OwnerRecorded || w.confs[l].row.status == P.Received)
  {
    var w := Run(steps);
    RunKeepsInv(steps);
    assert LoanOk(w, l);
    if !Exclusive(w.loans[l].status) {
      CandidateExists(w, l);
    }
    if w.loans[l].status == HandedOver || w.loans[l].status == Returned || w.loans[l].status == Lost {
      EvidenceExists(w, l);
    }
  }

  /** The stored date of every contact is the one date the rules give. */
  lemma CacheAlwaysExact(steps: seq<Step>, c: Id, r: Option<Time>)
    requires c in Run(steps).contacts
    ensures Run(steps).contacts[c].retainUntil == r <==> IsRetention(Run(steps), c, r)
  {
    RunKeepsInv(steps);
    if IsRetention(Run(steps), c, r) {
      RetentionUnique(Run(steps), c, r, Run(steps).contacts[c].retainUntil);
    }
  }

  /** A reader's request that was turned down has its notice, and nobody else has one. */
  lemma RejectionIsAnnounced(steps: seq<Step>, l: Id, n: Notice)
    requires l in Run(steps).loans && Run(steps).loans[l].borrower.Registered? && n.loan == l
    ensures
      var w := Run(steps);
      var loan := w.loans[l];
      && (n in w.notices <==> loan.status == Rejected && n == Notice(loan.borrower.user, l, loan.copy, loan.owner))
      && (loan.status == Rejected <==> loan.respondedAt.Some?)
  {
    RunKeepsInv(steps);
    assert LoanOk(Run(steps), l);
    assert n in Run(steps).notices ==> NoticeOk(Run(steps), n);
  }

  // ----- a recovery after a closure -----

  /** When the loss was settled first: the earliest time among its recoveries and closures. */
  function SettledAt(w: World, l: Id): Time
    requires |TimesOf(w.log, l, {Recovered, LossClosed})| > 0
  {
    Earliest(TimesOf(w.log, l, {Recovered, LossClosed}))
  }

  /**
   * The date a closed loss asks for goes by the earliest settlement, so a later recovery moves it if and only if
   * its event carries an earlier time than all settlements before it: then, to its own time.
   */
  lemma RecoveryMovesCandidateExactlyWhen(loan: Loan, l: Id, log: seq<Event>, e: Event)
    requires loan.status == Lost && e.loan == l && e.kind == Recovered
    requires |TimesOf(log, l, {Recovered, LossClosed})| > 0
    ensures CandidateFor(loan, l, log + [e]) != CandidateFor(loan, l, log)
            <==> e.at < Earliest(TimesOf(log, l, {Recovered, LossClosed}))
    ensures e.at < Earliest(TimesOf(log, l, {Recovered, LossClosed})) ==>
              CandidateFor(loan, l, log + [e]) == Success(e.at + CLOSED_WINDOW)
  {
    hide Replay, HasEvent, TimesOf;
    var closures := TimesOf(log, l, {Recovered, LossClosed});
    OwnEvent(log, e);
    assert (closures + [e.at])[..|closures|] == closures;
  }

  lemma ClosureHasTime(w: World, l: Id)
    requires l in w.loans && Replay(w.log, l) == At(FactsOf(w, l)) && HasEvent(w.log, l, LossClosed)
    ensures |TimesOf(w.log, l, {Recovered, LossClosed})| > 0
  {
    StoryHasItsEvents(w.log, l);
  }

  /** What an accepted recovery of a closed loss by an owner with that contact still there starts from and writes. */
  predicate RecoversClosed(w: World, owner: Id, l: Id, day: Option<nat>, c: Id) {
    && ApplyReply(w, owner, l, Recover, day) == Done && HasEvent(w.log, l, LossClosed)
    && w.loans[l].borrower == Borrower.Guest(Some(c))
  }

  lemma RecoveryFacts(w: World, owner: Id, l: Id, day: Option<nat>, begun: Time, c: Id)
    requires Inv(w) && RecoversClosed(w, owner, l, day, c) && begun <= w.clock
    ensures w.loans[l].status == Lost && l in ContactLoans(w, c)
    ensures |TimesOf(w.log, l, {Recovered, LossClosed})| > 0
    ensures c in w.contacts && IsRetention(w, c, w.contacts[c].retainUntil)
    ensures
      var v := Apply(w, owner, l, Recover, day, begun);
      c in v.contacts && IsRetention(v, c, v.contacts[c].retainUntil)
  {
    hide CopiesOk, ConfsOk, NoticesOk, ContactsOk, IsRetention, Written, CandidateFor;
    ApplyKeepsInv(w, owner, l, Recover, day, begun);
    assert LoanOk(w, l);
    ClosureHasTime(w, l);
    var e := RecoveryWrites(w, owner, l, day, begun);
  }

  lemma RecoveryWrites(w: World, owner: Id, l: Id, day: Option<nat>, begun: Time) returns (e: Event)
    requires ApplyReply(w, owner, l, Recover, day) == Done
    ensures
      var v := Apply(w, owner, l, Recover, day, begun);
      && e.loan == l && e.kind == Recovered && e.at == begun
      && v.log == w.log + [e] && v.loans == w.loans && v.contacts.Keys == w.contacts.Keys
      && forall k | k in w.contacts :: v.contacts[k].createdAt == w.contacts[k].createdAt
  {
    e := Event(l, Recovered, Some(owner), begun, EffectiveAt(Recover, day, w.clock));
  }

  /** Loan `m` asks for a date before `t`. */
  predicate AsksLess(w: World, m: Id, t: Time)
    requires m in w.loans
  {
    var candidate := CandidateFor(w.loans[m], m, w.log);
    candidate.Success? && candidate.value < t
  }

  lemma AsksAsMuch(w: World, m: Id, t: Time)
    requires m in w.loans && Asks(w, m, t) && !AsksLess(w, m, t)
    ensures CandidateFor(w.loans[m], m, w.log) == Success(t)
  {
  }

  /** The contact's date is the one of the closed loss alone: nothing runs, and every other loan asks for less. */
  predicate ClosureDecides(w: World, l: Id, c: Id)
    requires |TimesOf(w.log, l, {Recovered, LossClosed})| > 0
  {
    !HasActiveLoan(w, c)
    && forall m | m in ContactLoans(w, c) && m != l :: AsksLess(w, m, SettledAt(w, l) + CLOSED_WINDOW)
  }

  /** The candidates after the recovery: those of the other loans as before, that of the loss by the iff above. */
  lemma CandidatesAfter(w: World, v: World, l: Id, e: Event, c: Id)
    requires l in ContactLoans(w, c) && w.loans[l].status == Lost && |TimesOf(w.log, l, {Recovered, LossClosed})| > 0
    requires e.loan == l && e.kind == Recovered && v.log == w.log + [e] && v.loans == w.loans
    ensures ContactLoans(v, c) == ContactLoans(w, c) && (HasActiveLoan(v, c) <==> HasActiveLoan(w, c))
    ensures forall m | m in ContactLoans(w, c) && m != l ::
              CandidateFor(v.loans[m], m, v.log) == CandidateFor(w.loans[m], m, w.log)
    ensures CandidateFor(w.loans[l], l, w.log) == Success(SettledAt(w, l) + CLOSED_WINDOW)
    ensures CandidateFor(v.loans[l], l, v.log)
         == Success((if e.at < SettledAt(w, l) then e.at else SettledAt(w, l)) + CLOSED_WINDOW)
  {
    RecoveryMovesCandidateExactlyWhen(w.loans[l], l, w.log, e);
    forall m | m in ContactLoans(w, c) && m != l
      ensures CandidateFor(v.loans[m], m, v.log) == CandidateFor(w.loans[m], m, w.log)
    {
      CandidateUntouched(w.loans[m], m, w.log, e);
    }
  }

  /** A contact all of whose loans are finished: one of them asks for the date, and none for more. */
  lemma FinishedDate(w: World, c: Id, l: Id, r: Option<Time>) returns (top: Id)
    requires c in w.contacts && IsRetention(w, c, r) && l in ContactLoans(w, c) && !HasActiveLoan(w, c)
    ensures r.Some? && top in ContactLoans(w, c) && CandidateFor(w.loans[top], top, w.log) == Success(r.value)
    ensures forall m | m in ContactLoans(w, c) :: Asks(w, m, r.value)
  {
    top :| top in ContactLoans(w, c) && CandidateFor(w.loans[top], top, w.log) == Success(r.value);
  }

  lemma LatestIsDate(w: World, c: Id, top: Id, t: Time)
    requires c in w.contacts && top in ContactLoans(w, c) && !HasActiveLoan(w, c)
    requires CandidateFor(w.loans[top], top, w.log) == Success(t)
    requires forall m | m in ContactLoans(w, c) :: Asks(w, m, t)
    ensures IsRetention(w, c, Some(t))
  {
  }

  lemma RunningHasNoDate(w: World, c: Id, l: Id, r: Option<Time>)
    requires c in w.contacts && l in ContactLoans(w, c) && HasActiveLoan(w, c)
    ensures IsRetention(w, c, r) <==> r.None?
  {
  }

  /** Where the loss is not the only one to ask for its date, the date stays. */
  lemma DateStays(w: World, v: World, l: Id, e: Event, c: Id, r: Option<Time>)
    requires l in ContactLoans(w, c) && w.loans[l].status == Lost && |TimesOf(w.log, l, {Recovered, LossClosed})| > 0
    requires e.loan == l && e.kind == Recovered && v.log == w.log + [e] && v.loans == w.loans
    requires c in w.contacts && c in v.contacts && IsRetention(w, c, r)
    requires e.at < SettledAt(w, l) ==> !ClosureDecides(w, l, c)
    ensures IsRetention(v, c, r)
  {
    CandidatesAfter(w, v, l, e, c);
    hide CandidateFor, HasActiveLoan, ContactLoans, TimesOf, SettledAt, IsRetention;
    if HasActiveLoan(w, c) {
      RunningHasNoDate(w, c, l, r);
      RunningHasNoDate(v, c, l, r);
    } else {
      var top := FinishedDate(w, c, l, r);
      assert Asks(w, l, r.value);
      forall m | m in ContactLoans(v, c)
        ensures Asks(v, m, r.value)
      {
        assert Asks(w, m, r.value);
      }
      if top == l && e.at < SettledAt(w, l) {
        hide Asks;
        top :| top in ContactLoans(w, c) && top != l && !AsksLess(w, top, SettledAt(w, l) + CLOSED_WINDOW);
        AsksAsMuch(w, top, r.value);
      }
      LatestIsDate(v, c, top, r.value);
    }
  }

  /** Where it is, a recovery with an earlier time brings the date forward. */
  lemma DateMoves(w: World, v: World, l: Id, e: Event, c: Id, r: Option<Time>, s: Option<Time>)
    requires l in ContactLoans(w, c) && w.loans[l].status == Lost && |TimesOf(w.log, l, {Recovered, LossClosed})| > 0
    requires e.loan == l && e.kind == Recovered && v.log == w.log + [e] && v.loans == w.loans
    requires c in w.contacts && c in v.contacts && IsRetention(w, c, r) && IsRetention(v, c, s)
    requires e.at < SettledAt(w, l) && ClosureDecides(w, l, c)
    ensures r.Some? && s.Some? && s.value < r.value
  {
    CandidatesAfter(w, v, l, e, c);
    hide CandidateFor, HasActiveLoan, ContactLoans, TimesOf, SettledAt, IsRetention;
    var top := FinishedDate(w, c, l, r);
    var next := FinishedDate(v, c, l, s);
    assert Asks(w, l, r.value);
    if next != l {
      assert AsksLess(w, next, SettledAt(w, l) + CLOSED_WINDOW);
    }
  }

  /**
   * In any run: recovering a loss that was already closed moves the contact's date if and only if the recovery began
   * before the time the closure carries and no other loan of the contact asks for as much. It only brings it forward.
   */
  lemma RecoveryMovesDateExactlyWhen(steps: seq<Step>, owner: Id, l: Id, day: Option<nat>, begun: Time, c: Id)
    requires RecoversClosed(Run(steps), owner, l, day, c) && begun <= Run(steps).clock
    ensures
      var w, v := Run(steps), Apply(Run(steps), owner, l, Recover, day, begun);
      && c in w.contacts && c in v.contacts && |TimesOf(w.log, l, {Recovered, LossClosed})| > 0
      && (v.contacts[c].retainUntil != w.contacts[c].retainUntil
          <==> begun < SettledAt(w, l) && ClosureDecides(w, l, c))
      && (v.contacts[c].retainUntil != w.contacts[c].retainUntil ==>
            w.contacts[c].retainUntil.Some? && v.contacts[c].retainUntil.Some?
            && v.contacts[c].retainUntil.value < w.contacts[c].retainUntil.value)
  {
    var w, v := Run(steps), Apply(Run(steps), owner, l, Recover, day, begun);
    RunKeepsInv(steps);
    hide Run, Inv, Apply, IsRetention, HasEvent, TimesOf, ContactLoans, SettledAt, ClosureDecides;
    RecoveryFacts(w, owner, l, day, begun, c);
    var e := RecoveryWrites(w, owner, l, day, begun);
    if begun < SettledAt(w, l) && ClosureDecides(w, l, c) {
      DateMoves(w, v, l, e, c, w.contacts[c].retainUntil, v.contacts[c].retainUntil);
    } else {
      DateStays(w, v, l, e, c, w.contacts[c].retainUntil);
      RetentionUnique(v, c, v.contacts[c].retainUntil, w.contacts[c].retainUntil);
    }
  }

  /** So a recovery that began when the closure was already stamped leaves the contact's date as it was. */
  lemma RecoveryAfterClosureKeepsDate(steps: seq<Step>, owner: Id, l: Id, day: Option<nat>, begun: Time, c: Id)
    requires RecoversClosed(Run(steps), owner, l, day, c) && begun <= Run(steps).clock
    requires forall i | 0 <= i < |Run(steps).log| && Run(steps).log[i].loan == l && Run(steps).log[i].kind == LossClosed ::
               Run(steps).log[i].at <= begun
    ensures
      var w, v := Run(steps), Apply(Run(steps), owner, l, Recover, day, begun);
      c in v.contacts && c in w.contacts && v.contacts[c].retainUntil == w.contacts[c].retainUntil
  {
    var w := Run(steps);
    RecoveryMovesDateExactlyWhen(steps, owner, l, day, begun, c);
    ClosureIsSettlement(w.log, l, begun);
    EarliestIsMinimum(TimesOf(w.log, l, {Recovered, LossClosed}));
  }

  lemma {:induction false} ClosureIsSettlement(log: seq<Event>, l: Id, begun: Time)
    requires HasEvent(log, l, LossClosed)
    requires forall i | 0 <= i < |log| && log[i].loan == l && log[i].kind == LossClosed :: log[i].at <= begun
    ensures exists t | t in TimesOf(log, l, {Recovered, LossClosed}) :: t <= begun
  {
    var init, e := log[..|log| - 1], log[|log| - 1];
    if e.loan == l && e.kind == LossClosed {
      assert e.at in TimesOf(log, l, {Recovered, LossClosed});
    } else {
      ClosureIsSettlement(init, l, begun);
      var t :| t in TimesOf(init, l, {Recovered, LossClosed}) && t <= begun;
      assert t in TimesOf(log, l, {Recovered, LossClosed});
    }
  }

  // ----- the invariant is no empty promise -----

  lemma OneMoreStep(steps: seq<Step>, s: Step)
    ensures Run(steps + [s]) == Next(Run(steps), s)
  {
    assert (steps + [s])[..|steps + [s]| - 1] == steps;
  }

  lemma FirstLoan(w: World)
    requires w.copies == map[1 := Copy(0, Available, Some(0), None, None)] && 2 in w.contacts && w.contacts[2].owner == 0
    requires w.loans == map[] && w.log == [] && w.clock == 0
    ensures
      var v := Next(w, DoLend(0, 2, 1, 3, 0, None, 0));
      && v.copies == map[1 := Copy(0, LentOut, None, Some(2), None)] && v.clock == 0
      && v.loans == map[3 := NewLoan(0, 2, 1, HandedOver, 0, None)]
      && v.log == [Event(3, GuestLoanRecorded, Some(0), 0, None)]
  {
  }

  /** From the empty tables a few steps lead to a book that is out with a guest. */
  lemma BooksDoGetLent() returns (steps: seq<Step>)
    ensures 1 in Run(steps).copies && Run(steps).copies[1].status == LentOut && Run(steps).copies[1].contact == Some(2)
    ensures 3 in Run(steps).loans && Run(steps).loans[3].status == HandedOver && Outstanding(Run(steps), 3)
    ensures Run(steps).loans == map[3 := NewLoan(0, 2, 1, HandedOver, 0, None)]
    ensures Run(steps).log == [Event(3, GuestLoanRecorded, Some(0), 0, None)] && Run(steps).clock == 0
    ensures Run(steps).copies == map[1 := Copy(0, LentOut, None, Some(2), None)]
  {
    steps := [];
    assert Run(steps) == EMPTY;
    hide Run;
    OneMoreStep(steps, DoAddContact(0, 2, 0));
    steps := steps + [DoAddContact(0, 2, 0)];
    OneMoreStep(steps, DoAddCopy(0, 1));
    steps := steps + [DoAddCopy(0, 1)];
    FirstLoan(Run(steps));
    OneMoreStep(steps, DoLend(0, 2, 1, 3, 0, None, 0));
    steps := steps + [DoLend(0, 2, 1, 3, 0, None, 0)];
  }

  /** The only loan there is, once it is lost. */
  const LOST_LOAN := NewLoan(0, 2, 1, Lost, 0, None)

  lemma LossRecorded(w: World)
    requires w.loans == map[3 := NewLoan(0, 2, 1, HandedOver, 0, None)] && 1 in w.copies
    requires w.copies[1] == Copy(0, LentOut, None, Some(2), None)
    ensures
      var v := Next(w, DoApply(0, 3, MarkLost, None, 0));
      && v.clock == w.clock && v.loans == map[3 := LOST_LOAN] && v.log == w.log + [Event(3, LoanLost, Some(0), 0, None)]
      && v.copies == w.copies[1 := Copy(0, CopyStatus.Unavailable, None, Some(2), None)]
  {
  }

  lemma ClosureRecorded(w: World)
    requires w.loans == map[3 := LOST_LOAN] && 1 in w.copies && w.clock == 10
    requires !HasEvent(w.log, 3, Recovered) && !HasEvent(w.log, 3, LossClosed)
    ensures
      var v := Next(w, DoApply(0, 3, CloseLoss, None, 10));
      && v.clock == w.clock && v.loans == w.loans && v.log == w.log + [Event(3, LossClosed, Some(0), 10, None)]
      && v.copies == w.copies
  {
    assert w.loans[3] == LOST_LOAN && w.copies[1 := w.copies[1]] == w.copies;
  }

  const LOSS_LOG := [Event(3, GuestLoanRecorded, Some(0), 0, None), Event(3, LoanLost, Some(0), 0, None)]

  lemma LossIsOpen()
    ensures !HasEvent(LOSS_LOG, 3, Recovered) && !HasEvent(LOSS_LOG, 3, LossClosed)
    ensures TimesOf(LOSS_LOG, 3, {Recovered, LossClosed}) == []
  {
    var first, second := LOSS_LOG[0], LOSS_LOG[1];
    assert LOSS_LOG == [] + [first] + [second];
    OwnEvent([], first);
    OwnEvent([] + [first], second);
  }

  lemma LossIsClosed(w: World)
    requires w.loans == map[3 := LOST_LOAN] && w.log == LOSS_LOG + [Event(3, LossClosed, Some(0), 10, None)]
    requires 1 in w.copies && w.copies[1].archivedAt.None?
    ensures RecoversClosed(w, 0, 3, None, 2)
    ensures TimesOf(w.log, 3, {Recovered, LossClosed}) == [10] && SettledAt(w, 3) == 10 && ClosureDecides(w, 3, 2)
  {
    LossIsOpen();
    OwnEvent(LOSS_LOG, Event(3, LossClosed, Some(0), 10, None));
  }

  lemma TimePassed(w: World, later: Time)
    requires w.clock <= later
    ensures Next(w, TimePasses(later)) == w.(clock := later)
  {
  }

  lemma LossGetsClosed() returns (steps: seq<Step>)
    ensures Run(steps).loans == map[3 := LOST_LOAN] && Run(steps).clock == 10
    ensures Run(steps).log == LOSS_LOG + [Event(3, LossClosed, Some(0), 10, None)]
    ensures 1 in Run(steps).copies && Run(steps).copies[1].archivedAt.None?
  {
    hide Run, Next, HasEvent, TimesOf, NewLoan, Outstanding;
    var lost, closed := DoApply(0, 3, MarkLost, None, 0), DoApply(0, 3, CloseLoss, None, 10);
    steps := BooksDoGetLent();
    LossRecorded(Run(steps));
    OneMoreStep(steps, lost);
    steps := steps + [lost];
    assert Run(steps).log == LOSS_LOG;
    TimePassed(Run(steps), 10);
    OneMoreStep(steps, TimePasses(10));
    steps := steps + [TimePasses(10)];
    LossIsOpen();
    ClosureRecorded(Run(steps));
    OneMoreStep(steps, closed);
    steps := steps + [closed];
  }

  /**
   * A recovery that began at 5 commits after a closure that began at 10: it brings the contact's date forward, though
   * the loss was closed before.
   */
  lemma RecoveryCanOvertakeClosure() returns (steps: seq<Step>)
    ensures Run(steps).clock == 10 && RecoversClosed(Run(steps), 0, 3, None, 2)
    ensures
      var w, v := Run(steps), Run(steps + [DoApply(0, 3, Recover, None, 5)]);
      2 in w.contacts && 2 in v.contacts && v.contacts[2].retainUntil != w.contacts[2].retainUntil
  {
    steps := LossGetsClosed();
    LossIsClosed(Run(steps));
    OneMoreStep(steps, DoApply(0, 3, Recover, None, 5));
    hide Run, Apply, RecoversClosed, SettledAt, ClosureDecides;
    RecoveryMovesDateExactlyWhen(steps, 0, 3, None, 5, 2);
  }
}
