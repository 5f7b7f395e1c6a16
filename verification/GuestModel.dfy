/**
 * The tables of the guest-loan world and the rules written over them: who may hold a copy, how the
 * events of a loan replay to its state, and until when a contact is retained.
 */
module GuestModel {
  import opened Wrappers
  import P = GuestProtocol

  type Id = nat
  type Time = P.Time

  // ----- rows -----

  datatype CopyStatus = Available | Reserved | LentOut | Unavailable

  datatype Copy = Copy(owner: Id, status: CopyStatus, holder: Option<Id>, contact: Option<Id>, archivedAt: Option<Time>)

  datatype LoanStatus =
    Requested | Approved | Rejected | Cancelled | HandedOver | Returned | Lost | PendingConfirmation | Declined

  /** A registered borrower has an account; a guest has at most the contact the owner keeps. */
  datatype Borrower = Registered(user: Id) | Guest(contact: Option<Id>)

  datatype Loan = Loan(
    copy: Id, owner: Id, borrower: Borrower, status: LoanStatus,
    respondedAt: Option<Time>, handedAt: Option<Time>, dueAt: Option<Time>, returnedAt: Option<Time>)

  datatype GuestIdentity = GuestIdentity(nickname: string, email: string, verifiedAt: Time)

  datatype Contact = Contact(owner: Id, createdAt: Time, retainUntil: Option<Time>, guest: Option<GuestIdentity>)

  /** Keyed by its loan: `loanId` is unique and the row is created together with the loan. */
  datatype Confirmation = Confirmation(contact: Option<Id>, row: P.Row)

  datatype EventKind =
    | GuestLoanRecorded
    | ConfirmationRequested
    | HandoverCancelled
    | LoanOwnerRecorded
    | LoanReceived
    | LoanDenied
    | LoanReturned
    | LoanLost
    | Recovered
    | LossClosed

  datatype Event = Event(loan: Id, kind: EventKind, actor: Option<Id>, at: Time, effectiveAt: Option<Time>)

  /** A `LOAN_REJECTED` notification. */
  datatype Notice = Notice(user: Id, loan: Id, copy: Id, actor: Id)

  datatype World = World(
    clock: Time,
    contacts: map<Id, Contact>,
    copies: map<Id, Copy>,
    loans: map<Id, Loan>,
    confs: map<Id, Confirmation>,
    log: seq<Event>,
    notices: set<Notice>)

  const EMPTY := World(0, map[], map[], map[], map[], [], {})

  // ----- the guest table (`resolveGuestTransition`) -----

  datatype GuestAction = Return | MarkLost | Recover | CloseLoss

  datatype GuestTransition = GuestTransition(
    to: LoanStatus, requires_: Option<CopyStatus>, copyStatus: Option<CopyStatus>,
    toOwner: bool, stampsReturn: bool, event: EventKind)

  function ResolveGuest(from: LoanStatus, action: GuestAction): Option<GuestTransition> {
    match (from, action)
    case (HandedOver, Return) =>
      Some(GuestTransition(Returned, Some(LentOut), Some(Available), true, true, LoanReturned))
    case (HandedOver, MarkLost) =>
      Some(GuestTransition(Lost, Some(LentOut), Some(Unavailable), false, false, LoanLost))
    case (Lost, Recover) =>
      Some(GuestTransition(Lost, Some(Unavailable), Some(Available), true, false, Recovered))
    case (Lost, CloseLoss) =>
      Some(GuestTransition(Lost, None, None, false, false, LossClosed))
    case (_, _) => None
  }

  /** `EXCLUSIVE_LOAN_STATUS`: the statuses that occupy a copy. */
  predicate Exclusive(status: LoanStatus) {
    status == Approved || status == HandedOver || status == PendingConfirmation
  }

  // ----- the events of one loan -----

  predicate HasEvent(log: seq<Event>, l: Id, kind: EventKind) {
    |log| > 0 && ((log[|log| - 1].loan == l && log[|log| - 1].kind == kind) || HasEvent(log[..|log| - 1], l, kind))
  }

  /** The times of the events of loan `l` that have one of the given kinds, in the order of the log. */
  function TimesOf(log: seq<Event>, l: Id, kinds: set<EventKind>): seq<Time> {
    if |log| == 0 then []
    else
      var e := log[|log| - 1];
      TimesOf(log[..|log| - 1], l, kinds) + (if e.loan == l && e.kind in kinds then [e.at] else [])
  }

  /** What the rows say about a guest loan: its status, its confirmation, and whether the loss is settled. */
  datatype Facts = Facts(status: LoanStatus, answer: Option<P.ConfirmationStatus>, recovered: bool, closed: bool)

  /** The state an event log spells out: nothing yet, a state, or a sequence no guest loan can have. */
  datatype Story = Untold | At(facts: Facts) | Impossible

  function Advance(s: Story, kind: EventKind): Story {
    match (s, kind)
    case (Untold, GuestLoanRecorded) => At(Facts(HandedOver, None, false, false))
    case (Untold, ConfirmationRequested) => At(Facts(PendingConfirmation, Some(P.Open), false, false))
    case (At(f), HandoverCancelled) =>
      if f.status == PendingConfirmation then At(f.(status := Cancelled, answer := Some(P.CancelledByOwner))) else Impossible
    case (At(f), LoanOwnerRecorded) =>
      if f.status == PendingConfirmation then At(f.(status := HandedOver, answer := Some(P.OwnerRecorded))) else Impossible
    case (At(f), LoanReceived) =>
      if f.status == PendingConfirmation && f.answer == Some(P.Open)
      then At(f.(status := HandedOver, answer := Some(P.Received))) else Impossible
    case (At(f), LoanDenied) =>
      if f.status == PendingConfirmation && f.answer == Some(P.Open)
      then At(f.(answer := Some(P.Denied))) else Impossible
    case (At(f), LoanReturned) => if f.status == HandedOver then At(f.(status := Returned)) else Impossible
    case (At(f), LoanLost) => if f.status == HandedOver then At(f.(status := Lost)) else Impossible
    case (At(f), Recovered) => if f.status == Lost && !f.recovered then At(f.(recovered := true)) else Impossible
    case (At(f), LossClosed) =>
      if f.status == Lost && !f.recovered && !f.closed then At(f.(closed := true)) else Impossible
    case (_, _) => Impossible
  }

  /** The events of loan `l`, folded in the order they were written. */
  function Replay(log: seq<Event>, l: Id): Story {
    if |log| == 0 then Untold
    else
      var before := Replay(log[..|log| - 1], l);
      var e := log[|log| - 1];
      if e.loan == l then Advance(before, e.kind) else before
  }

  function FactsOf(w: World, l: Id): Facts
    requires l in w.loans
  {
    Facts(w.loans[l].status, if l in w.confs then Some(w.confs[l].row.status) else None,
          HasEvent(w.log, l, Recovered), HasEvent(w.log, l, LossClosed))
  }

  // ----- custody -----

  /** A guest loan that still accounts for the whereabouts of its copy. */
  predicate Outstanding(w: World, l: Id) {
    l in w.loans && w.loans[l].borrower.Guest?
    && (w.loans[l].status == PendingConfirmation || w.loans[l].status == HandedOver
        || (w.loans[l].status == Lost && !HasEvent(w.log, l, Recovered)))
  }

  predicate Home(copy: Copy) {
    copy.holder == Some(copy.owner) && copy.contact.None?
  }

  function AwayStatus(status: LoanStatus): CopyStatus {
    if status == PendingConfirmation then Reserved else if status == HandedOver then LentOut else Unavailable
  }

  // ----- retention -----

  const NO_LOAN_WINDOW: nat := 90 * P.DAY
  const CLOSED_WINDOW: nat := 90 * P.DAY
  const UNRESOLVED_LOSS_WINDOW: nat := 365 * P.DAY
  const CANCELLED_WINDOW: nat := 90 * P.DAY

  datatype IntegrityError = ReturnedWithoutTime | LostWithoutEvent | CancelledWithoutEvent | UnexpectedStatus

  /** `reduce` to the earliest of several times. */
  function Earliest(ts: seq<Time>): Time
    requires |ts| > 0
  {
    if |ts| == 1 then ts[0]
    else
      var before := Earliest(ts[..|ts| - 1]);
      if ts[|ts| - 1] < before then ts[|ts| - 1] else before
  }

  lemma {:induction false} EarliestIsMinimum(ts: seq<Time>)
    requires |ts| > 0
    ensures Earliest(ts) in ts
    ensures forall i | 0 <= i < |ts| :: Earliest(ts) <= ts[i]
  {
    if |ts| > 1 {
      var init := ts[..|ts| - 1];
      EarliestIsMinimum(init);
      forall i | 0 <= i < |ts|
        ensures Earliest(ts) <= ts[i]
      {
        if i < |init| {
          assert ts[i] == init[i];
        }
      }
    }
  }

  /** `candidateFor`: until when one finished loan keeps its contact, or the integrity error it throws. */
  function CandidateFor(loan: Loan, l: Id, log: seq<Event>): Result<Time, IntegrityError> {
    if loan.status == Returned then
      if loan.returnedAt.None? then Failure(ReturnedWithoutTime)
      else Success(loan.returnedAt.value + CLOSED_WINDOW)
    else if loan.status == Lost then
      var closures := TimesOf(log, l, {Recovered, LossClosed});
      var losses := TimesOf(log, l, {LoanLost});
      if |closures| > 0 then Success(Earliest(closures) + CLOSED_WINDOW)
      else if |losses| == 0 then Failure(LostWithoutEvent)
      else Success(losses[0] + UNRESOLVED_LOSS_WINDOW)
    else if loan.status == Cancelled then
      var cancellations := TimesOf(log, l, {HandoverCancelled});
      if |cancellations| == 0 then Failure(CancelledWithoutEvent)
      else Success(Earliest(cancellations) + CANCELLED_WINDOW)
    else Failure(UnexpectedStatus)
  }

  function ContactLoans(w: World, c: Id): set<Id> {
    set l | l in w.loans && w.loans[l].borrower == Guest(Some(c))
  }

  /** Some loan of the contact still occupies a copy. */
  predicate HasActiveLoan(w: World, c: Id) {
    exists l | l in w.loans :: w.loans[l].borrower == Guest(Some(c)) && Exclusive(w.loans[l].status)
  }

  /**
   * `r` is the retention date of contact `c` by the rules: 90 days from creation while it has no loan,
   * none while a loan is active, and otherwise the latest date any of its loans asks for.
   */
  ghost predicate IsRetention(w: World, c: Id, r: Option<Time>)
    requires c in w.contacts
  {
    if ContactLoans(w, c) == {} then r == Some(w.contacts[c].createdAt + NO_LOAN_WINDOW)
    else if HasActiveLoan(w, c) then r == None
    else
      && r.Some?
      && (forall l | l in ContactLoans(w, c) :: Asks(w, l, r.value))
      && (exists l | l in ContactLoans(w, c) :: CandidateFor(w.loans[l], l, w.log) == Success(r.value))
  }

  /** Loan `l` asks for no later date than `t`. */
  predicate Asks(w: World, l: Id, t: Time)
    requires l in w.loans
  {
    var candidate := CandidateFor(w.loans[l], l, w.log);
    candidate.Success? && candidate.value <= t
  }

  /** The date itself; `IsRetention` fixes it uniquely wherever it exists. */
  ghost function RetentionOf(w: World, c: Id): Option<Time>
    requires c in w.contacts
  {
    if exists r :: IsRetention(w, c, r) then var r :| IsRetention(w, c, r); r else None
  }

  /** `recomputeRetainUntil`: writes the date of one contact; a missing contact is left alone. */
  ghost function Recached(w: World, c: Id): World {
    if c in w.contacts
    then w.(contacts := w.contacts[c := w.contacts[c].(retainUntil := RetentionOf(w, c))])
    else w
  }
}
