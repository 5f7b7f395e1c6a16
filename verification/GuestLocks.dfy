/**
 * The locks each guest transaction takes, in the order the services take them, and the proof that every
 * one of these lists keeps the discipline of `LockOrder`, whatever rows it is about.
 */
module GuestLocks {
  import opened Counting
  import opened LockOrder
  import opened LockPlans

  // ExternalBorrower, then Copy, then Loan, then GuestLoanConfirmation, by ascending id within a level.

  function Contact(id: nat): Resource {
    Row(0, id)
  }

  function Copy(id: nat): Resource {
    Row(1, id)
  }

  function Loan(id: nat): Resource {
    Row(2, id)
  }

  function Confirmation(id: nat): Resource {
    Row(3, id)
  }

  /** The loan of a registered reader, a pending request above all: everybody who writes it holds its copy. */
  function Rival(id: nat, c: nat): Resource {
    Covered(id, Copy(c))
  }

  function Rivals(c: nat, ids: seq<nat>): seq<Resource> {
    seq(|ids|, i requires 0 <= i < |ids| => Rival(ids[i], c))
  }

  /** A contact that the loan may have lost to a deletion. */
  datatype Maybe = Nobody | Somebody(id: nat)

  function MaybeContact(c: Maybe): seq<Resource> {
    if c.Nobody? then [] else [Contact(c.id)]
  }

  datatype Operation =
    | CreateGuestLoan(contact: nat, copy: nat, loan: nat, rivals: seq<nat>)
    | ApplyTransition(guest: Maybe, copy: nat, loan: nat)
    | CreateConfirmation(contact: nat, copy: nat, loan: nat, confirmation: nat)
    | Decide(guest: Maybe, copy: nat, loan: nat, confirmation: nat, rivals: seq<nat>)
    | RotateLink(guest: Maybe, copy: nat, loan: nat, confirmation: nat)
    | CodeStep(confirmation: nat)
    | Answer(contact: nat, copy: nat, loan: nat, confirmation: nat, rivals: seq<nat>)
    | DeleteContact(contact: nat, copies: seq<nat>, loans: seq<nat>, confirmations: seq<nat>)
    | BackfillBatch(contacts: seq<nat>)
    | CleanupBatch(contacts: seq<nat>, copies: seq<nat>, loans: seq<nat>, confirmations: seq<nat>)
    | EditCopy(copy: nat)
    | ArchiveCopy(copy: nat, rivals: seq<nat>)
    | CreateContact(contact: nat)
    | RegisteredLoan(copy: nat, loan: nat, rivals: seq<nat>)

  /** `ORDER BY "id"`: rows of one level are asked for in ascending order. */
  predicate Ordered(op: Operation) {
    match op
    case DeleteContact(_, copies, loans, confirmations) => Ascending(copies) && Ascending(loans) && Ascending(confirmations)
    case BackfillBatch(contacts) => Ascending(contacts)
    case CleanupBatch(contacts, copies, loans, confirmations) =>
      Ascending(contacts) && Ascending(copies) && Ascending(loans) && Ascending(confirmations)
    case _ => true
  }

  /** All locks of one transaction, including those its writes take on rows it holds already. */
  function Plan(op: Operation): seq<Want> {
    match op
    case CreateGuestLoan(contact, copy, loan, rivals) =>
      Waits([Contact(contact), Copy(copy), Loan(loan)] + [Copy(copy)] + Rivals(copy, rivals) + [Contact(contact)])
    case ApplyTransition(guest, copy, loan) =>
      Waits(MaybeContact(guest) + [Copy(copy), Loan(loan)] + [Copy(copy)] + MaybeContact(guest))
    case CreateConfirmation(contact, copy, loan, confirmation) =>
      Waits([Contact(contact), Copy(copy), Loan(loan)] + [Copy(copy)] + [Confirmation(confirmation)] + [Contact(contact)])
    case Decide(guest, copy, loan, confirmation, rivals) =>
      Waits(MaybeContact(guest) + [Copy(copy), Loan(loan), Confirmation(confirmation)] + [Loan(loan), Copy(copy)]
            + Rivals(copy, rivals) + [Confirmation(confirmation)] + MaybeContact(guest))
    case RotateLink(guest, copy, loan, confirmation) =>
      Waits(MaybeContact(guest) + [Copy(copy), Loan(loan), Confirmation(confirmation)])
    case CodeStep(confirmation) => Waits([Confirmation(confirmation)])
    case Answer(contact, copy, loan, confirmation, rivals) =>
      Waits([Contact(contact), Copy(copy), Loan(loan), Confirmation(confirmation)] + [Loan(loan), Copy(copy)]
            + Rivals(copy, rivals) + [Confirmation(confirmation)] + [Contact(contact)])
    case DeleteContact(contact, copies, loans, confirmations) =>
      Waits([Contact(contact)] + (Rows(1, copies) + Rows(2, loans) + Rows(3, confirmations)) + [Contact(contact)])
    case BackfillBatch(contacts) => Skips(Rows(0, contacts))
    case CleanupBatch(contacts, copies, loans, confirmations) =>
      Skips(Rows(0, contacts)) + Waits(Rows(1, copies) + Rows(2, loans) + Rows(3, confirmations))
    case EditCopy(copy) => Waits([Copy(copy)])
    case ArchiveCopy(copy, rivals) => Waits([Copy(copy)] + Rivals(copy, rivals) + [Copy(copy)])
    case CreateContact(contact) => Waits([Contact(contact)])
    case RegisteredLoan(copy, loan, rivals) => Waits([Copy(copy)] + Rivals(copy, [loan] + rivals) + [Copy(copy)])
  }

  // ----- every plan is disciplined -----

  /** Contact if any, copy, loan, confirmation: the chain most operations begin with. */
  lemma ChainFirst(guest: Maybe, copy: nat, loan: nat, confirmations: seq<nat>)
    requires |confirmations| <= 1
    ensures
      var rs := MaybeContact(guest) + [Copy(copy), Loan(loan)] + Rows(3, confirmations);
      Disciplined({}, Waits(rs))
  {
    var contacts: seq<nat> := if guest.Nobody? then [] else [guest.id];
    assert MaybeContact(guest) == Rows(0, contacts);
    AscendingRows({}, 0, contacts);
    RowsStayBelow({}, 0, contacts);
    var held := {} + Elements(Rows(0, contacts));
    ThreeLevels(held, 1, [copy], [loan], confirmations);
    Then({}, Rows(0, contacts), Rows(1, [copy]) + Rows(2, [loan]) + Rows(3, confirmations));
    assert Rows(0, contacts) + (Rows(1, [copy]) + Rows(2, [loan]) + Rows(3, confirmations))
        == MaybeContact(guest) + [Copy(copy), Loan(loan)] + Rows(3, confirmations);
  }

  /** After a chain: rows held already, the rivals of the copy, and rows held already once more. */
  lemma ChainThenRivals(chain: seq<Resource>, again: seq<Resource>, copy: nat, rivals: seq<nat>, last: seq<Resource>)
    requires Disciplined({}, Waits(chain)) && Copy(copy) in chain
    requires forall r | r in again || r in last :: r.Row? && r in chain
    ensures Disciplined({}, Waits(chain + again + Rivals(copy, rivals) + last))
  {
    hide Disciplined, Waits;
    var held := {} + Elements(chain);
    HeldAgain(held, again);
    Then({}, chain, again);
    var more := {} + Elements(chain + again);
    CoversFirst(more, Rivals(copy, rivals));
    Then({}, chain + again, Rivals(copy, rivals));
    HeldAgain({} + Elements(chain + again + Rivals(copy, rivals)), last);
    Then({}, chain + again + Rivals(copy, rivals), last);
  }

  /** Whatever rows an operation is about, its locks keep the discipline. */
  lemma PlansAreDisciplined(op: Operation)
    requires Ordered(op)
    ensures Disciplined({}, Plan(op))
  {
    hide Disciplined;
    match op {
      case CreateGuestLoan(contact, copy, loan, rivals) =>
        ChainFirst(Somebody(contact), copy, loan, []);
        var chain := [Contact(contact), Copy(copy), Loan(loan)];
        assert chain == MaybeContact(Somebody(contact)) + [Copy(copy), Loan(loan)] + Rows(3, []);
        ChainThenRivals(chain, [Copy(copy)], copy, rivals, [Contact(contact)]);
      case ApplyTransition(guest, copy, loan) =>
        ChainFirst(guest, copy, loan, []);
        var chain := MaybeContact(guest) + [Copy(copy), Loan(loan)];
        assert chain + Rows(3, []) == chain;
        ChainThenRivals(chain, [Copy(copy)], copy, [], MaybeContact(guest));
        assert chain + [Copy(copy)] + Rivals(copy, []) + MaybeContact(guest) == chain + [Copy(copy)] + MaybeContact(guest);
      case CreateConfirmation(contact, copy, loan, confirmation) =>
        CreationPlan(contact, copy, loan, confirmation);
      case Decide(guest, copy, loan, confirmation, rivals) =>
        DecisionPlan(guest, copy, loan, confirmation, rivals);
      case RotateLink(guest, copy, loan, confirmation) =>
        ChainFirst(guest, copy, loan, [confirmation]);
        assert MaybeContact(guest) + [Copy(copy), Loan(loan), Confirmation(confirmation)]
            == MaybeContact(guest) + [Copy(copy), Loan(loan)] + Rows(3, [confirmation]);
      case CodeStep(confirmation) => OneRow({}, 3, confirmation);
      case Answer(contact, copy, loan, confirmation, rivals) =>
        DecisionPlan(Somebody(contact), copy, loan, confirmation, rivals);
        assert MaybeContact(Somebody(contact)) + [Copy(copy), Loan(loan), Confirmation(confirmation)]
            == [Contact(contact), Copy(copy), Loan(loan), Confirmation(confirmation)];
      case DeleteContact(contact, copies, loans, confirmations) =>
        DeletionPlan(contact, copies, loans, confirmations);
      case BackfillBatch(contacts) =>
        SkipsFirst({}, contacts, [], [], []);
        assert Skips(Rows(0, contacts)) + Waits(Rows(1, []) + Rows(2, []) + Rows(3, [])) == Skips(Rows(0, contacts));
      case CleanupBatch(contacts, copies, loans, confirmations) => SkipsFirst({}, contacts, copies, loans, confirmations);
      case EditCopy(copy) => OneRow({}, 1, copy);
      case ArchiveCopy(copy, rivals) => CopyThenRivals(copy, rivals);
      case CreateContact(contact) => OneRow({}, 0, contact);
      case RegisteredLoan(copy, loan, rivals) => CopyThenRivals(copy, [loan] + rivals);
    }
  }

  lemma CopyThenRivals(copy: nat, rivals: seq<nat>)
    ensures Disciplined({}, Waits([Copy(copy)] + Rivals(copy, rivals) + [Copy(copy)]))
  {
    OneRow({}, 1, copy);
    ChainThenRivals([Copy(copy)], [], copy, rivals, [Copy(copy)]);
    assert [Copy(copy)] + [] == [Copy(copy)];
  }

  lemma CreationPlan(contact: nat, copy: nat, loan: nat, confirmation: nat)
    ensures Disciplined({}, Plan(CreateConfirmation(contact, copy, loan, confirmation)))
  {
    hide Disciplined, Waits;
    var chain := [Contact(contact), Copy(copy), Loan(loan)];
    ChainFirst(Somebody(contact), copy, loan, []);
    assert chain == MaybeContact(Somebody(contact)) + [Copy(copy), Loan(loan)] + Rows(3, []);
    HeldAgain({} + Elements(chain), [Copy(copy)]);
    Then({}, chain, [Copy(copy)]);
    OneRow({} + Elements(chain + [Copy(copy)]), 3, confirmation);
    Then({}, chain + [Copy(copy)], [Confirmation(confirmation)]);
    HeldAgain({} + Elements(chain + [Copy(copy)] + [Confirmation(confirmation)]), [Contact(contact)]);
    Then({}, chain + [Copy(copy)] + [Confirmation(confirmation)], [Contact(contact)]);
  }

  lemma DecisionPlan(guest: Maybe, copy: nat, loan: nat, confirmation: nat, rivals: seq<nat>)
    ensures Disciplined({}, Plan(Decide(guest, copy, loan, confirmation, rivals)))
  {
    hide Disciplined, Waits;
    var chain := MaybeContact(guest) + [Copy(copy), Loan(loan), Confirmation(confirmation)];
    ChainFirst(guest, copy, loan, [confirmation]);
    assert chain == MaybeContact(guest) + [Copy(copy), Loan(loan)] + Rows(3, [confirmation]);
    var last := [Confirmation(confirmation)] + MaybeContact(guest);
    ChainThenRivals(chain, [Loan(loan), Copy(copy)], copy, rivals, last);
    assert chain + [Loan(loan), Copy(copy)] + Rivals(copy, rivals) + last
        == chain + [Loan(loan), Copy(copy)] + Rivals(copy, rivals) + [Confirmation(confirmation)] + MaybeContact(guest);
  }

  lemma DeletionPlan(contact: nat, copies: seq<nat>, loans: seq<nat>, confirmations: seq<nat>)
    requires Ascending(copies) && Ascending(loans) && Ascending(confirmations)
    ensures Disciplined({}, Plan(DeleteContact(contact, copies, loans, confirmations)))
  {
    hide Disciplined, Waits;
    var rest := Rows(1, copies) + Rows(2, loans) + Rows(3, confirmations);
    OneRow({}, 0, contact);
    ThreeLevels({} + Elements([Contact(contact)]), 1, copies, loans, confirmations);
    Then({}, [Contact(contact)], rest);
    HeldAgain({} + Elements([Contact(contact)] + rest), [Contact(contact)]);
    Then({}, [Contact(contact)] + rest, [Contact(contact)]);
  }

  // ----- all operations together -----

  /** No operation is kept from beginning by the discipline. */
  lemma EveryOperationMayBegin(s: State, t: nat, op: Operation)
    requires t !in s && Ordered(op)
    ensures Enabled(s, Begin(t, Plan(op)))
  {
    PlansAreDisciplined(op);
  }

  /** Only the two batches do without a row that somebody else holds, and only without a contact; everybody else waits. */
  lemma SkipsExactly(op: Operation, want: Want)
    requires want in Plan(op)
    ensures want.SkipLocked? <==> (op.BackfillBatch? || op.CleanupBatch?) && want.r.Row? && want.r.level == 0
  {
    if op.CleanupBatch? {
      assert want in Skips(Rows(0, op.contacts))
          || want in Waits(Rows(1, op.copies) + Rows(2, op.loans) + Rows(3, op.confirmations));
    } else if op.CreateContact? {
      assert Plan(op) == [Wait(Contact(op.contact))];
    }
  }

  /** The late write to a rival request never waits, although its id may be below everything held. */
  lemma RivalsNeverWait(steps: seq<Step>, t: nat)
    requires t in Run(steps) && Run(steps)[t].rest != [] && Run(steps)[t].rest[0].r.Covered?
    ensures Free(Run(steps), t, Run(steps)[t].rest[0].r)
  {
    var s := Run(steps);
    RunKeepsInv(steps);
    assert Disciplined(s[t].held, s[t].rest);
    forall u | u in s && u != t
      ensures s[t].rest[0].r !in s[u].held
    {
      assert s[t].held !! s[u].held && CoversHeld(s[u].held);
    }
  }
}
