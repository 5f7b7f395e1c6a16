/**
 * What the transactions on guest loans leave in the rows: each is told by its columns before and after, with every other
 * row as it was. Of the contacts only the date of the one concerned may move.
 */
module GuestEffects {
  import opened Wrappers
  import opened GuestModel
  import opened GuestInvariant
  import opened GuestSteps
  import opened GuestPreserve
  import P = GuestProtocol
  import E = ProtocolEffects
  import F = Framing

  /** The contacts are as they were, but for the date of one of them. */
  predicate OnlyDateMoves(w: World, v: World, contact: Option<Id>) {
    && v.contacts.Keys == w.contacts.Keys
    && forall c | c in w.contacts ::
         v.contacts[c] == if contact == Some(c) then w.contacts[c].(retainUntil := v.contacts[c].retainUntil) else w.contacts[c]
  }

  // ----- handing over -----

  /** What a handover needs: the owner's contact, and the owner's copy, kept, available and at home, with possible dates. */
  predicate MayHandOver(w: World, owner: Id, contact: Id, c: Id, handedDay: nat, dueDay: Option<nat>) {
    && contact in w.contacts && w.contacts[contact].owner == owner
    && c in w.copies && w.copies[c] == Copy(owner, Available, Some(owner), None, None)
    && handedDay * (24 * 3_600_000) <= w.clock && (dueDay.Some? ==> handedDay <= dueDay.value)
  }

  /** The other loans of a handover that takes effect: requests for the copy are turned down now. */
  predicate RequestsTurnedDown(w: World, v: World, c: Id, l: Id) {
    && v.loans.Keys == w.loans.Keys + {l}
    && forall m | m in w.loans && m != l ::
         var loan := w.loans[m];
         v.loans[m] == if loan.copy == c && loan.borrower.Registered? && loan.status == Requested
                       then loan.(status := Rejected, respondedAt := Some(w.clock)) else loan
  }

  function DayStart(day: nat): Time {
    day * (24 * 3_600_000)
  }

  lemma HandoverNeeds(w: World, owner: Id, contact: Id, c: Id, handedDay: nat, dueDay: Option<nat>)
    ensures HandoverReply(w, owner, contact, c, handedDay, dueDay) == Done
            <==> MayHandOver(w, owner, contact, c, handedDay, dueDay)
  {
    assert P.DAY == 24 * 3_600_000;
    var today := w.clock / P.DAY;
    assert today * P.DAY <= w.clock < (today + 1) * P.DAY;
    if handedDay <= today {
      assert handedDay * P.DAY <= today * P.DAY;
    } else {
      assert handedDay * P.DAY >= (today + 1) * P.DAY;
    }
  }

  /** Why a handover is refused: each reason has its own reply, and the first that applies is given. */
  lemma HandoverRefusals(w: World, owner: Id, contact: Id, c: Id, handedDay: nat, dueDay: Option<nat>)
    ensures
      var r := HandoverReply(w, owner, contact, c, handedDay, dueDay);
      var mine := contact in w.contacts && w.contacts[contact].owner == owner && c in w.copies && w.copies[c].owner == owner;
      && (r == NotFound <==> !mine)
      && (r == CopyArchived <==> mine && w.copies[c].archivedAt.Some?)
      && (r == CopyUnavailable <==>
            && mine && w.copies[c].archivedAt.None?
            && (w.copies[c].status != Available || w.copies[c].holder != Some(owner) || w.copies[c].contact.Some?))
      && (r == DateInvalid <==>
            && mine && w.copies[c] == Copy(owner, Available, Some(owner), None, None)
            && (handedDay * (24 * 3_600_000) > w.clock || (dueDay.Some? && dueDay.value < handedDay)))
  {
    DayReached(handedDay, w.clock);
  }

  lemma Lent(w: World, owner: Id, contact: Id, c: Id, l: Id, handedDay: nat, dueDay: Option<nat>, begun: Time)
    requires l !in w.loans && HandoverReply(w, owner, contact, c, handedDay, dueDay) == Done
    ensures
      var v := Lend(w, owner, contact, c, l, handedDay, dueDay, begun);
      && v == w.(contacts := v.contacts, copies := w.copies[c := Copy(owner, LentOut, None, Some(contact), None)],
                 loans := v.loans, log := w.log + [Event(l, GuestLoanRecorded, Some(owner), begun, None)], notices := v.notices)
      && OnlyDateMoves(w, v, Some(contact)) && RequestsTurnedDown(w, v, c, l)
      && v.loans[l] == Loan(c, owner, Borrower.Guest(Some(contact)), HandedOver, None, Some(DayStart(handedDay)),
                            if dueDay.Some? then Some(DayStart(dueDay.value)) else None, None)
  {
  }

  lemma Opened(w: World, owner: Id, contact: Id, c: Id, l: Id, handedDay: nat, dueDay: Option<nat>, begun: Time)
    requires l !in w.loans && HandoverReply(w, owner, contact, c, handedDay, dueDay) == Done
    ensures
      var v := OpenConfirmation(w, owner, contact, c, l, handedDay, dueDay, begun);
      var loan := Loan(c, owner, Borrower.Guest(Some(contact)), PendingConfirmation, None, Some(DayStart(handedDay)),
                       if dueDay.Some? then Some(DayStart(dueDay.value)) else None, None);
      && v == w.(contacts := v.contacts, copies := w.copies[c := Copy(owner, Reserved, None, Some(contact), None)],
                 loans := w.loans[l := loan], confs := w.confs[l := Confirmation(Some(contact), P.NEW_ROW)],
                 log := w.log + [Event(l, ConfirmationRequested, Some(owner), begun, None)])
      && OnlyDateMoves(w, v, Some(contact))
  {
  }

  // ----- return, loss, recovery, closure -----

  /** Entry `i` of the log is this event of the loan. */
  predicate Logged(log: seq<Event>, l: Id, kind: EventKind) {
    exists i | 0 <= i < |log| :: log[i].loan == l && log[i].kind == kind
  }

  lemma {:induction false} EventIsLogged(log: seq<Event>, l: Id, kind: EventKind)
    ensures HasEvent(log, l, kind) <==> Logged(log, l, kind)
  {
    if |log| > 0 {
      var init := log[..|log| - 1];
      EventIsLogged(init, l, kind);
      assert forall i | 0 <= i < |init| :: init[i] == log[i];
    }
  }

  /** Exactly when one of the four actions is accepted. */
  lemma ActionNeeds(w: World, owner: Id, l: Id, action: GuestAction, day: Option<nat>)
    ensures
      ApplyReply(w, owner, l, action, day) == Done <==>
        && l in w.loans && w.loans[l].borrower.Guest? && w.loans[l].owner == owner && w.loans[l].handedAt.Some?
        && w.loans[l].copy in w.copies
        && match action
           case Return => w.loans[l].status == HandedOver
           case MarkLost => w.loans[l].status == HandedOver
           case Recover =>
             && w.loans[l].status == Lost && !Logged(w.log, l, Recovered)
             && w.copies[w.loans[l].copy].archivedAt.None?
             && (day.Some? ==> day.value * (24 * 3_600_000) <= w.clock)
           case CloseLoss => w.loans[l].status == Lost && !Logged(w.log, l, Recovered) && !Logged(w.log, l, LossClosed)
  {
    EventIsLogged(w.log, l, Recovered);
    EventIsLogged(w.log, l, LossClosed);
    assert P.DAY == 24 * 3_600_000;
    if day.Some? {
      DayReached(day.value, w.clock);
    }
    hide HasEvent, Logged;
  }

  /** Why an action on a guest loan is refused. */
  lemma ActionRefusals(w: World, owner: Id, l: Id, action: GuestAction, day: Option<nat>)
    ensures
      var r := ApplyReply(w, owner, l, action, day);
      var visible := && l in w.loans && w.loans[l].borrower.Guest? && w.loans[l].owner == owner && w.loans[l].handedAt.Some?
                     && w.loans[l].status in {HandedOver, Returned, LoanStatus.Lost} && w.loans[l].copy in w.copies;
      var recovered, closed := Logged(w.log, l, Recovered), Logged(w.log, l, LossClosed);
      var late := day.Some? && day.value * (24 * 3_600_000) > w.clock;
      && (r == NotFound <==> !visible)
      && (r == InvalidTransition <==>
            visible && w.loans[l].status != (if action == Return || action == MarkLost then HandedOver else LoanStatus.Lost))
      && (r == AlreadyRecovered <==> visible && action == Recover && w.loans[l].status == LoanStatus.Lost && recovered)
      && (r == AlreadyClosed <==>
            visible && action == CloseLoss && w.loans[l].status == LoanStatus.Lost && (recovered || closed))
      && (r == RecoveryDateInvalid <==>
            visible && action == Recover && w.loans[l].status == LoanStatus.Lost && !recovered && late)
      && (r == CopyArchived <==>
            && visible && action == Recover && w.loans[l].status == LoanStatus.Lost && !recovered && !late
            && w.copies[w.loans[l].copy].archivedAt.Some?)
  {
    EventIsLogged(w.log, l, Recovered);
    EventIsLogged(w.log, l, LossClosed);
    if day.Some? {
      DayReached(day.value, w.clock);
    }
    hide HasEvent, Logged, Today;
  }

  lemma DayReached(day: nat, now: Time)
    ensures day <= Today(now) <==> day * (24 * 3_600_000) <= now
  {
    assert P.DAY == 24 * 3_600_000;
    assert Today(now) * P.DAY <= now < (Today(now) + 1) * P.DAY;
    if day <= Today(now) {
      assert day * P.DAY <= Today(now) * P.DAY;
    } else {
      assert day * P.DAY >= (Today(now) + 1) * P.DAY;
    }
  }

  /** A returned loan is stamped, and its copy is at home and available again. */
  lemma ReturnedInColumns(w: World, owner: Id, l: Id, day: Option<nat>, begun: Time)
    requires ApplyReply(w, owner, l, Return, day) == Done
    ensures
      var v, loan, copy := Apply(w, owner, l, Return, day, begun), w.loans[l], w.copies[w.loans[l].copy];
      && v == w.(contacts := v.contacts,
                 loans := w.loans[l := loan.(status := Returned, returnedAt := Some(w.clock))],
                 copies := w.copies[loan.copy := Copy(copy.owner, Available, Some(copy.owner), None, copy.archivedAt)],
                 log := w.log + [Event(l, LoanReturned, Some(owner), begun, None)])
      && OnlyDateMoves(w, v, loan.borrower.contact)
  {
  }

  /** A lost loan keeps its copy with whoever had it, out of circulation. */
  lemma LostInColumns(w: World, owner: Id, l: Id, day: Option<nat>, begun: Time)
    requires ApplyReply(w, owner, l, MarkLost, day) == Done
    ensures
      var v, loan, copy := Apply(w, owner, l, MarkLost, day, begun), w.loans[l], w.copies[w.loans[l].copy];
      && v == w.(contacts := v.contacts,
                 loans := w.loans[l := loan.(status := Lost)],
                 copies := w.copies[loan.copy := Copy(copy.owner, Unavailable, copy.holder, copy.contact, copy.archivedAt)],
                 log := w.log + [Event(l, LoanLost, Some(owner), begun, None)])
      && OnlyDateMoves(w, v, loan.borrower.contact)
  {
  }

  /** A recovered copy is at home and available; the loan stays lost, and the event has the day that was given, or now. */
  lemma RecoveredInColumns(w: World, owner: Id, l: Id, day: Option<nat>, begun: Time)
    requires ApplyReply(w, owner, l, Recover, day) == Done
    ensures
      var v, loan, copy := Apply(w, owner, l, Recover, day, begun), w.loans[l], w.copies[w.loans[l].copy];
      && v == w.(contacts := v.contacts,
                 copies := w.copies[loan.copy := Copy(copy.owner, Available, Some(copy.owner), None, copy.archivedAt)],
                 log := w.log + [Event(l, Recovered, Some(owner), begun,
                                       if day.Some? then Some(DayStart(day.value)) else Some(w.clock))])
      && OnlyDateMoves(w, v, loan.borrower.contact)
  {
  }

  /** Closing a loss writes its event and moves no row. */
  lemma ClosedInColumns(w: World, owner: Id, l: Id, day: Option<nat>, begun: Time)
    requires ApplyReply(w, owner, l, CloseLoss, day) == Done
    ensures
      var v := Apply(w, owner, l, CloseLoss, day, begun);
      && v == w.(contacts := v.contacts, log := w.log + [Event(l, LossClosed, Some(owner), begun, None)])
      && OnlyDateMoves(w, v, w.loans[l].borrower.contact)
  {
  }

  lemma CopyIsOwners(w: World, l: Id)
    requires Inv(w) && l in w.loans
    ensures w.loans[l].copy in w.copies && w.copies[w.loans[l].copy].owner == w.loans[l].owner
  {
    assert LoanOk(w, l);
  }

  /** A copy that came back, and was not archived meanwhile, can be lent again at once, to anyone its owner knows. */
  lemma ReturnedCanBeLent(w: World, owner: Id, l: Id, action: GuestAction, day: Option<nat>, begun: Time, contact: Id,
                          handedDay: nat, dueDay: Option<nat>)
    requires Inv(w) && ApplyReply(w, owner, l, action, day) == Done && (action == Return || action == Recover)
    requires w.copies[w.loans[l].copy].archivedAt.None?
    requires contact in w.contacts && w.contacts[contact].owner == owner
    requires handedDay * (24 * 3_600_000) <= w.clock && (dueDay.Some? ==> handedDay <= dueDay.value)
    ensures HandoverReply(Apply(w, owner, l, action, day, begun), owner, contact, w.loans[l].copy, handedDay, dueDay) == Done
  {
    hide Inv, Apply;
    CopyIsOwners(w, l);
    var v := Apply(w, owner, l, action, day, begun);
    if action == Return {
      ReturnedInColumns(w, owner, l, day, begun);
    } else {
      RecoveredInColumns(w, owner, l, day, begun);
    }
    HandoverNeeds(v, owner, contact, w.loans[l].copy, handedDay, dueDay);
  }

  // ----- the owner's decision and the guest's answer -----

  /** Exactly when the owner may decide, on the rows of any run. */
  lemma DecisionNeeds(w: World, owner: Id, l: Id, decision: P.Decision)
    ensures DecideReply(w, owner, l, decision) == Done <==>
              && l in w.confs && l in w.loans && w.loans[l].owner == owner
              && (w.confs[l].row.status == P.Open || w.confs[l].row.status == P.Denied)
  {
  }

  lemma DecisionRefusals(w: World, owner: Id, l: Id, decision: P.Decision)
    ensures
      var known := l in w.confs && l in w.loans && w.loans[l].owner == owner;
      && (DecideReply(w, owner, l, decision) == NotFound <==> !known)
      && (DecideReply(w, owner, l, decision) == InvalidTransition <==>
            known && w.confs[l].row.status != P.Open && w.confs[l].row.status != P.Denied)
  {
  }

  predicate HasChain(w: World, l: Id) {
    l in w.loans && l in w.confs && w.loans[l].copy in w.copies
  }

  predicate CancelledTo(w: World, v: World, owner: Id, l: Id, begun: Time)
    requires HasChain(w, l)
  {
    var loan, copy := w.loans[l], w.copies[w.loans[l].copy];
    && v == w.(contacts := v.contacts,
               loans := w.loans[l := loan.(status := Cancelled)],
               copies := w.copies[loan.copy := Copy(copy.owner, Available, Some(owner), None, copy.archivedAt)],
               confs := w.confs[l := Confirmation(w.confs[l].contact, E.Over(P.CancelledByOwner, Some(w.clock)))],
               log := w.log + [Event(l, HandoverCancelled, Some(owner), begun, None)])
    && OnlyDateMoves(w, v, w.confs[l].contact)
  }

  lemma CancelWrites(w: World, owner: Id, l: Id, begun: Time)
    requires DecideReply(w, owner, l, P.CancelHandover) == Done && PendingChain(w, l)
    ensures CancelledTo(w, Decide(w, owner, l, P.CancelHandover, begun), owner, l, begun)
  {
  }

  /** A cancelled handover ends its loan and its confirmation, and the copy is at home and available. */
  lemma CancelledInColumns(w: World, owner: Id, l: Id, begun: Time)
    requires Core(w) && DecideReply(w, owner, l, P.CancelHandover) == Done
    ensures HasChain(w, l) && CancelledTo(w, Decide(w, owner, l, P.CancelHandover, begun), owner, l, begun)
  {
    hide Core, Decide, CancelledTo;
    ChainIsPending(w, l);
    CancelWrites(w, owner, l, begun);
  }

  predicate RecordedTo(w: World, v: World, owner: Id, l: Id, begun: Time)
    requires HasChain(w, l)
  {
    var loan, copy := w.loans[l], w.copies[w.loans[l].copy];
    && v == w.(contacts := v.contacts, loans := v.loans, notices := v.notices,
               copies := w.copies[loan.copy := Copy(copy.owner, LentOut, None, w.confs[l].contact, copy.archivedAt)],
               confs := w.confs[l := Confirmation(w.confs[l].contact, E.Over(P.OwnerRecorded, Some(w.clock)))],
               log := w.log + [Event(l, LoanOwnerRecorded, Some(owner), begun, None)])
    && RequestsTurnedDown(w, v, loan.copy, l) && v.loans[l] == loan.(status := HandedOver)
    && OnlyDateMoves(w, v, w.confs[l].contact)
  }

  lemma RecordWrites(w: World, owner: Id, l: Id, begun: Time)
    requires DecideReply(w, owner, l, P.RecordOwnerStatement) == Done && PendingChain(w, l)
    ensures RecordedTo(w, Decide(w, owner, l, P.RecordOwnerStatement, begun), owner, l, begun)
  {
  }

  /** A handover the owner states is in effect: the copy is out with the contact, and requests for it are turned down. */
  lemma RecordedInColumns(w: World, owner: Id, l: Id, begun: Time)
    requires Core(w) && DecideReply(w, owner, l, P.RecordOwnerStatement) == Done
    ensures HasChain(w, l) && RecordedTo(w, Decide(w, owner, l, P.RecordOwnerStatement, begun), owner, l, begun)
  {
    hide Core, Decide, RecordedTo;
    ChainIsPending(w, l);
    RecordWrites(w, owner, l, begun);
  }

  /** What a guest must bring: the current link within its term, and the proof within its own for this very challenge. */
  lemma AnswerNeeds(w: World, l: Id, token: P.Secret, email: string, nickname: string, proof: P.Secret, answer: P.Answer)
    ensures
      AnswerReply(w, l, token, email, nickname, proof, answer) == Done <==>
        && l in w.confs
        && var row := w.confs[l].row;
        && row.status == P.Open && row.linkToken == Some(token)
        && row.linkExpiresAt.Some? && w.clock < row.linkExpiresAt.value
        && row.proofHash == Some(proof) && row.proofExpiresAt.Some? && w.clock < row.proofExpiresAt.value
        && row.verifiedAt.Some? && row.challengeMac == Some(F.ChallengeMac(l, email, nickname))
  {
    hide F.ChallengeMac;
  }

  /** The contact after an answer: it has the identity that was proven, and its date may move. */
  predicate OnlyContactIdentified(w: World, v: World, contact: Option<Id>, nickname: string, email: string, at: Option<Time>) {
    && v.contacts.Keys == w.contacts.Keys
    && forall c | c in w.contacts ::
         v.contacts[c] ==
           if contact == Some(c) && at.Some?
           then Contact(w.contacts[c].owner, w.contacts[c].createdAt, v.contacts[c].retainUntil,
                        Some(GuestIdentity(F.Trim(nickname), F.CanonicalEmail(email), at.value)))
           else w.contacts[c]
  }

  predicate ReceivedTo(w: World, v: World, l: Id, email: string, nickname: string, begun: Time)
    requires HasChain(w, l)
  {
    var loan, copy := w.loans[l], w.copies[w.loans[l].copy];
    && v == w.(contacts := v.contacts, loans := v.loans, notices := v.notices,
               copies := w.copies[loan.copy := Copy(copy.owner, LentOut, None, w.confs[l].contact, copy.archivedAt)],
               confs := w.confs[l := Confirmation(w.confs[l].contact, E.Over(P.Received, Some(w.clock)))],
               log := w.log + [Event(l, LoanReceived, None, begun, None)])
    && RequestsTurnedDown(w, v, loan.copy, l) && v.loans[l] == loan.(status := HandedOver)
    && OnlyContactIdentified(w, v, w.confs[l].contact, nickname, email, w.confs[l].row.verifiedAt)
  }

  predicate DeniedTo(w: World, v: World, l: Id, email: string, nickname: string, begun: Time)
    requires HasChain(w, l)
  {
    && v == w.(contacts := v.contacts,
               confs := w.confs[l := Confirmation(w.confs[l].contact, E.Over(P.Denied, None))],
               log := w.log + [Event(l, LoanDenied, None, begun, None)])
    && OnlyContactIdentified(w, v, w.confs[l].contact, nickname, email, w.confs[l].row.verifiedAt)
  }

  lemma ReceiptWrites(w: World, l: Id, token: P.Secret, email: string, nickname: string, proof: P.Secret, begun: Time)
    requires AnswerReply(w, l, token, email, nickname, proof, P.SaysReceived) == Done && PendingChain(w, l)
    ensures ReceivedTo(w, AnswerGuest(w, l, token, email, nickname, proof, P.SaysReceived, begun), l, email, nickname, begun)
  {
    hide F.ChallengeMac, F.Trim, F.CanonicalEmail;
  }

  lemma DenialWrites(w: World, l: Id, token: P.Secret, email: string, nickname: string, proof: P.Secret, begun: Time)
    requires AnswerReply(w, l, token, email, nickname, proof, P.SaysDenied) == Done && PendingChain(w, l)
    ensures DeniedTo(w, AnswerGuest(w, l, token, email, nickname, proof, P.SaysDenied, begun), l, email, nickname, begun)
  {
    hide F.ChallengeMac, F.Trim, F.CanonicalEmail;
  }

  /** A confirmed handover is in effect; a denied one stays pending for the owner to decide; both close the link. */
  lemma AnswerInColumns(w: World, l: Id, token: P.Secret, email: string, nickname: string, proof: P.Secret, answer: P.Answer,
                        begun: Time)
    requires Core(w) && AnswerReply(w, l, token, email, nickname, proof, answer) == Done
    ensures HasChain(w, l)
    ensures
      var v := AnswerGuest(w, l, token, email, nickname, proof, answer, begun);
      if answer == P.SaysReceived then ReceivedTo(w, v, l, email, nickname, begun) else DeniedTo(w, v, l, email, nickname, begun)
  {
    AnswerNeeds(w, l, token, email, nickname, proof, answer);
    hide Core, AnswerGuest, AnswerReply, ReceivedTo, DeniedTo, F.ChallengeMac;
    ChainIsPending(w, l);
    if answer == P.SaysReceived {
      ReceiptWrites(w, l, token, email, nickname, proof, begun);
    } else {
      DenialWrites(w, l, token, email, nickname, proof, begun);
    }
  }

  // ----- the link and the code of a confirmation -----

  /** The tables but for the row of one confirmation. */
  predicate OnlyRowMoves(w: World, v: World, l: Id, row: P.Row) {
    l in w.confs && v == w.(confs := w.confs[l := Confirmation(w.confs[l].contact, row)])
  }

  /** A link is issued to the owner of an open confirmation and to nobody else. */
  lemma LinkNeeds(w: World, owner: Id, l: Id)
    ensures
      var known := l in w.confs && l in w.loans && w.loans[l].owner == owner;
      && (IssueLinkReply(w, owner, l) == NotFound <==> !known)
      && (IssueLinkReply(w, owner, l) == LinkRefused(P.LinkNotIssuable) <==> known && w.confs[l].row.status != P.Open)
      && (IssueLinkReply(w, owner, l) == Done <==> known && w.confs[l].row.status == P.Open)
  {
  }

  /** And it is then the only thing the row has, for seven days; every other row stays. */
  lemma LinkInColumns(w: World, owner: Id, l: Id, token: P.Secret)
    requires Core(w)
    ensures
      if IssueLinkReply(w, owner, l) == Done then
        OnlyRowMoves(w, IssueLink(w, owner, l, token), l,
                     P.Row(P.Open, None, Some(token), Some(w.clock), Some(w.clock + 7 * 24 * 3_600_000),
                           None, None, None, None, 0, 0, 0, None, None, None, None))
      else IssueLink(w, owner, l, token) == w
  {
    hide Core;
    if IssueLinkReply(w, owner, l) == Done {
      OpenIsUnresolved(w, l);
      ChainIsPending(w, l);
    }
  }

  lemma OpenIsUnresolved(w: World, l: Id)
    requires Core(w) && l in w.confs && w.confs[l].row.status == P.Open
    ensures w.confs[l].row.resolvedAt.None?
  {
  }

  /**
   * What the guest is told is what the row says: an unknown confirmation reads as an invalid link, an accepted request is
   * done, and every other reply is passed on; no other row moves.
   */
  lemma GuestIsToldTheReply(w: World, l: Id, token: P.Secret, email: string, nickname: string, code: string, secret: P.Secret,
                            answer: P.Answer)
    ensures l !in w.confs ==>
              && RequestCodeReply(w, l, token, email, nickname, code, secret) == LinkRefused(P.LinkInvalid)
              && VerifyCodeReply(w, l, token, email, nickname, code, secret) == LinkRefused(P.LinkInvalid)
              && AnswerReply(w, l, token, email, nickname, secret, answer) == LinkRefused(P.LinkInvalid)
              && RequestCode(w, l, token, email, nickname, code, secret) == w
              && VerifyCode(w, l, token, email, nickname, code, secret) == w
    ensures l in w.confs ==>
              var row := w.confs[l].row;
              var (asked, r) := P.RequestCode(row, l, token, email, nickname, code, secret, w.clock);
              var (checked, s) := P.VerifyCode(row, l, token, email, nickname, code, secret, w.clock);
              var t := P.AnswerLink(row, l, token, email, nickname, secret, answer, w.clock).1;
              && RequestCodeReply(w, l, token, email, nickname, code, secret) == (if r == P.Accepted then Done else LinkRefused(r))
              && VerifyCodeReply(w, l, token, email, nickname, code, secret) == (if s == P.Accepted then Done else LinkRefused(s))
              && AnswerReply(w, l, token, email, nickname, secret, answer) == (if t == P.Accepted then Done else LinkRefused(t))
              && OnlyRowMoves(w, RequestCode(w, l, token, email, nickname, code, secret), l, asked)
              && OnlyRowMoves(w, VerifyCode(w, l, token, email, nickname, code, secret), l, checked)
  {
    hide P.RequestCode, P.VerifyCode, P.AnswerLink;
  }

  // ----- contacts and copies -----

  /** A contact can be deleted exactly if no loan of it occupies a copy and no loss of it is open. */
  lemma DeletionNeeds(w: World, owner: Id, c: Id)
    ensures EraseReply(w, owner, c) == Done <==>
              && c in w.contacts && w.contacts[c].owner == owner
              && forall l | l in w.loans && w.loans[l].borrower == Borrower.Guest(Some(c)) ::
                   && w.loans[l].status != Approved && w.loans[l].status != PendingConfirmation && w.loans[l].status != HandedOver
                   && (w.loans[l].status == Lost ==> Logged(w.log, l, Recovered) || Logged(w.log, l, LossClosed))
  {
    forall l
      ensures HasEvent(w.log, l, Recovered) <==> Logged(w.log, l, Recovered)
      ensures HasEvent(w.log, l, LossClosed) <==> Logged(w.log, l, LossClosed)
    {
      EventIsLogged(w.log, l, Recovered);
      EventIsLogged(w.log, l, LossClosed);
    }
    hide HasEvent, Logged;
  }

  /** New rows: a contact from its given beginning, kept 90 days; a copy at home; a request for a copy that is at home. */
  lemma NewRows(w: World, owner: Id, c: Id, begun: Time, user: Id, l: Id)
    ensures AddContact(w, owner, c, begun)
         == w.(contacts := w.contacts[c := Contact(owner, begun, Some(begun + 90 * 24 * 3_600_000), None)])
    ensures AddCopy(w, owner, c) == w.(copies := w.copies[c := Copy(owner, Available, Some(owner), None, None)])
    ensures
      AskToBorrow(w, user, c, l)
      == if c in w.copies && w.copies[c] == Copy(w.copies[c].owner, Available, Some(w.copies[c].owner), None, None)
         then w.(loans := w.loans[l := Loan(c, w.copies[c].owner, Registered(user), Requested, None, None, None, None)])
         else w
  {
  }

  /** Why a deletion is refused: a loan that occupies a copy comes before an open loss. */
  lemma DeletionRefusals(w: World, owner: Id, c: Id)
    ensures
      var mine := c in w.contacts && w.contacts[c].owner == owner;
      var active := exists l | l in w.loans && w.loans[l].borrower == Borrower.Guest(Some(c)) ::
                      w.loans[l].status in {Approved, PendingConfirmation, HandedOver};
      && (EraseReply(w, owner, c) == NotFound <==> !mine)
      && (EraseReply(w, owner, c) == HasActive <==> mine && active)
      && (EraseReply(w, owner, c) == HasUnresolvedLoss <==> mine && !active && EraseReply(w, owner, c) != Done)
  {
  }

  /** A cleanup looks again at each of its contacts: it goes if its date has passed and no loan of it occupies a copy. */
  lemma CleanedInColumns(w: World, now: Time, batch: set<Id>, c: Id)
    requires c in w.contacts
    ensures c !in Cleaned(w, now, batch).contacts <==>
              && c in batch && w.contacts[c].retainUntil.Some? && w.contacts[c].retainUntil.value <= now
              && forall l | l in w.loans && w.loans[l].borrower == Borrower.Guest(Some(c)) ::
                   w.loans[l].status !in {Approved, PendingConfirmation, HandedOver}
    ensures c in Cleaned(w, now, batch).contacts ==> Cleaned(w, now, batch).contacts[c] == w.contacts[c]
  {
  }

  predicate Occupied(w: World, c: Id) {
    exists l | l in w.loans ::
      w.loans[l].copy == c
      && (w.loans[l].status == Approved || w.loans[l].status == PendingConfirmation || w.loans[l].status == HandedOver)
  }

  /** The owner sets the status of a copy that is with them and not taken, to what they chose. */
  lemma StatusEdited(w: World, owner: Id, c: Id, available: bool)
    ensures
      var v := EditStatus(w, owner, c, available);
      if c in w.copies && w.copies[c].owner == owner && w.copies[c].holder == Some(owner) && !Occupied(w, c)
      then
        && EditStatusReply(w, owner, c) == Done
        && v == w.(copies := w.copies[c := w.copies[c].(status := if available then Available else Unavailable)])
      else
        && v == w
        && EditStatusReply(w, owner, c) == if c in w.copies && w.copies[c].owner == owner then StatusLocked else NotFound
  {
  }

  /** A copy is archived now, unless a loan occupies it; requests for it are turned down; a second time nothing happens. */
  lemma ArchivedInColumns(w: World, owner: Id, c: Id)
    ensures
      var v := Archive(w, owner, c);
      if c !in w.copies || w.copies[c].owner != owner then ArchiveReply(w, owner, c) == NotFound && v == w
      else if w.copies[c].archivedAt.Some? then ArchiveReply(w, owner, c) == Done && v == w
      else if Occupied(w, c) then ArchiveReply(w, owner, c) == CopyHasActiveLoan && v == w
      else
        && ArchiveReply(w, owner, c) == Done
        && v == w.(copies := w.copies[c := w.copies[c].(archivedAt := Some(w.clock))], loans := v.loans, notices := v.notices)
        && v.loans.Keys == w.loans.Keys
        && forall m | m in w.loans ::
             var loan := w.loans[m];
             v.loans[m] == if loan.copy == c && loan.borrower.Registered? && loan.status == Requested
                           then loan.(status := Rejected, respondedAt := Some(w.clock)) else loan
  {
  }

  /** An own copy is restored as it was, and removed only if no loan was ever made of it. */
  lemma RestoredAndRemoved(w: World, owner: Id, c: Id)
    ensures
      var mine := c in w.copies && w.copies[c].owner == owner;
      && Restore(w, owner, c) == (if mine then w.(copies := w.copies[c := w.copies[c].(archivedAt := None)]) else w)
      && RestoreReply(w, owner, c) == (if mine then Done else NotFound)
      && (RemoveReply(w, owner, c) == NotFound <==> !mine)
      && (RemoveReply(w, owner, c) == HasLoanHistory <==> mine && exists l | l in w.loans :: w.loans[l].copy == c)
      && (RemoveReply(w, owner, c) == Done <==> mine && forall l | l in w.loans :: w.loans[l].copy != c)
      && Remove(w, owner, c) == (if RemoveReply(w, owner, c) == Done then w.(copies := w.copies - {c}) else w)
  {
  }
}
