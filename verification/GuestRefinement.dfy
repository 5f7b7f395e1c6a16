/**
 * The world refines the protocol: seen from one confirmation, a run of the whole world is a run of the
 * row protocol, so every promise of the protocol holds inside the world.
 */
module GuestRefinement {
  import opened Wrappers
  import opened GuestModel
  import opened GuestInvariant
  import opened GuestSteps
  import opened GuestPreserve
  import opened GuestRuns
  import P = GuestProtocol
  import S = ProtocolSafety
  import F = Framing

  /** The request that step `s` makes of confirmation `l`, if it reaches that row at all. */
  function RequestTo(w: World, s: Step, l: Id): (reqs: seq<P.Timed>)
    ensures |reqs| <= 1
  {
    if l !in w.confs then []
    else
      match s
      case DoIssueLink(owner, k, token) =>
        if k == l && IssueLinkReply(w, owner, l) == Done then [P.Timed(w.clock, P.IssueLink(token))] else []
      case DoRequestCode(k, _, _, _, _, _) => if k == l then [P.Timed(w.clock, RequestOf(s))] else []
      case DoVerifyCode(k, _, _, _, _, _) => if k == l then [P.Timed(w.clock, RequestOf(s))] else []
      case CodeMailFails(k, _) => if k == l then [P.Timed(w.clock, RequestOf(s))] else []
      case LinkMailFails(k, _) => if k == l then [P.Timed(w.clock, RequestOf(s))] else []
      case DoAnswer(k, token, email, nickname, proof, answer, begun) =>
        if k == l && begun <= w.clock then [P.Timed(w.clock, P.Respond(token, email, nickname, proof, answer))] else []
      case DoDecide(owner, k, decision, begun) =>
        if k == l && begun <= w.clock && DecideReply(w, owner, l, decision) == Done
        then [P.Timed(w.clock, P.OwnerDecides(decision))] else []
      case _ => []
  }

  /** All requests that reached confirmation `l` in a run, in order. */
  ghost function RequestsTo(steps: seq<Step>, l: Id): seq<P.Timed> {
    if |steps| == 0 then []
    else
      var init := steps[..|steps| - 1];
      RequestsTo(init, l) + RequestTo(Run(init), steps[|steps| - 1], l)
  }

  function Applied(row: P.Row, l: Id, reqs: seq<P.Timed>): P.Row
    requires |reqs| <= 1
  {
    if reqs == [] then row else P.Step(row, l, reqs[0].req, reqs[0].at).0
  }

  // ----- one step -----

  /** Steps that leave every confirmation row as it is. */
  lemma OtherStepsKeepRows(w: World, s: Step, l: Id)
    requires l in w.confs
    requires !RowStep(s) && !s.DoAnswer? && !s.DoDecide?
    requires s.DoLend? || s.DoOpenConfirmation? ==> l in w.loans
    ensures l in Next(w, s).confs && Next(w, s).confs[l].row == w.confs[l].row
  {
  }

  /** What the invariant says about a confirmation that may still move. */
  predicate ChainReady(w: World, l: Id) {
    l in w.confs && (w.confs[l].row.status == P.Open || w.confs[l].row.status == P.Denied) ==> PendingChain(w, l)
  }

  lemma ChainsReady(w: World, l: Id)
    requires Core(w)
    ensures ChainReady(w, l)
  {
    if l in w.confs && (w.confs[l].row.status == P.Open || w.confs[l].row.status == P.Denied) {
      ChainIsPending(w, l);
    }
  }

  lemma RowStepProjects(w: World, s: Step, l: Id)
    requires l in w.confs && RowStep(s) && ChainReady(w, s.loan)
    ensures l in Next(w, s).confs && Next(w, s).confs[l].row == Applied(w.confs[l].row, l, RequestTo(w, s, l))
  {
    RowStepIsRequest(w, s);
    if s.loan in w.confs && !s.DoIssueLink? {
      var row := P.Step(w.confs[s.loan].row, s.loan, RequestOf(s), w.clock).0;
      assert Next(w, s) == WithRow(w, s.loan, row);
    }
  }

  lemma RefusalKeepsRow(row: P.Row, l: Id, req: P.Request, now: P.Time)
    requires req.Respond? || req.OwnerDecides?
    requires P.Step(row, l, req, now).1 != P.Accepted
    ensures P.Step(row, l, req, now).0 == row
  {
  }

  lemma AcceptedAnswerWasOpen(row: P.Row, l: Id, req: P.Request, now: P.Time)
    requires req.Respond? && P.Step(row, l, req, now).1 == P.Accepted
    ensures row.status == P.Open
  {
  }

  lemma AnswerProjects(w: World, s: Step, l: Id)
    requires l in w.confs && s.DoAnswer? && ChainReady(w, s.loan)
    ensures l in Next(w, s).confs && Next(w, s).confs[l].row == Applied(w.confs[l].row, l, RequestTo(w, s, l))
  {
    hide P.AnswerLink, HasActiveLoan;
    if s.loan == l {
      var req := P.Respond(s.token, s.email, s.nickname, s.proof, s.answer);
      if P.Step(w.confs[l].row, l, req, w.clock).1 == P.Accepted {
        AcceptedAnswerWasOpen(w.confs[l].row, l, req, w.clock);
      } else {
        RefusalKeepsRow(w.confs[l].row, l, req, w.clock);
      }
    }
  }

  lemma DecisionProjects(w: World, s: Step, l: Id)
    requires l in w.confs && s.DoDecide? && ChainReady(w, s.loan)
    ensures l in Next(w, s).confs && Next(w, s).confs[l].row == Applied(w.confs[l].row, l, RequestTo(w, s, l))
  {
  }

  lemma OtherStepProjects(w: World, s: Step, l: Id)
    requires l in w.loans && l in w.confs && !RowStep(s) && !s.DoAnswer? && !s.DoDecide?
    ensures l in Next(w, s).confs && Next(w, s).confs[l].row == Applied(w.confs[l].row, l, RequestTo(w, s, l))
  {
    hide Next;
    OtherStepsKeepRows(w, s, l);
  }

  lemma ConfirmationHasLoan(w: World, l: Id)
    requires Core(w) && l in w.confs
    ensures l in w.loans
  {
    assert ConfOk(w, l);
  }

  lemma StepProjects(w: World, s: Step, l: Id)
    requires Core(w) && l in w.confs
    ensures l in Next(w, s).confs && Next(w, s).confs[l].row == Applied(w.confs[l].row, l, RequestTo(w, s, l))
  {
    hide Core, Next, RequestTo, Applied, ChainReady;
    if RowStep(s) {
      ChainsReady(w, s.loan);
      RowStepProjects(w, s, l);
    } else if s.DoAnswer? {
      ChainsReady(w, s.loan);
      AnswerProjects(w, s, l);
    } else if s.DoDecide? {
      ChainsReady(w, s.loan);
      DecisionProjects(w, s, l);
    } else {
      ConfirmationHasLoan(w, l);
      OtherStepProjects(w, s, l);
    }
  }

  lemma OtherStepsBearNone(w: World, s: Step, l: Id)
    requires l !in w.confs && !s.DoOpenConfirmation?
    ensures l !in Next(w, s).confs
  {
    if RowStep(s) {
      RowStepIsRequest(w, s);
      hide Next, P.Step;
    } else {
      hide HandoverReply, NewLoan, P.AnswerLink, P.Decide, IssueLink, RequestCode, VerifyCode;
    }
  }

  /** A confirmation comes into being as the protocol's first row. */
  lemma BornFresh(w: World, s: Step, l: Id)
    requires l !in w.confs && l in Next(w, s).confs
    ensures Next(w, s).confs[l].row == P.NEW_ROW
  {
    if !s.DoOpenConfirmation? {
      OtherStepsBearNone(w, s, l);
    }
  }

  // ----- whole runs -----

  lemma {:induction false} ClockNeverRunsBack(steps: seq<Step>)
    requires |steps| > 0
    ensures Run(steps[..|steps| - 1]).clock <= Run(steps).clock
  {
    NextKeepsClock(Run(steps[..|steps| - 1]), steps[|steps| - 1]);
  }

  lemma NextKeepsClock(w: World, s: Step)
    ensures w.clock <= Next(w, s).clock
  {
  }

  lemma {:induction false} NoRequestsBeforeBirth(steps: seq<Step>, l: Id)
    requires l !in Run(steps).confs
    ensures RequestsTo(steps, l) == []
  {
    if |steps| > 0 {
      var init := steps[..|steps| - 1];
      if l in Run(init).confs {
        RunKeepsInv(init);
        StepProjects(Run(init), steps[|steps| - 1], l);
      } else {
        NoRequestsBeforeBirth(init, l);
      }
    }
  }

  lemma RequestComesNow(w: World, s: Step, l: Id)
    ensures |RequestTo(w, s, l)| <= 1 && forall t | t in RequestTo(w, s, l) :: t.at == w.clock
  {
  }

  lemma InOrderWithMore(reqs: seq<P.Timed>, more: seq<P.Timed>, now: Time)
    requires P.ClockMonotone(reqs) && forall t | t in reqs :: t.at <= now
    requires |more| <= 1 && forall t | t in more :: t.at == now
    ensures P.ClockMonotone(reqs + more) && forall t | t in reqs + more :: t.at <= now
  {
    var all := reqs + more;
    forall i, j | 0 <= i < j < |all|
      ensures all[i].at <= all[j].at
    {
      assert i < |reqs| ==> reqs[i] in reqs;
      assert j >= |reqs| ==> more[j - |reqs|] in more;
    }
  }

  lemma {:induction false} RequestsInOrder(steps: seq<Step>, l: Id)
    ensures P.ClockMonotone(RequestsTo(steps, l))
    ensures forall t | t in RequestsTo(steps, l) :: t.at <= Run(steps).clock
  {
    hide Next, RequestTo, P.ClockMonotone;
    if |steps| > 0 {
      var init, step := steps[..|steps| - 1], steps[|steps| - 1];
      RequestsInOrder(init, l);
      ClockNeverRunsBack(steps);
      RequestComesNow(Run(init), step, l);
      InOrderWithMore(RequestsTo(init, l), RequestTo(Run(init), step, l), Run(init).clock);
    } else {
      NoneInOrder();
    }
  }

  lemma NoneInOrder()
    ensures P.ClockMonotone([])
  {
  }

  lemma ExtendedRun(l: Id, before: seq<P.Timed>, more: seq<P.Timed>)
    requires |more| <= 1
    ensures P.Run(l, before + more).row == Applied(P.Run(l, before).row, l, more)
  {
    if more == [] {
      assert before + more == before;
    } else {
      assert (before + more)[..|before + more| - 1] == before;
    }
  }

  /** In every run of the world each confirmation row is the row the protocol computes from its requests. */
  lemma {:induction false} WorldRefinesProtocol(steps: seq<Step>, l: Id)
    requires l in Run(steps).confs
    ensures Run(steps).confs[l].row == P.Run(l, RequestsTo(steps, l)).row
    ensures P.ClockMonotone(RequestsTo(steps, l))
  {
    RequestsInOrder(steps, l);
    var init := steps[..|steps| - 1];
    if l in Run(init).confs {
      WorldRefinesProtocol(init, l);
      RunKeepsInv(init);
      RefinementStep(Run(init), steps[|steps| - 1], l, RequestsTo(init, l));
    } else {
      NoRequestsBeforeBirth(init, l);
      BornFresh(Run(init), steps[|steps| - 1], l);
      assert RequestsTo(steps, l) == [];
    }
  }

  /** One more step of the world, for a row that was already the protocol's. */
  lemma RefinementStep(w: World, s: Step, l: Id, before: seq<P.Timed>)
    requires Core(w) && l in w.confs && w.confs[l].row == P.Run(l, before).row
    ensures l in Next(w, s).confs && Next(w, s).confs[l].row == P.Run(l, before + RequestTo(w, s, l)).row
  {
    hide Core, Next, RequestTo, Applied;
    StepProjects(w, s, l);
    ExtendedRun(l, before, RequestTo(w, s, l));
  }

  // ----- a promise of the protocol, kept in the world -----

  /** A row that says "received" has the answer that made it so in its history. */
  lemma ReceivingIsAnswering(row: P.Row, l: Id, req: P.Request, now: Time)
    requires row.status != P.Received && P.Step(row, l, req, now).0.status == P.Received
    ensures
      var acts := P.Trace(row, l, req, now);
      |acts| == 1 && acts[0].Answered? && acts[0].answer == P.SaysReceived
  {
  }

  lemma {:induction false} ReceivedWasAnswered(l: Id, reqs: seq<P.Timed>)
    requires P.Run(l, reqs).row.status == P.Received
    ensures exists k :: 0 <= k < |P.Run(l, reqs).acts| && P.Run(l, reqs).acts[k].Answered?
                        && P.Run(l, reqs).acts[k].answer == P.SaysReceived
  {
    var init := reqs[..|reqs| - 1];
    var h := P.Run(l, init);
    var last := reqs[|reqs| - 1];
    S.HistoryGrows(l, reqs);
    hide P.Run, P.Step, P.Trace;
    var acts := P.Run(l, reqs).acts;
    if h.row.status == P.Received {
      ReceivedWasAnswered(l, init);
      var k :| 0 <= k < |h.acts| && h.acts[k].Answered? && h.acts[k].answer == P.SaysReceived;
      assert acts[k] == h.acts[k];
    } else {
      ReceivingIsAnswering(h.row, l, last.req, last.at);
      assert acts[|h.acts|].Answered?;
    }
  }

  /**
   * A guest handover counts as received only after an answer that went the whole way: link, code and
   * proof of the same address, each within its term, nothing newer in between.
   */
  lemma ReceivedMeansProven(steps: seq<Step>, l: Id)
    requires l in Run(steps).confs && Run(steps).confs[l].row.status == P.Received
    ensures
      var acts := P.Run(l, RequestsTo(steps, l)).acts;
      exists h: nat, i: nat, j: nat, k: nat :: S.Chain(acts, h, i, j, k) && acts[k].answer == P.SaysReceived
  {
    var reqs := RequestsTo(steps, l);
    var acts := P.Run(l, reqs).acts;
    WorldRefinesProtocol(steps, l);
    ReceivedWasAnswered(l, reqs);
    var k :| 0 <= k < |acts| && acts[k].Answered? && acts[k].answer == P.SaysReceived;
    S.AnswerProvenance(l, reqs, k);
    var h: nat, i: nat, j: nat :| S.Chain(acts, h, i, j, k);
    assert S.Chain(acts, h, i, j, k) && acts[k].answer == P.SaysReceived;
  }

  lemma IdentityWritten(w: World, l: Id, token: P.Secret, email: string, nickname: string, proof: P.Secret, answer: P.Answer,
                        begun: Time)
    requires AnswerReply(w, l, token, email, nickname, proof, answer) == Done && PendingChain(w, l)
    requires w.confs[l].contact.value in w.contacts
    ensures
      var v := AnswerGuest(w, l, token, email, nickname, proof, answer, begun);
      var contact := w.confs[l].contact.value;
      && w.confs[l].row.verifiedAt.Some? && contact in v.contacts
      && v.contacts[contact].guest ==
           Some(GuestIdentity(F.Trim(nickname), F.CanonicalEmail(email), w.confs[l].row.verifiedAt.value))
      && w.confs[l].row.challengeMac == Some(F.ChallengeMac(l, email, nickname))
  {
  }

  /** What an answer writes into the contact is the address and nickname that were proven, and when. */
  lemma RecordedIdentityIsProven(steps: seq<Step>, l: Id, token: P.Secret, email: string, nickname: string,
                                 proof: P.Secret, answer: P.Answer, begun: Time)
    requires AnswerReply(Run(steps), l, token, email, nickname, proof, answer) == Done
    ensures
      var w := Run(steps);
      var v := AnswerGuest(w, l, token, email, nickname, proof, answer, begun);
      var contact := w.confs[l].contact;
      && contact.Some? && contact.value in v.contacts && w.confs[l].row.verifiedAt.Some?
      && v.contacts[contact.value].guest ==
           Some(GuestIdentity(F.Trim(nickname), F.CanonicalEmail(email), w.confs[l].row.verifiedAt.value))
      && w.confs[l].row.challengeMac == Some(F.ChallengeMac(l, email, nickname))
  {
    var w := Run(steps);
    RunKeepsInv(steps);
    ContactIsThere(w, l, token, email, nickname, proof, answer);
    hide Run, Inv, AnswerGuest, F.ChallengeMac, F.CanonicalEmail, F.Trim;
    IdentityWritten(w, l, token, email, nickname, proof, answer, begun);
  }

  lemma ContactIsThere(w: World, l: Id, token: P.Secret, email: string, nickname: string, proof: P.Secret, answer: P.Answer)
    requires Core(w) && AnswerReply(w, l, token, email, nickname, proof, answer) == Done
    ensures PendingChain(w, l) && w.confs[l].contact.value in w.contacts
  {
    hide F.ChallengeMac, LoansOk, ConfsOk;
    ChainIsPending(w, l);
    OutstandingStands(w, l);
  }
}
