/**
 * What holds of every run of the guest protocol: where an accepted answer comes from, that there is at
 * most one, what a bounced letter can undo, and that the row never breaks a database CHECK.
 */
module ProtocolSafety {
  import opened Wrappers
  import opened Framing
  import opened GuestProtocol

  // ----- the CHECK constraints of the table -----

  predicate ChecksHold(row: Row) {
    // guest_loan_confirmation_resolved_at
    && ((row.status == Open || row.status == Denied) <==> row.resolvedAt.None?)
    // guest_confirmation_link_all_or_none, _link_ttl, _link_only_open
    && (row.linkToken.None? <==> row.linkIssuedAt.None?)
    && (row.linkIssuedAt.None? <==> row.linkExpiresAt.None?)
    && (row.linkIssuedAt.Some? ==> row.linkExpiresAt == Some(row.linkIssuedAt.value + LINK_TTL))
    && (row.linkToken.Some? ==> row.status == Open)
    // guest_confirmation_code_all_or_none, _code_nonce, _proof_all_or_none, _code_xor_proof
    && (row.codeHash.None? <==> row.codeExpiresAt.None?)
    && (row.codeHash.None? <==> row.codeNonce.None?)
    && (row.proofHash.None? <==> row.proofExpiresAt.None?)
    && (row.proofHash.None? <==> row.verifiedAt.None?)
    && (row.codeHash.None? || row.proofHash.None?)
    // guest_confirmation_challenge_consistent, _challenge_needs_link
    && (row.challengeMac.Some? <==> row.codeHash.Some? || row.proofHash.Some?)
    && (row.challengeMac.Some? ==> row.linkToken.Some?)
  }

  /** The limits, as the columns record them; a row without a link has no counters left. */
  predicate CountersBounded(row: Row) {
    && row.codeAttempts < MAX_ATTEMPTS
    && row.codeFailedTotal <= MAX_FAILED_TOTAL
    && row.codeSentCount <= MAX_SENDS
    && (row.codeWindowStartedAt.None? <==> row.codeSentCount == 0)
    && (row.linkToken.None? ==> row.codeFailedTotal == 0 && row.codeSentCount == 0)
  }

  lemma StepKeepsChecks(row: Row, id: nat, req: Request, now: Time)
    requires ChecksHold(row) && CountersBounded(row)
    ensures ChecksHold(Step(row, id, req, now).0) && CountersBounded(Step(row, id, req, now).0)
  {
    match req {
      case IssueLink(_) =>
      case LinkBounced(_) =>
      case AskCode(_, _, _, _, _) =>
      case CodeBounced(_) =>
      case Verify(_, _, _, _, _) =>
      case Respond(_, _, _, _, _) =>
      case OwnerDecides(_) =>
    }
  }

  /** No CHECK of `GuestLoanConfirmation` ever fires, whatever is asked of the row and when. */
  lemma {:induction false} ChecksNeverFire(id: nat, reqs: seq<Timed>)
    ensures ChecksHold(Run(id, reqs).row) && CountersBounded(Run(id, reqs).row)
  {
    if |reqs| > 0 {
      var init := reqs[..|reqs| - 1];
      var last := reqs[|reqs| - 1];
      ChecksNeverFire(id, init);
      StepKeepsChecks(Run(id, init).row, id, last.req, last.at);
    }
  }

  // ----- where the link, the code and the proof of a row come from -----

  predicate EndsLink(a: Act) {
    a.LinkIssued? || a.LinkDropped? || a.Answered? || a.Decided?
  }

  predicate ReplacesCode(a: Act) {
    EndsLink(a) || a.CodeIssued? || a.CodeDropped?
  }

  /** Act `h` issued `token` at `at`, and nothing since has replaced, dropped or used up that link. */
  predicate LinkBehind(acts: seq<Act>, h: nat, token: Secret, at: Time) {
    && h < |acts|
    && acts[h] == LinkIssued(token, at)
    && forall m | h < m < |acts| :: !EndsLink(acts[m])
  }

  /** Act `i` issued this code at `at`; it has not been proved, and no newer code, link or decision followed. */
  predicate CodeBehind(acts: seq<Act>, i: nat, mac: string, hash: string, nonce: Secret, at: Time) {
    && i < |acts|
    && acts[i] == CodeIssued(mac, hash, nonce, at)
    && forall m | i < m < |acts| :: !ReplacesCode(acts[m]) && !acts[m].CodeProved?
  }

  /** Act `j` proved, in time, the code that act `i` had issued, and nothing newer followed either. */
  predicate ProofBehind(acts: seq<Act>, i: nat, j: nat, mac: string, proof: Secret, at: Time) {
    && i < j < |acts|
    && acts[i].CodeIssued? && acts[i].mac == mac
    && acts[j] == CodeProved(mac, acts[i].hash, proof, at)
    && at < acts[i].at + CODE_TTL
    && forall m | i < m < |acts| :: !ReplacesCode(acts[m])
  }

  ghost predicate LinkExplained(row: Row, acts: seq<Act>) {
    row.linkToken.Some? && row.linkIssuedAt.Some? ==>
      exists h :: LinkBehind(acts, h, row.linkToken.value, row.linkIssuedAt.value)
  }

  ghost predicate CodeExplained(row: Row, acts: seq<Act>) {
    row.codeHash.Some? && row.challengeMac.Some? && row.codeNonce.Some? && row.codeExpiresAt.Some?
    && row.linkToken.Some? && row.linkIssuedAt.Some? ==>
      exists h, i, at: Time ::
        && LinkBehind(acts, h, row.linkToken.value, row.linkIssuedAt.value) && h < i
        && CodeBehind(acts, i, row.challengeMac.value, row.codeHash.value, row.codeNonce.value, at)
        && row.codeExpiresAt.value == at + CODE_TTL
  }

  ghost predicate ProofExplained(row: Row, acts: seq<Act>) {
    row.proofHash.Some? && row.challengeMac.Some? && row.proofExpiresAt.Some?
    && row.linkToken.Some? && row.linkIssuedAt.Some? ==>
      exists h, i, j, at: Time ::
        && LinkBehind(acts, h, row.linkToken.value, row.linkIssuedAt.value) && h < i
        && ProofBehind(acts, i, j, row.challengeMac.value, row.proofHash.value, at)
        && row.proofExpiresAt.value == at + PROOF_TTL
  }

  /**
   * The whole provenance of the answer at `k`: link `h`, code `i`, proof `j`, all under the one link the
   * answer used, each within its term, with no newer code, link, decision or cleanup in between.
   */
  predicate Chain(acts: seq<Act>, h: nat, i: nat, j: nat, k: nat) {
    && h < i < j < k < |acts|
    && acts[k].Answered?
    && acts[h].LinkIssued? && acts[h].token == acts[k].token && acts[k].at < acts[h].at + 7 * 24 * 3_600_000
    && acts[i].CodeIssued? && acts[i].mac == acts[k].mac
    && acts[j].CodeProved? && acts[j].mac == acts[i].mac && acts[j].hash == acts[i].hash
    && acts[j].proof == acts[k].proof
    && acts[j].at < acts[i].at + 10 * 60_000
    && acts[k].at < acts[j].at + 30 * 60_000
    && (forall m | h < m < k :: !EndsLink(acts[m]))
    && (forall m | i < m < k :: !ReplacesCode(acts[m]))
  }

  ghost predicate Proven(acts: seq<Act>, k: nat) {
    exists h, i, j :: Chain(acts, h, i, j, k)
  }

  ghost predicate AnswersProven(acts: seq<Act>) {
    forall k | 0 <= k < |acts| && acts[k].Answered? :: Proven(acts, k)
  }

  /** A settled row stays settled: an answer or a decision is in the history only of a row that left OPEN. */
  predicate AnsweredOnce(row: Row, acts: seq<Act>) {
    && (row.status == Open ==> forall k | 0 <= k < |acts| :: !acts[k].Answered? && !acts[k].Decided?)
    && (forall k, m | 0 <= k < m < |acts| && acts[k].Answered? :: !acts[m].Answered? && !acts[m].LinkIssued?)
    && (forall k, m | 0 <= k < m < |acts| && acts[k].Decided? :: !acts[m].Answered? && !acts[m].Decided?)
    && (row.status == Denied ==> forall k | 0 <= k < |acts| :: !acts[k].Decided?)
  }

  ghost predicate Sound(h: History) {
    && ChecksHold(h.row)
    && LinkExplained(h.row, h.acts) && CodeExplained(h.row, h.acts) && ProofExplained(h.row, h.acts)
    && AnswersProven(h.acts)
    && AnsweredOnce(h.row, h.acts)
  }

  /** An older chain is still a chain of the longer history. */
  lemma ProvenStays(acts: seq<Act>, more: seq<Act>, k: nat)
    requires k < |acts| && Proven(acts, k)
    ensures Proven(acts + more, k)
  {
    var h, i, j :| Chain(acts, h, i, j, k);
    assert Chain(acts + more, h, i, j, k);
  }

  lemma AnswersStayProven(acts: seq<Act>, a: Act)
    requires AnswersProven(acts)
    requires a.Answered? ==> Proven(acts + [a], |acts|)
    ensures AnswersProven(acts + [a])
  {
    forall k | 0 <= k < |acts + [a]| && (acts + [a])[k].Answered?
      ensures Proven(acts + [a], k)
    {
      if k < |acts| {
        ProvenStays(acts, [a], k);
      }
    }
  }

  /** Acts that replace nothing leave the link, the code and the proof of the row explained. */
  lemma LinkStaysExplained(row: Row, acts: seq<Act>, a: Act)
    requires LinkExplained(row, acts) && !EndsLink(a)
    ensures LinkExplained(row, acts + [a])
  {
    if row.linkToken.Some? && row.linkIssuedAt.Some? {
      var h :| LinkBehind(acts, h, row.linkToken.value, row.linkIssuedAt.value);
      assert LinkBehind(acts + [a], h, row.linkToken.value, row.linkIssuedAt.value);
    }
  }

  lemma CodeStaysExplained(row: Row, acts: seq<Act>, a: Act)
    requires CodeExplained(row, acts) && !ReplacesCode(a) && !a.CodeProved?
    ensures CodeExplained(row, acts + [a])
  {
    if row.codeHash.Some? && row.challengeMac.Some? && row.codeNonce.Some? && row.codeExpiresAt.Some?
       && row.linkToken.Some? && row.linkIssuedAt.Some? {
      var l, i, at: Time :|
        && LinkBehind(acts, l, row.linkToken.value, row.linkIssuedAt.value) && l < i
        && CodeBehind(acts, i, row.challengeMac.value, row.codeHash.value, row.codeNonce.value, at)
        && row.codeExpiresAt.value == at + CODE_TTL;
      assert LinkBehind(acts + [a], l, row.linkToken.value, row.linkIssuedAt.value);
      assert CodeBehind(acts + [a], i, row.challengeMac.value, row.codeHash.value, row.codeNonce.value, at);
    }
  }

  lemma ProofStaysExplained(row: Row, acts: seq<Act>, a: Act)
    requires ProofExplained(row, acts) && !ReplacesCode(a)
    ensures ProofExplained(row, acts + [a])
  {
    if row.proofHash.Some? && row.challengeMac.Some? && row.proofExpiresAt.Some?
       && row.linkToken.Some? && row.linkIssuedAt.Some? {
      var l, i, j, at: Time :|
        && LinkBehind(acts, l, row.linkToken.value, row.linkIssuedAt.value) && l < i
        && ProofBehind(acts, i, j, row.challengeMac.value, row.proofHash.value, at)
        && row.proofExpiresAt.value == at + PROOF_TTL;
      assert LinkBehind(acts + [a], l, row.linkToken.value, row.linkIssuedAt.value);
      assert ProofBehind(acts + [a], i, j, row.challengeMac.value, row.proofHash.value, at);
    }
  }

  lemma WrongCodeSound(h: History, next: Row, a: Act)
    requires Sound(h) && a.WrongCode? && ChecksHold(next)
    requires next.status == h.row.status
    requires next.linkToken == h.row.linkToken && next.linkIssuedAt == h.row.linkIssuedAt
    requires next == ClearChallenge(next)
          || (next.challengeMac == h.row.challengeMac && next.codeHash == h.row.codeHash
              && next.codeNonce == h.row.codeNonce && next.codeExpiresAt == h.row.codeExpiresAt
              && next.proofHash == h.row.proofHash && next.proofExpiresAt == h.row.proofExpiresAt)
    ensures Sound(History(next, h.acts + [a]))
  {
    hide Proven, LinkBehind, CodeBehind, ProofBehind;
    AnswersStayProven(h.acts, a);
    assert LinkExplained(next, h.acts);
    LinkStaysExplained(next, h.acts, a);
    if next != ClearChallenge(next) {
      assert CodeExplained(next, h.acts) && ProofExplained(next, h.acts);
      CodeStaysExplained(next, h.acts, a);
      ProofStaysExplained(next, h.acts, a);
    }
  }

  lemma IssueLinkSound(h: History, id: nat, token: Secret, now: Time)
    requires Sound(h) && h.row.status == Open
    ensures Sound(History(RotateLink(h.row, token, now).0, h.acts + [LinkIssued(token, now)]))
  {
    var row := RotateLink(h.row, token, now).0;
    var acts := h.acts + [LinkIssued(token, now)];
    AnswersStayProven(h.acts, LinkIssued(token, now));
    assert LinkBehind(acts, |h.acts|, token, now);
  }

  lemma IssueCodeSound(h: History, id: nat, token: Secret, email: string, nickname: string, code: string,
                       nonce: Secret, now: Time)
    requires Sound(h)
    requires RequestCode(h.row, id, token, email, nickname, code, nonce, now).1 == Accepted
    ensures
      var mac := ChallengeMac(id, email, nickname);
      Sound(History(RequestCode(h.row, id, token, email, nickname, code, nonce, now).0,
                    h.acts + [CodeIssued(mac, CodeHash(id, mac, code), nonce, now)]))
  {
    var mac := ChallengeMac(id, email, nickname);
    var a := CodeIssued(mac, CodeHash(id, mac, code), nonce, now);
    var row := RequestCode(h.row, id, token, email, nickname, code, nonce, now).0;
    var acts := h.acts + [a];
    AnswersStayProven(h.acts, a);
    var l :| LinkBehind(h.acts, l, h.row.linkToken.value, h.row.linkIssuedAt.value);
    assert LinkBehind(acts, l, row.linkToken.value, row.linkIssuedAt.value);
    assert CodeBehind(acts, |h.acts|, mac, CodeHash(id, mac, code), nonce, now);
  }

  lemma ProveCodeSound(h: History, id: nat, token: Secret, email: string, nickname: string, code: string,
                       proof: Secret, now: Time)
    requires Sound(h)
    requires VerifyCode(h.row, id, token, email, nickname, code, proof, now).1 == Accepted
    ensures
      var mac := ChallengeMac(id, email, nickname);
      Sound(History(VerifyCode(h.row, id, token, email, nickname, code, proof, now).0,
                    h.acts + [CodeProved(mac, CodeHash(id, mac, code), proof, now)]))
  {
    var mac := ChallengeMac(id, email, nickname);
    var hash := CodeHash(id, mac, code);
    var a := CodeProved(mac, hash, proof, now);
    var row := VerifyCode(h.row, id, token, email, nickname, code, proof, now).0;
    var acts := h.acts + [a];
    AnswersStayProven(h.acts, a);
    hide AnswersProven, ChallengeMac, CodeHash;
    var l, i, at: Time :|
      && LinkBehind(h.acts, l, h.row.linkToken.value, h.row.linkIssuedAt.value) && l < i
      && CodeBehind(h.acts, i, mac, hash, h.row.codeNonce.value, at)
      && h.row.codeExpiresAt.value == at + CODE_TTL;
    assert LinkBehind(acts, l, row.linkToken.value, row.linkIssuedAt.value);
    assert ProofBehind(acts, i, |h.acts|, mac, proof, now);
  }

  lemma AnswerSound(h: History, id: nat, token: Secret, email: string, nickname: string, proof: Secret,
                    answer: Answer, now: Time)
    requires Sound(h)
    requires AnswerLink(h.row, id, token, email, nickname, proof, answer, now).1 == Accepted
    ensures Sound(History(AnswerLink(h.row, id, token, email, nickname, proof, answer, now).0,
                          h.acts + [Answered(token, ChallengeMac(id, email, nickname), proof, answer, now)]))
  {
    var mac := ChallengeMac(id, email, nickname);
    var a := Answered(token, mac, proof, answer, now);
    var acts := h.acts + [a];
    hide ChallengeMac, AnswersProven;
    var l, i, j, at: Time :|
      && LinkBehind(h.acts, l, h.row.linkToken.value, h.row.linkIssuedAt.value) && l < i
      && ProofBehind(h.acts, i, j, mac, proof, at)
      && h.row.proofExpiresAt.value == at + PROOF_TTL;
    assert Chain(acts, l, i, j, |h.acts|);
    AnswersStayProven(h.acts, a);
  }

  /** An act that leaves no link behind it (a drop or a decision) keeps everything sound. */
  lemma ClosingSound(h: History, next: Row, a: Act)
    requires Sound(h) && ChecksHold(next)
    requires next.linkToken.None?
    requires a.LinkDropped? ==> next.status == h.row.status
    requires a.Decided? ==> h.row.status == Open || h.row.status == Denied
    requires a.Decided? ==> next.status != Open && next.status != Denied
    requires a.LinkDropped? || a.Decided?
    ensures Sound(History(next, h.acts + [a]))
  {
    AnswersStayProven(h.acts, a);
    assert AnsweredOnce(next, h.acts + [a]) by {
      if h.row.status == Denied && a.Decided? {
        assert forall k | 0 <= k < |h.acts| :: !h.acts[k].Decided?;
      }
    }
  }

  lemma DropCodeSound(h: History, nonce: Secret)
    requires Sound(h) && h.row.codeNonce == Some(nonce)
    ensures Sound(History(ClearChallenge(h.row), h.acts + [CodeDropped(nonce)]))
  {
    var a := CodeDropped(nonce);
    AnswersStayProven(h.acts, a);
    LinkStaysExplained(h.row, h.acts, a);
    assert LinkExplained(ClearChallenge(h.row), h.acts + [a]);
  }

  lemma StepSound(h: History, id: nat, req: Request, now: Time)
    requires Sound(h) && CountersBounded(h.row)
    ensures Sound(History(Step(h.row, id, req, now).0, h.acts + Trace(h.row, id, req, now)))
  {
    var next := Step(h.row, id, req, now).0;
    StepKeepsChecks(h.row, id, req, now);
    hide LinkExplained, CodeExplained, ProofExplained, AnswersProven, AnsweredOnce, CountersBounded, ChallengeMac, CodeHash;
    if Trace(h.row, id, req, now) == [] {
      assert h.acts + [] == h.acts;
      assert next == h.row;
    } else {
      match req {
        case IssueLink(token) => IssueLinkSound(h, id, token, now);
        case LinkBounced(token) => ClosingSound(h, next, LinkDropped(token));
        case AskCode(token, email, nickname, code, nonce) =>
          IssueCodeSound(h, id, token, email, nickname, code, nonce, now);
        case CodeBounced(nonce) => DropCodeSound(h, nonce);
        case Verify(token, email, nickname, code, proof) =>
          if Step(h.row, id, req, now).1 == Accepted {
            ProveCodeSound(h, id, token, email, nickname, code, proof, now);
          } else {
            WrongCodeSound(h, next, WrongCode(now));
          }
        case Respond(token, email, nickname, proof, answer) =>
          AnswerSound(h, id, token, email, nickname, proof, answer, now);
        case OwnerDecides(decision) => ClosingSound(h, next, Decided(decision, now));
      }
    }
  }

  lemma {:induction false} RunSound(id: nat, reqs: seq<Timed>)
    ensures Sound(Run(id, reqs))
  {
    if |reqs| > 0 {
      var init := reqs[..|reqs| - 1];
      var last := reqs[|reqs| - 1];
      RunSound(id, init);
      ChecksNeverFire(id, init);
      StepSound(Run(id, init), id, last.req, last.at);
    }
  }

  // ----- the theorems -----

  /**
   * Every accepted answer, in every run, stands at the end of one chain link -> code -> proof under the
   * link it used: the proof is younger than 30 minutes, the code was proved within 10 minutes of its
   * issue for the same challenge, the link is younger than 7 days, and between the code and the answer
   * there is no newer code, link, decision or cleanup.
   */
  lemma AnswerProvenance(id: nat, reqs: seq<Timed>, k: nat)
    requires k < |Run(id, reqs).acts| && Run(id, reqs).acts[k].Answered?
    ensures exists h, i, j :: Chain(Run(id, reqs).acts, h, i, j, k)
  {
    RunSound(id, reqs);
    assert Proven(Run(id, reqs).acts, k);
  }

  /** A confirmation accepts at most one answer, none after a decision, and no link follows an answer. */
  lemma AtMostOneAnswer(id: nat, reqs: seq<Timed>, k: nat, m: nat)
    requires k < m < |Run(id, reqs).acts|
    ensures
      var acts := Run(id, reqs).acts;
      && (acts[k].Answered? || acts[k].Decided? ==> !acts[m].Answered?)
      && (acts[k].Answered? ==> !acts[m].LinkIssued? && !acts[m].CodeIssued? && !acts[m].CodeProved?)
  {
    RunSound(id, reqs);
    if Run(id, reqs).acts[k].Answered? {
      NothingUnderUsedLink(id, reqs, k, m);
    }
  }

  lemma NothingOnceSettled(row: Row, id: nat, req: Request, now: Time)
    requires row.status != Open
    ensures forall a | a in Trace(row, id, req, now) :: !a.CodeIssued? && !a.CodeProved?
  {
    hide ChallengeMac, CodeHash;
  }

  /** After an answer there is no link, so nothing can be issued or proved under one. */
  lemma {:induction false} NothingUnderUsedLink(id: nat, reqs: seq<Timed>, k: nat, m: nat)
    requires k < m < |Run(id, reqs).acts|
    requires Run(id, reqs).acts[k].Answered?
    ensures !Run(id, reqs).acts[m].CodeIssued? && !Run(id, reqs).acts[m].CodeProved?
  {
    var init := reqs[..|reqs| - 1];
    var last := reqs[|reqs| - 1];
    var h := Run(id, init);
    var acts := Run(id, reqs).acts;
    var more := Trace(h.row, id, last.req, last.at);
    assert acts == h.acts + more;
    ChecksNeverFire(id, init);
    RowFollowsAct(h.row, id, last.req, last.at);
    hide Step, Trace, Run;
    if m < |h.acts| {
      NothingUnderUsedLink(id, init, k, m);
    } else {
      RunSound(id, init);
      assert h.acts[k] == acts[k];
      assert h.row.status != Open;
      hide Sound;
      NothingOnceSettled(h.row, id, last.req, last.at);
      assert acts[m] == more[m - |h.acts|];
    }
  }

  /** The mac of an answer names one confirmation, one canonical address and one nickname, no others. */
  lemma AnswerBindsAddress(id: nat, reqs: seq<Timed>, k: nat, e1: string, n1: string, e2: string, n2: string)
    requires k < |Run(id, reqs).acts| && Run(id, reqs).acts[k].Answered?
    requires Run(id, reqs).acts[k].mac == ChallengeMac(id, e1, n1)
    ensures Run(id, reqs).acts[k].mac == ChallengeMac(id, e2, n2)
       <==> CanonicalEmail(e1) == CanonicalEmail(e2) && Trim(n1) == Trim(n2)
  {
    ChallengeMacIsInjective(id, e1, n1, id, e2, n2);
  }

  // ----- bounced letters -----

  /** The nonces and link tokens that a history has used. */
  predicate NoncesDistinct(acts: seq<Act>) {
    forall k, m | 0 <= k < m < |acts| && acts[k].CodeIssued? && acts[m].CodeIssued? :: acts[k].nonce != acts[m].nonce
  }

  /** The links that a history has issued have different tokens. */
  predicate TokensDistinct(acts: seq<Act>) {
    forall k, m | 0 <= k < m < |acts| && acts[k].LinkIssued? && acts[m].LinkIssued? :: acts[k].token != acts[m].token
  }

  /** A step leaves at most one act, and the row follows it; without one it stays as it is. */
  lemma RowFollowsAct(row: Row, id: nat, req: Request, now: Time)
    requires ChecksHold(row)
    ensures
      var acts, next := Trace(row, id, req, now), Step(row, id, req, now).0;
      && |acts| <= 1
      && (acts == [] ==> next == row)
      && (acts != [] ==>
            && (!EndsLink(acts[0]) ==> next.linkToken == row.linkToken)
            && (acts[0].LinkIssued? ==> next.linkToken == Some(acts[0].token))
            && (acts[0].CodeIssued? ==> next.codeNonce == Some(acts[0].nonce) && next.codeAttempts == 0)
            && (acts[0].CodeProved? ==> next.proofHash == Some(acts[0].proof))
            && (acts[0].WrongCode? ==>
                  && row.codeNonce.Some? && row.proofHash.None? && next.proofHash.None?
                  && if row.codeAttempts + 1 < MAX_ATTEMPTS
                     then next.codeNonce == row.codeNonce && next.codeAttempts == row.codeAttempts + 1
                     else next.codeNonce.None?))
  {
    hide ChallengeMac, CodeHash;
  }

  lemma HistoryGrows(id: nat, reqs: seq<Timed>)
    requires |reqs| > 0
    ensures
      var h, last := Run(id, reqs[..|reqs| - 1]), reqs[|reqs| - 1];
      && Run(id, reqs).acts == h.acts + Trace(h.row, id, last.req, last.at)
      && Run(id, reqs).row == Step(h.row, id, last.req, last.at).0
  {
  }

  /** A link that nothing has ended since is the row's link. */
  lemma {:induction false} LinkStillStands(id: nat, reqs: seq<Timed>, i: nat)
    requires i < |Run(id, reqs).acts| && Run(id, reqs).acts[i].LinkIssued?
    requires forall m | i < m < |Run(id, reqs).acts| :: !EndsLink(Run(id, reqs).acts[m])
    ensures Run(id, reqs).row.linkToken == Some(Run(id, reqs).acts[i].token)
  {
    var init, last := reqs[..|reqs| - 1], reqs[|reqs| - 1];
    var h, acts := Run(id, init), Run(id, reqs).acts;
    var more := Trace(h.row, id, last.req, last.at);
    ChecksNeverFire(id, init);
    HistoryGrows(id, reqs);
    RowFollowsAct(h.row, id, last.req, last.at);
    hide Run, Step, Trace, ChecksHold;
    assert forall m | 0 <= m < |h.acts| :: acts[m] == h.acts[m];
    if i < |h.acts| {
      LinkStillStands(id, init, i);
      assert more != [] ==> acts[|h.acts|] == more[0];
    } else {
      assert acts[i] == more[0];
    }
  }

  /** The wrong codes tried after act `i`. */
  function WrongAfter(acts: seq<Act>, i: nat): nat {
    if |acts| <= i + 1 then 0
    else WrongAfter(acts[..|acts| - 1], i) + if acts[|acts| - 1].WrongCode? then 1 else 0
  }

  lemma WrongAfterGrows(acts: seq<Act>, more: seq<Act>, i: nat)
    requires i < |acts| && |more| <= 1
    ensures WrongAfter(acts + more, i) == WrongAfter(acts, i) + if more != [] && more[0].WrongCode? then 1 else 0
  {
    assert more == [] ==> acts + more == acts;
    assert more != [] ==> (acts + more)[..|acts + more| - 1] == acts;
  }

  /** Nothing newer has come, and the code of act `i` has not been proved. */
  predicate Untouched(acts: seq<Act>, i: nat) {
    forall m | i < m < |acts| :: !ReplacesCode(acts[m]) && !acts[m].CodeProved?
  }

  /** A code that nothing has replaced or proved waits until the fifth wrong one. */
  lemma {:induction false} CodeStillWaits(id: nat, reqs: seq<Timed>, i: nat)
    requires i < |Run(id, reqs).acts| && Run(id, reqs).acts[i].CodeIssued? && Untouched(Run(id, reqs).acts, i)
    ensures
      var row, acts := Run(id, reqs).row, Run(id, reqs).acts;
      if WrongAfter(acts, i) < MAX_ATTEMPTS
      then row.codeNonce == Some(acts[i].nonce) && row.codeAttempts == WrongAfter(acts, i)
      else row.codeNonce.None?
  {
    var init, last := reqs[..|reqs| - 1], reqs[|reqs| - 1];
    var h, acts := Run(id, init), Run(id, reqs).acts;
    var more := Trace(h.row, id, last.req, last.at);
    ChecksNeverFire(id, init);
    HistoryGrows(id, reqs);
    RowFollowsAct(h.row, id, last.req, last.at);
    hide Run, Step, Trace, ChecksHold;
    assert forall m | 0 <= m < |h.acts| :: acts[m] == h.acts[m];
    if i < |h.acts| {
      CodeStillWaits(id, init, i);
      WrongAfterGrows(h.acts, more, i);
      assert more != [] ==> acts[|h.acts|] == more[0];
    } else {
      assert |acts| == i + 1 && acts[i] == more[0];
    }
  }

  /** Act `p` earned a proof, and nothing since has cost it. */
  predicate EarnsProof(acts: seq<Act>, p: nat) {
    p < |acts| && acts[p].CodeProved? && Untouched(acts, p)
  }

  lemma {:induction false} ProofStillStands(id: nat, reqs: seq<Timed>, p: nat)
    requires EarnsProof(Run(id, reqs).acts, p)
    ensures Run(id, reqs).row.proofHash == Some(Run(id, reqs).acts[p].proof)
  {
    var init, last := reqs[..|reqs| - 1], reqs[|reqs| - 1];
    var h, acts := Run(id, init), Run(id, reqs).acts;
    var more := Trace(h.row, id, last.req, last.at);
    ChecksNeverFire(id, init);
    HistoryGrows(id, reqs);
    RowFollowsAct(h.row, id, last.req, last.at);
    hide Run, Step, Trace, ChecksHold;
    assert forall m | 0 <= m < |h.acts| :: acts[m] == h.acts[m];
    if p < |h.acts| {
      ProofStillStands(id, init, p);
      assert more != [] ==> acts[|h.acts|] == more[0];
    } else {
      assert acts[p] == more[0];
    }
  }

  /**
   * The bounce of the code issued by act `i` changes the row exactly when that code still waits: when a
   * newer code has replaced it, or it has been proved, or its link has gone, or five wrong codes have been
   * tried, the row stays as it is.
   */
  lemma CodeBounceClearsOnlyItsIssue(id: nat, reqs: seq<Timed>, i: nat)
    requires i < |Run(id, reqs).acts| && Run(id, reqs).acts[i].CodeIssued?
    requires NoncesDistinct(Run(id, reqs).acts)
    ensures
      var row := Run(id, reqs).row;
      var acts := Run(id, reqs).acts;
      && (CodeMailFailed(row, acts[i].nonce) != row <==> Untouched(acts, i) && WrongAfter(acts, i) < MAX_ATTEMPTS)
      && (CodeMailFailed(row, acts[i].nonce) != row ==> row.codeHash == Some(acts[i].hash) && row.proofHash.None?)
      && CodeMailFailed(row, acts[i].nonce).proofHash == row.proofHash
      && CodeMailFailed(row, acts[i].nonce).linkToken == row.linkToken
  {
    RunSound(id, reqs);
    var row := Run(id, reqs).row;
    var acts := Run(id, reqs).acts;
    var nonce := acts[i].nonce;
    if row.codeNonce == Some(nonce) {
      var l, c, at: Time :|
        && LinkBehind(acts, l, row.linkToken.value, row.linkIssuedAt.value) && l < c
        && CodeBehind(acts, c, row.challengeMac.value, row.codeHash.value, row.codeNonce.value, at)
        && row.codeExpiresAt.value == at + CODE_TTL;
      assert acts[c].nonce == nonce;
      assert c == i;
    }
    if Untouched(acts, i) {
      CodeStillWaits(id, reqs, i);
      assert ClearChallenge(row).codeNonce == None;
    }
  }

  /**
   * The letter with the link is different: its bounce takes back the link with everything under it, and
   * that includes a proof the guest has earned meanwhile. It changes the row exactly when the link of
   * that letter is still the current one.
   */
  lemma LinkBounceTakesBackItsLink(row: Row, token: Secret)
    requires ChecksHold(row)
    ensures LinkMailFailed(row, token) != row <==> row.linkToken == Some(token)
    ensures LinkMailFailed(row, token).proofHash != row.proofHash
       <==> row.linkToken == Some(token) && row.proofHash.Some?
  {
    if row.linkToken == Some(token) {
      assert LinkMailFailed(row, token).linkToken == None;
    }
  }

  lemma LinkIsExplained(id: nat, reqs: seq<Timed>, i: nat)
    requires i < |Run(id, reqs).acts| && Run(id, reqs).acts[i].LinkIssued? && TokensDistinct(Run(id, reqs).acts)
    requires Run(id, reqs).row.linkToken == Some(Run(id, reqs).acts[i].token)
    ensures forall m | i < m < |Run(id, reqs).acts| :: !EndsLink(Run(id, reqs).acts[m])
    ensures Run(id, reqs).row.proofHash.Some? ==> exists p :: i < p && EarnsProof(Run(id, reqs).acts, p)
  {
    RunSound(id, reqs);
    var row, acts := Run(id, reqs).row, Run(id, reqs).acts;
    hide Run, AnswersProven, AnsweredOnce, CodeExplained;
    var h :| LinkBehind(acts, h, row.linkToken.value, row.linkIssuedAt.value);
    assert h == i;
    if row.proofHash.Some? {
      var l, c, p, at: Time :|
        && LinkBehind(acts, l, row.linkToken.value, row.linkIssuedAt.value) && l < c
        && ProofBehind(acts, c, p, row.challengeMac.value, row.proofHash.value, at)
        && row.proofExpiresAt.value == at + PROOF_TTL;
      LastProof(acts, p);
    }
  }

  /** Of several proofs of one code the last is the one that stands. */
  lemma {:induction false} LastProof(acts: seq<Act>, p: nat)
    requires p < |acts| && acts[p].CodeProved? && forall m | p < m < |acts| :: !ReplacesCode(acts[m])
    ensures exists q :: p <= q && EarnsProof(acts, q)
    decreases |acts| - p
  {
    if m :| p < m < |acts| && acts[m].CodeProved? {
      LastProof(acts, m);
    } else {
      assert EarnsProof(acts, p);
    }
  }

  /**
   * Over whole runs: the bounce of the link issued by act `i` changes the row exactly when no act since has
   * ended that link, and it costs the guest a proof exactly when one was earned under it and still stands.
   */
  lemma LinkBounceUndoesExactly(id: nat, reqs: seq<Timed>, i: nat)
    requires i < |Run(id, reqs).acts| && Run(id, reqs).acts[i].LinkIssued? && TokensDistinct(Run(id, reqs).acts)
    ensures
      var row, acts := Run(id, reqs).row, Run(id, reqs).acts;
      && (LinkMailFailed(row, acts[i].token) != row <==> forall m | i < m < |acts| :: !EndsLink(acts[m]))
      && (LinkMailFailed(row, acts[i].token).proofHash != row.proofHash <==>
            (forall m | i < m < |acts| :: !EndsLink(acts[m])) && exists p :: i < p && EarnsProof(acts, p))
  {
    var row, acts := Run(id, reqs).row, Run(id, reqs).acts;
    ChecksNeverFire(id, reqs);
    LinkBounceTakesBackItsLink(row, acts[i].token);
    hide Run, LinkMailFailed, ChecksHold, EarnsProof;
    if row.linkToken == Some(acts[i].token) {
      LinkIsExplained(id, reqs, i);
    }
    if forall m | i < m < |acts| :: !EndsLink(acts[m]) {
      LinkStillStands(id, reqs, i);
      if p :| i < p && EarnsProof(acts, p) {
        ProofStillStands(id, reqs, p);
      }
    }
  }

  /** Such a run exists: link, code, proof, and only then the report that the link letter bounced. */
  lemma LinkBounceCanUndoProof()
    ensures
      var reqs := [Timed(0, IssueLink(7)), Timed(1, AskCode(7, "g@x", "G", "123456", 8)),
                   Timed(2, Verify(7, "g@x", "G", "123456", 9))];
      && Run(1, reqs).row.proofHash == Some(9)
      && Run(1, reqs + [Timed(3, LinkBounced(7))]).row.proofHash == None
  {
    var a, b, c := Timed(0, IssueLink(7)), Timed(1, AskCode(7, "g@x", "G", "123456", 8)),
                   Timed(2, Verify(7, "g@x", "G", "123456", 9));
    assert Run(1, []).row == NEW_ROW;
    OneMoreRequest(1, [], a);
    OneMoreRequest(1, [a], b);
    OneMoreRequest(1, [a] + [b], c);
    OneMoreRequest(1, [a] + [b] + [c], Timed(3, LinkBounced(7)));
    assert [] + [a] == [a] && [a] + [b] + [c] == [a, b, c];
    hide Run, ChallengeMac, CodeHash;
  }

  // ----- the way through -----

  lemma OneMoreRequest(id: nat, reqs: seq<Timed>, t: Timed)
    ensures Run(id, reqs + [t]).row == Step(Run(id, reqs).row, id, t.req, t.at).0
  {
    assert (reqs + [t])[..|reqs + [t]| - 1] == reqs;
  }

  /** A guest who takes the steps in order and in time gets through, whatever the address, the code and the answer. */
  lemma StepsInTimeSucceed(id: nat, token: Secret, email: string, nickname: string, code: string, nonce: Secret,
                           proof: Secret, answer: Answer, t0: Time, t1: Time, t2: Time, t3: Time)
    requires t0 <= t1 <= t2 <= t3
    requires t3 < t0 + 7 * 24 * 3_600_000 && t2 < t1 + 10 * 60_000 && t3 < t2 + 30 * 60_000
    ensures
      var reqs := [Timed(t0, IssueLink(token))] + [Timed(t1, AskCode(token, email, nickname, code, nonce))]
                  + [Timed(t2, Verify(token, email, nickname, code, proof))]
                  + [Timed(t3, Respond(token, email, nickname, proof, answer))];
      Run(id, reqs).row.status == if answer == SaysReceived then Received else Denied
  {
    hide ChallengeMac, CodeHash, Run;
    var a, b := Timed(t0, IssueLink(token)), Timed(t1, AskCode(token, email, nickname, code, nonce));
    var c, d := Timed(t2, Verify(token, email, nickname, code, proof)), Timed(t3, Respond(token, email, nickname, proof, answer));
    NoRequests(id);
    assert [] + [a] == [a];
    OneMoreRequest(id, [], a);
    OneMoreRequest(id, [a], b);
    OneMoreRequest(id, [a] + [b], c);
    OneMoreRequest(id, [a] + [b] + [c], d);
  }

  lemma NoRequests(id: nat)
    ensures Run(id, []).row == NEW_ROW
  {
  }
}
