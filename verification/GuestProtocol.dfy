/**
 * The row of one guest confirmation and everything that may happen to it: the owner issues a link, the
 * guest asks for a code, proves the address, answers once; the owner may decide instead; a failed e-mail
 * is cleaned up after commit, so it may arrive between any two of the other steps.
 *
 * Every function is one transaction under the lock of the row, at the time read after that lock.
 */
module GuestProtocol {
  import opened Wrappers
  import opened Framing

  /** Milliseconds of a clock that never runs backwards. */
  type Time = nat

  /** A random 256-bit token or 128-bit nonce; its SHA-256 hash is represented by the value itself. */
  type Secret = nat

  const MINUTE: nat := 60_000
  const HOUR: nat := 60 * MINUTE
  const DAY: nat := 24 * HOUR

  const LINK_TTL: nat := 7 * DAY
  const CODE_TTL: nat := 10 * MINUTE
  const PROOF_TTL: nat := 30 * MINUTE
  const MAX_ATTEMPTS: nat := 5
  const MAX_FAILED_TOTAL: nat := 10
  const MAX_SENDS: nat := 5
  const SEND_WINDOW: nat := 60 * MINUTE

  datatype ConfirmationStatus = Open | Denied | Received | CancelledByOwner | OwnerRecorded

  datatype Row = Row(
    status: ConfirmationStatus,
    resolvedAt: Option<Time>,
    linkToken: Option<Secret>,
    linkIssuedAt: Option<Time>,
    linkExpiresAt: Option<Time>,
    challengeMac: Option<string>,
    codeHash: Option<string>,
    codeExpiresAt: Option<Time>,
    codeNonce: Option<Secret>,
    codeAttempts: nat,
    codeFailedTotal: nat,
    codeSentCount: nat,
    codeWindowStartedAt: Option<Time>,
    proofHash: Option<Secret>,
    proofExpiresAt: Option<Time>,
    verifiedAt: Option<Time>)

  const NEW_ROW := Row(Open, None, None, None, None, None, None, None, None, 0, 0, 0, None, None, None, None)

  /** `CLEARED_CHALLENGE`: the challenge, its code and its proof go; the link and its counters stay. */
  function ClearChallenge(row: Row): Row {
    row.(challengeMac := None, codeHash := None, codeExpiresAt := None, codeNonce := None,
         codeAttempts := 0, proofHash := None, proofExpiresAt := None, verifiedAt := None)
  }

  /** `CLEARED_LINK_AND_CHALLENGE`: the link and everything that hangs on it go. */
  function ClearLink(row: Row): Row {
    ClearChallenge(row).(linkToken := None, linkIssuedAt := None, linkExpiresAt := None,
                         codeFailedTotal := 0, codeSentCount := 0, codeWindowStartedAt := None)
  }

  datatype Reply =
    | Accepted
    | LinkInvalid
    | LinkExpired
    | LinkNotIssuable
    | CodeInvalid
    | RateLimited
    | ProofInvalid
    | InvalidTransition

  datatype Answer = SaysReceived | SaysDenied

  datatype Decision = CancelHandover | RecordOwnerStatement

  // ----- the recheck under the lock -----

  /** `lockOwnRow`: the token, the status and the term are checked again on the locked row. */
  function CheckLink(row: Row, token: Secret, now: Time): Reply {
    if row.status != Open || row.linkToken.None? || row.linkExpiresAt.None? || row.linkToken.value != token
    then LinkInvalid
    else if row.linkExpiresAt.value <= now then LinkExpired
    else Accepted
  }

  // ----- the steps -----

  function RotateLink(row: Row, token: Secret, now: Time): (Row, Reply) {
    if row.status != Open then (row, LinkNotIssuable)
    else (ClearLink(row).(linkToken := Some(token), linkIssuedAt := Some(now),
                          linkExpiresAt := Some(now + LINK_TTL)), Accepted)
  }

  predicate WindowOpen(row: Row, now: Time) {
    row.codeWindowStartedAt.Some? && now - row.codeWindowStartedAt.value < SEND_WINDOW
  }

  function RequestCode(row: Row, id: nat, token: Secret, email: string, nickname: string,
                       code: string, nonce: Secret, now: Time): (Row, Reply)
  {
    var link := CheckLink(row, token, now);
    var sent := if WindowOpen(row, now) then row.codeSentCount else 0;
    if link != Accepted then (row, link)
    else if row.codeFailedTotal >= MAX_FAILED_TOTAL then (row, RateLimited)
    else if sent >= MAX_SENDS then (row, RateLimited)
    else
      var mac := ChallengeMac(id, email, nickname);
      (ClearChallenge(row).(
         challengeMac := Some(mac), codeHash := Some(CodeHash(id, mac, code)), codeNonce := Some(nonce),
         codeExpiresAt := Some(now + CODE_TTL), codeSentCount := sent + 1,
         codeWindowStartedAt := if WindowOpen(row, now) then row.codeWindowStartedAt else Some(now)),
       Accepted)
  }

  predicate CodeStanding(row: Row, now: Time) {
    row.codeHash.Some? && row.codeExpiresAt.Some? && row.challengeMac.Some? && now < row.codeExpiresAt.value
  }

  predicate CodeMatches(row: Row, id: nat, email: string, nickname: string, code: string) {
    var mac := ChallengeMac(id, email, nickname);
    row.challengeMac == Some(mac) && row.codeHash == Some(CodeHash(id, mac, code))
  }

  function VerifyCode(row: Row, id: nat, token: Secret, email: string, nickname: string,
                      code: string, proof: Secret, now: Time): (Row, Reply)
  {
    var link := CheckLink(row, token, now);
    if link != Accepted then (row, link)
    else if row.codeFailedTotal >= MAX_FAILED_TOTAL then (row, RateLimited)
    else if !CodeStanding(row, now) then (row, CodeInvalid)
    else if !CodeMatches(row, id, email, nickname, code) then
      var counted := row.(codeFailedTotal := row.codeFailedTotal + 1);
      (if row.codeAttempts + 1 >= MAX_ATTEMPTS then ClearChallenge(counted)
       else counted.(codeAttempts := row.codeAttempts + 1), CodeInvalid)
    else
      (row.(codeHash := None, codeExpiresAt := None, codeNonce := None, codeAttempts := 0,
            proofHash := Some(proof), proofExpiresAt := Some(now + PROOF_TTL), verifiedAt := Some(now)),
       Accepted)
  }

  predicate ProofStands(row: Row, id: nat, email: string, nickname: string, proof: Secret, now: Time) {
    && row.proofHash == Some(proof)
    && row.proofExpiresAt.Some? && now < row.proofExpiresAt.value
    && row.verifiedAt.Some?
    && row.challengeMac == Some(ChallengeMac(id, email, nickname))
  }

  function AnswerLink(row: Row, id: nat, token: Secret, email: string, nickname: string,
                      proof: Secret, answer: Answer, now: Time): (Row, Reply)
  {
    var link := CheckLink(row, token, now);
    if link != Accepted then (row, link)
    else if !ProofStands(row, id, email, nickname, proof, now) then (row, ProofInvalid)
    else if answer == SaysReceived then
      (ClearLink(row).(status := Received, resolvedAt := Some(now)), Accepted)
    else
      (ClearLink(row).(status := Denied, resolvedAt := None), Accepted)
  }

  /** `resolveConfirmationTransition`: both decisions of the owner, from `OPEN` and `DENIED` only. */
  function DecidedStatus(from: ConfirmationStatus, decision: Decision): Option<ConfirmationStatus> {
    if from != Open && from != Denied then None
    else if decision == CancelHandover then Some(CancelledByOwner)
    else Some(OwnerRecorded)
  }

  function Decide(row: Row, decision: Decision, now: Time): (Row, Reply) {
    match DecidedStatus(row.status, decision)
    case None => (row, InvalidTransition)
    case Some(to) => (ClearLink(row).(status := to, resolvedAt := Some(now)), Accepted)
  }

  /** After commit: the letter with the code could not be sent. */
  function CodeMailFailed(row: Row, nonce: Secret): Row {
    if row.codeNonce == Some(nonce) then ClearChallenge(row) else row
  }

  /** After commit: the letter with the link could not be sent. */
  function LinkMailFailed(row: Row, token: Secret): Row {
    if row.linkToken == Some(token) then ClearLink(row) else row
  }

  // ----- one step of a run, and what it leaves in the history -----

  datatype Request =
    | IssueLink(token: Secret)
    | LinkBounced(token: Secret)
    | AskCode(token: Secret, email: string, nickname: string, code: string, nonce: Secret)
    | CodeBounced(nonce: Secret)
    | Verify(token: Secret, email: string, nickname: string, code: string, proof: Secret)
    | Respond(token: Secret, email: string, nickname: string, proof: Secret, answer: Answer)
    | OwnerDecides(decision: Decision)

  /** What a step did, as far as the promises of the protocol speak about it. */
  datatype Act =
    | LinkIssued(token: Secret, at: Time)
    | LinkDropped(token: Secret)
    | CodeIssued(mac: string, hash: string, nonce: Secret, at: Time)
    | CodeDropped(nonce: Secret)
    | WrongCode(at: Time)
    | CodeProved(mac: string, hash: string, proof: Secret, at: Time)
    | Answered(token: Secret, mac: string, proof: Secret, answer: Answer, at: Time)
    | Decided(decision: Decision, at: Time)

  function Step(row: Row, id: nat, req: Request, now: Time): (Row, Reply) {
    match req
    case IssueLink(token) => RotateLink(row, token, now)
    case LinkBounced(token) => (LinkMailFailed(row, token), Accepted)
    case AskCode(token, email, nickname, code, nonce) =>
      RequestCode(row, id, token, email, nickname, code, nonce, now)
    case CodeBounced(nonce) => (CodeMailFailed(row, nonce), Accepted)
    case Verify(token, email, nickname, code, proof) =>
      VerifyCode(row, id, token, email, nickname, code, proof, now)
    case Respond(token, email, nickname, proof, answer) =>
      AnswerLink(row, id, token, email, nickname, proof, answer, now)
    case OwnerDecides(decision) => Decide(row, decision, now)
  }

  /** A code is compared exactly when the link stands, the limit is not spent and a code is waiting. */
  predicate Compares(row: Row, token: Secret, now: Time) {
    CheckLink(row, token, now) == Accepted && row.codeFailedTotal < MAX_FAILED_TOTAL && CodeStanding(row, now)
  }

  function Trace(row: Row, id: nat, req: Request, now: Time): seq<Act> {
    var reply := Step(row, id, req, now).1;
    match req
    case IssueLink(token) => if reply == Accepted then [LinkIssued(token, now)] else []
    case LinkBounced(token) => if row.linkToken == Some(token) then [LinkDropped(token)] else []
    case AskCode(token, email, nickname, code, nonce) =>
      var mac := ChallengeMac(id, email, nickname);
      if reply == Accepted then [CodeIssued(mac, CodeHash(id, mac, code), nonce, now)] else []
    case CodeBounced(nonce) => if row.codeNonce == Some(nonce) then [CodeDropped(nonce)] else []
    case Verify(token, email, nickname, code, proof) =>
      var mac := ChallengeMac(id, email, nickname);
      if reply == Accepted then [CodeProved(mac, CodeHash(id, mac, code), proof, now)]
      else if Compares(row, token, now) then [WrongCode(now)] else []
    case Respond(token, email, nickname, proof, answer) =>
      if reply == Accepted then [Answered(token, ChallengeMac(id, email, nickname), proof, answer, now)] else []
    case OwnerDecides(decision) => if reply == Accepted then [Decided(decision, now)] else []
  }

  // ----- whole runs of one confirmation -----

  datatype Timed = Timed(at: Time, req: Request)

  datatype History = History(row: Row, acts: seq<Act>)

  /** The row and its history after a sequence of requests, from the row the handover creates. */
  function Run(id: nat, reqs: seq<Timed>): History {
    if |reqs| == 0 then History(NEW_ROW, [])
    else
      var h := Run(id, reqs[..|reqs| - 1]);
      var last := reqs[|reqs| - 1];
      History(Step(h.row, id, last.req, last.at).0, h.acts + Trace(h.row, id, last.req, last.at))
  }

  predicate ClockMonotone(reqs: seq<Timed>) {
    forall i, j | 0 <= i < j < |reqs| :: reqs[i].at <= reqs[j].at
  }
}
