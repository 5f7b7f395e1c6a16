/**
 * Every request to a confirmation, told by the columns of its row and by its history: which reply it gets, exactly when,
 * and what it leaves behind. Nothing here goes by the functions that compute it.
 */
module ProtocolEffects {
  import opened Wrappers
  import opened Framing
  import opened GuestProtocol
  import S = ProtocolSafety
  import L = ProtocolLimits

  // ----- the link -----

  predicate UnderLink(row: Row, token: Secret) {
    row.status == Open && row.linkToken == Some(token)
  }

  /** The link is the current one and its term has not passed. */
  predicate LinkStands(row: Row, token: Secret, now: Time) {
    UnderLink(row, token) && row.linkExpiresAt.Some? && now < row.linkExpiresAt.value
  }

  /** How requests under a link are turned away before anything else is looked at. */
  predicate TurnedAwayByLink(row: Row, token: Secret, now: Time, reply: Reply) {
    && (reply == LinkInvalid <==> !UnderLink(row, token))
    && (reply == LinkExpired <==> UnderLink(row, token) && !LinkStands(row, token, now))
  }

  lemma LinkChecked(row: Row, token: Secret, now: Time)
    requires S.ChecksHold(row)
    ensures TurnedAwayByLink(row, token, now, CheckLink(row, token, now))
    ensures CheckLink(row, token, now) == Accepted <==> LinkStands(row, token, now)
  {
  }

  /** A link is issued for an open confirmation only; it is the only thing the row then has, and lasts seven days. */
  lemma LinkIssuedInColumns(row: Row, token: Secret, now: Time)
    ensures
      var (v, reply) := RotateLink(row, token, now);
      if row.status == Open then
        && reply == Accepted
        && v == Row(Open, row.resolvedAt, Some(token), Some(now), Some(now + 7 * 24 * 3_600_000),
                    None, None, None, None, 0, 0, 0, None, None, None, None)
      else reply == LinkNotIssuable && v == row
  {
  }

  // ----- a code is asked for -----

  /** Codes sent in the hour that is still running. */
  function SentThisHour(row: Row, now: Time): nat {
    if row.codeWindowStartedAt.Some? && now < row.codeWindowStartedAt.value + 3_600_000 then row.codeSentCount else 0
  }

  /**
   * In every run, a code is sent exactly if the link stands, fewer than ten wrong codes were compared since the link was
   * issued and fewer than five codes were sent in the hour that is running; otherwise nothing changes.
   */
  lemma CodeSentExactlyWhen(id: nat, reqs: seq<Timed>, token: Secret, email: string, nickname: string, code: string,
                            nonce: Secret, now: Time)
    ensures
      var h := Run(id, reqs);
      var (v, reply) := RequestCode(h.row, id, token, email, nickname, code, nonce, now);
      && TurnedAwayByLink(h.row, token, now, reply)
      && (reply == RateLimited <==>
            LinkStands(h.row, token, now) && (L.WrongSinceLink(h.acts) == 10 || SentThisHour(h.row, now) >= 5))
      && (reply == Accepted <==>
            LinkStands(h.row, token, now) && L.WrongSinceLink(h.acts) < 10 && SentThisHour(h.row, now) < 5)
      && (reply != Accepted ==> v == h.row)
  {
    var h := Run(id, reqs);
    S.ChecksNeverFire(id, reqs);
    L.RunCountsGuesses(id, reqs);
    LinkChecked(h.row, token, now);
    hide Run, ChallengeMac, CodeHash, L.WrongSinceLink, L.WrongSinceCode;
  }

  /** What a sent code leaves: its challenge and hash for ten minutes, no attempts, no earlier proof, and one more send. */
  lemma SentCodeInColumns(row: Row, id: nat, token: Secret, email: string, nickname: string, code: string, nonce: Secret, now: Time)
    requires RequestCode(row, id, token, email, nickname, code, nonce, now).1 == Accepted
    ensures
      var mac := ChallengeMac(id, email, nickname);
      RequestCode(row, id, token, email, nickname, code, nonce, now).0
      == Row(row.status, row.resolvedAt, row.linkToken, row.linkIssuedAt, row.linkExpiresAt,
             Some(mac), Some(CodeHash(id, mac, code)), Some(now + 10 * 60_000), Some(nonce),
             0, row.codeFailedTotal, SentThisHour(row, now) + 1,
             if row.codeWindowStartedAt.Some? && now < row.codeWindowStartedAt.value + 3_600_000
             then row.codeWindowStartedAt else Some(now),
             None, None, None)
  {
    hide ChallengeMac, CodeHash;
  }

  // ----- a code is checked -----

  /** A code is waiting and its ten minutes are not over. */
  predicate CodeWaits(row: Row, now: Time) {
    row.codeHash.Some? && row.codeExpiresAt.Some? && now < row.codeExpiresAt.value
  }

  /** In every run, a code proves the address exactly if link and code stand, the limit is not spent and it is the code sent. */
  lemma CodeProvesExactlyWhen(id: nat, reqs: seq<Timed>, token: Secret, email: string, nickname: string, code: string,
                              proof: Secret, now: Time)
    ensures
      var h := Run(id, reqs);
      var mac := ChallengeMac(id, email, nickname);
      var (v, reply) := VerifyCode(h.row, id, token, email, nickname, code, proof, now);
      && TurnedAwayByLink(h.row, token, now, reply)
      && (reply == RateLimited <==> LinkStands(h.row, token, now) && L.WrongSinceLink(h.acts) == 10)
      && (reply == Accepted <==>
            && LinkStands(h.row, token, now) && L.WrongSinceLink(h.acts) < 10 && CodeWaits(h.row, now)
            && h.row.challengeMac == Some(mac) && h.row.codeHash == Some(CodeHash(id, mac, code)))
      && (reply == CodeInvalid <==>
            && LinkStands(h.row, token, now) && L.WrongSinceLink(h.acts) < 10
            && (!CodeWaits(h.row, now) || h.row.challengeMac != Some(mac) || h.row.codeHash != Some(CodeHash(id, mac, code))))
  {
    var h := Run(id, reqs);
    S.ChecksNeverFire(id, reqs);
    L.RunCountsGuesses(id, reqs);
    LinkChecked(h.row, token, now);
    hide Run, ChallengeMac, CodeHash, L.WrongSinceLink, L.WrongSinceCode;
  }

  /**
   * What a check leaves in every run: a right code the proof for thirty minutes in place of the code; a wrong one its
   * mark on the link and on the code, of which the fifth takes the code away; a refusal without comparison nothing.
   */
  lemma CheckedCodeInColumns(id: nat, reqs: seq<Timed>, token: Secret, email: string, nickname: string, code: string,
                             proof: Secret, now: Time)
    ensures
      var h := Run(id, reqs);
      var row := h.row;
      var (v, reply) := VerifyCode(row, id, token, email, nickname, code, proof, now);
      if reply == Accepted then
        v == Row(Open, row.resolvedAt, Some(token), row.linkIssuedAt, row.linkExpiresAt, row.challengeMac, None, None, None,
                 0, row.codeFailedTotal, row.codeSentCount, row.codeWindowStartedAt,
                 Some(proof), Some(now + 30 * 60_000), Some(now))
      else if reply == CodeInvalid && CodeWaits(row, now) then
        && row.codeAttempts == L.WrongSinceCode(h.acts) && row.codeFailedTotal == L.WrongSinceLink(h.acts)
        && v == if L.WrongSinceCode(h.acts) < 4
                then row.(codeAttempts := L.WrongSinceCode(h.acts) + 1, codeFailedTotal := L.WrongSinceLink(h.acts) + 1)
                else Row(Open, row.resolvedAt, Some(token), row.linkIssuedAt, row.linkExpiresAt, None, None, None, None,
                         0, L.WrongSinceLink(h.acts) + 1, row.codeSentCount, row.codeWindowStartedAt, None, None, None)
      else v == row
  {
    var h := Run(id, reqs);
    S.ChecksNeverFire(id, reqs);
    L.RunCountsGuesses(id, reqs);
    LinkChecked(h.row, token, now);
    hide Run, ChallengeMac, CodeHash, L.WrongSinceLink, L.WrongSinceCode;
  }

  // ----- the answer and the decision -----

  /** In every run, an answer counts exactly if link and proof stand and it is given for the proven address and nickname. */
  lemma AnswerCountsExactlyWhen(id: nat, reqs: seq<Timed>, token: Secret, email: string, nickname: string, proof: Secret,
                                answer: Answer, now: Time)
    ensures
      var row := Run(id, reqs).row;
      var (v, reply) := AnswerLink(row, id, token, email, nickname, proof, answer, now);
      var proven := row.proofHash == Some(proof) && row.proofExpiresAt.Some? && now < row.proofExpiresAt.value
                    && row.challengeMac == Some(ChallengeMac(id, email, nickname));
      && TurnedAwayByLink(row, token, now, reply)
      && (reply == Accepted <==> LinkStands(row, token, now) && proven)
      && (reply == ProofInvalid <==> LinkStands(row, token, now) && !proven)
      && v == (if reply != Accepted then row
               else if answer == SaysReceived then Over(Received, Some(now)) else Over(Denied, None))
  {
    S.ChecksNeverFire(id, reqs);
    LinkChecked(Run(id, reqs).row, token, now);
    hide Run, ChallengeMac;
  }

  /** The row of a confirmation without link, challenge, code, proof and counts. */
  function Over(status: ConfirmationStatus, resolvedAt: Option<Time>): Row {
    Row(status, resolvedAt, None, None, None, None, None, None, None, 0, 0, 0, None, None, None, None)
  }

  /** The owner may decide exactly while the confirmation is open or denied, and that ends it. */
  lemma DecisionInColumns(row: Row, decision: Decision, now: Time)
    ensures
      var (v, reply) := Decide(row, decision, now);
      if row.status == Open || row.status == Denied then
        reply == Accepted && v == Over(if decision == CancelHandover then CancelledByOwner else OwnerRecorded, Some(now))
      else reply == InvalidTransition && v == row
  {
  }

  // ----- letters that failed -----

  /** A failed code letter takes its own code back, with the attempts at it; link and counts of the link stay. */
  lemma BouncedCodeInColumns(row: Row, nonce: Secret)
    ensures
      CodeMailFailed(row, nonce)
      == if row.codeNonce == Some(nonce)
         then Row(row.status, row.resolvedAt, row.linkToken, row.linkIssuedAt, row.linkExpiresAt, None, None, None, None,
                  0, row.codeFailedTotal, row.codeSentCount, row.codeWindowStartedAt, None, None, None)
         else row
  {
  }

  /** A failed link letter takes back its own link and all that was done under it. */
  lemma BouncedLinkInColumns(row: Row, token: Secret)
    ensures LinkMailFailed(row, token) == if row.linkToken == Some(token) then Over(row.status, row.resolvedAt) else row
  {
  }
}
