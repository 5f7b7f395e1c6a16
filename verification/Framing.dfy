/**
 * The keyed messages of `GuestConfirmationSecrets`.
 *
 * Every HMAC of the guest protocol is taken over `domain|len:part|len:part|...`. HMAC-SHA-256 itself is
 * taken as injective (the model keeps the message in its place), so what remains to be shown is that
 * the framed message determines the domain and every part.
 */
module Framing {
  import opened Wrappers

  // ----- decimal lengths -----

  function Digit(d: nat): char
    requires d < 10
  {
    '0' + d as char
  }

  predicate IsDigit(c: char) {
    '0' <= c <= '9'
  }

  /** `String(n)` for a length. */
  function Decimal(n: nat): string {
    if n < 10 then [Digit(n)] else Decimal(n / 10) + [Digit(n % 10)]
  }

  function ReadDecimal(s: string): nat {
    if |s| == 0 then 0
    else ReadDecimal(s[..|s| - 1]) * 10 + (if IsDigit(s[|s| - 1]) then (s[|s| - 1] - '0') as nat else 0)
  }

  lemma {:induction false} DecimalRoundTrip(n: nat)
    ensures ReadDecimal(Decimal(n)) == n
    ensures forall i | 0 <= i < |Decimal(n)| :: IsDigit(Decimal(n)[i])
  {
    if n < 10 {
      assert [Digit(n)][..0] == "";
    } else {
      DecimalRoundTrip(n / 10);
      assert Decimal(n)[..|Decimal(n)| - 1] == Decimal(n / 10);
    }
  }

  // ----- the framed message -----

  /** One length-prefixed part: `5:alice`. */
  function Part(p: string): string {
    Decimal(|p|) + ":" + p
  }

  /** `parts.map(...).join('|')`. */
  function Joined(parts: seq<string>): string {
    if |parts| == 0 then ""
    else if |parts| == 1 then Part(parts[0])
    else Part(parts[0]) + "|" + Joined(parts[1..])
  }

  /** The whole message that is hashed. */
  function Framed(domain: string, parts: seq<string>): string {
    domain + "|" + Joined(parts)
  }

  // ----- reading it back -----

  /** Splits at the first `c`: what stands before it and what stands after it. */
  function SplitAt(s: string, c: char): (r: Option<(string, string)>)
    ensures r.Some? ==> c !in r.value.0 && s == r.value.0 + [c] + r.value.1
    ensures r.None? ==> c !in s
  {
    if |s| == 0 then None
    else if s[0] == c then Some(("", s[1..]))
    else match SplitAt(s[1..], c)
      case None => None
      case Some((before, after)) => Some(([s[0]] + before, after))
  }

  function ReadParts(s: string): Option<seq<string>>
    decreases |s|
  {
    if |s| == 0 then Some([])
    else match SplitAt(s, ':')
      case None => None
      case Some((digits, rest)) =>
        var n := ReadDecimal(digits);
        if n > |rest| then None
        else if n == |rest| then Some([rest])
        else if rest[n] != '|' then None
        else match ReadParts(rest[n + 1..])
          case None => None
          case Some(more) => Some([rest[..n]] + more)
  }

  function Unframed(message: string): Option<(string, seq<string>)> {
    match SplitAt(message, '|')
    case None => None
    case Some((domain, rest)) =>
      match ReadParts(rest)
      case None => None
      case Some(parts) => Some((domain, parts))
  }

  lemma {:induction false} SplitFinds(before: string, c: char, after: string)
    requires c !in before
    ensures SplitAt(before + [c] + after, c) == Some((before, after))
  {
    var s := before + [c] + after;
    if |before| == 0 {
      assert s[1..] == after;
    } else {
      assert s[0] == before[0];
      assert before[0] in before;
      assert s[1..] == before[1..] + [c] + after;
      SplitFinds(before[1..], c, after);
      assert [before[0]] + before[1..] == before;
    }
  }

  lemma ColonNotInDecimal(n: nat)
    ensures ':' !in Decimal(n)
  {
    DecimalRoundTrip(n);
  }

  lemma {:induction false} PartsReadBack(parts: seq<string>)
    ensures ReadParts(Joined(parts)) == Some(parts)
  {
    if |parts| > 0 {
      var p := parts[0];
      var tail := if |parts| == 1 then "" else "|" + Joined(parts[1..]);
      var s := Joined(parts);
      var rest := p + tail;
      assert s == Decimal(|p|) + [':'] + rest;
      ColonNotInDecimal(|p|);
      SplitFinds(Decimal(|p|), ':', rest);
      DecimalRoundTrip(|p|);
      assert s == Decimal(|p|) + [':'] + rest && |s| > 0;
      hide Decimal, ReadDecimal, SplitAt;
      if |parts| == 1 {
        assert rest == p && parts == [p];
      } else {
        assert rest[..|p|] == p && rest[|p| + 1..] == Joined(parts[1..]);
        JoinedNonEmpty(parts[1..]);
        PartsReadBack(parts[1..]);
        assert [p] + parts[1..] == parts;
      }
    }
  }

  lemma JoinedNonEmpty(parts: seq<string>)
    requires |parts| > 0
    ensures |Joined(parts)| > 0
  {
  }

  /** Framing loses nothing: the reader recovers the domain and the list of parts. */
  lemma FramedReadBack(domain: string, parts: seq<string>)
    requires '|' !in domain
    ensures Unframed(Framed(domain, parts)) == Some((domain, parts))
  {
    assert Framed(domain, parts) == domain + ['|'] + Joined(parts);
    SplitFinds(domain, '|', Joined(parts));
    PartsReadBack(parts);
  }

  /** Two framed messages agree exactly when the domains and all parts agree, whatever the lengths. */
  lemma FramedIsInjective(d1: string, p1: seq<string>, d2: string, p2: seq<string>)
    requires '|' !in d1 && '|' !in d2
    ensures Framed(d1, p1) == Framed(d2, p2) <==> d1 == d2 && p1 == p2
  {
    FramedReadBack(d1, p1);
    FramedReadBack(d2, p2);
  }

  /** A separator inside the domain breaks it: this is why the domains are fixed constants without `|`. */
  lemma SeparatorInDomainCollides()
    ensures Framed("a|1:b", ["c"]) == Framed("a", ["b", "c"])
  {
    assert Decimal(1) == "1";
    assert Joined(["b", "c"]) == Part("b") + "|" + Joined(["c"]) by {
      assert ["b", "c"][1..] == ["c"];
    }
    assert Framed("a", ["b", "c"]) == "a|1:b|1:c";
    assert Framed("a|1:b", ["c"]) == "a|1:b|1:c";
  }

  // ----- the two messages of the guest protocol -----

  predicate IsBlank(c: char) {
    c == ' ' || c == '\t' || c == '\n' || c == '\r'
  }

  function TrimLeft(s: string): string {
    if |s| > 0 && IsBlank(s[0]) then TrimLeft(s[1..]) else s
  }

  function TrimRight(s: string): string {
    if |s| > 0 && IsBlank(s[|s| - 1]) then TrimRight(s[..|s| - 1]) else s
  }

  function Trim(s: string): string {
    TrimRight(TrimLeft(s))
  }

  /** `t` is `s` without the blanks at both of its ends, and with nothing else missing. */
  predicate IsTrimmed(s: string, t: string) {
    exists i, j | 0 <= i <= j <= |s| ::
      && t == s[i..j]
      && (forall k | 0 <= k < |s| && !(i <= k < j) :: IsBlank(s[k]))
      && (i < j ==> !IsBlank(s[i]) && !IsBlank(s[j - 1]))
  }

  lemma {:induction false} LeftTrimmed(s: string) returns (i: nat)
    ensures i <= |s| && TrimLeft(s) == s[i..]
    ensures forall k | 0 <= k < i :: IsBlank(s[k])
    ensures i < |s| ==> !IsBlank(s[i])
  {
    if |s| > 0 && IsBlank(s[0]) {
      i := LeftTrimmed(s[1..]);
      i := i + 1;
    } else {
      i := 0;
    }
  }

  lemma {:induction false} RightTrimmed(s: string) returns (j: nat)
    ensures j <= |s| && TrimRight(s) == s[..j]
    ensures forall k | j <= k < |s| :: IsBlank(s[k])
    ensures j > 0 ==> !IsBlank(s[j - 1])
  {
    if |s| > 0 && IsBlank(s[|s| - 1]) {
      j := RightTrimmed(s[..|s| - 1]);
    } else {
      j := |s|;
    }
  }

  /** A name is compared and stored without the blanks around it. */
  lemma TrimTakesBlanksOnly(s: string)
    ensures IsTrimmed(s, Trim(s))
  {
    var i := LeftTrimmed(s);
    var j := RightTrimmed(s[i..]);
    assert Trim(s) == s[i..i + j];
    assert forall k | i + j <= k < |s| :: s[k] == s[i..][k - i];
  }

  function LowerChar(c: char): char {
    if 'A' <= c <= 'Z' then c - 'A' + 'a' else c
  }

  function Lower(s: string): string {
    seq(|s|, i requires 0 <= i < |s| => LowerChar(s[i]))
  }

  const CHALLENGE_DOMAIN := "bookswap-guest-challenge:v1"
  const CODE_DOMAIN := "bookswap-guest-code:v1"

  /** The address a guest typed, as it is hashed and stored. */
  function CanonicalEmail(email: string): string {
    Lower(Trim(email))
  }

  /** An address is compared and stored without the blanks around it and in small letters. */
  lemma CanonicalInLetters(email: string)
    ensures exists t | IsTrimmed(email, t) ::
              && |t| == |CanonicalEmail(email)|
              && forall k | 0 <= k < |t| ::
                   CanonicalEmail(email)[k] as int == t[k] as int + if 'A' <= t[k] <= 'Z' then 32 else 0
  {
    TrimTakesBlanksOnly(email);
    hide IsTrimmed, Trim;
  }

  /** `challengeMac`: ties a challenge to one confirmation, one address and one nickname. */
  function ChallengeMac(confirmation: nat, email: string, nickname: string): string {
    Framed(CHALLENGE_DOMAIN, [Decimal(confirmation), CanonicalEmail(email), Trim(nickname)])
  }

  /** `codeHash`: ties a six-digit code to one challenge. */
  function CodeHash(confirmation: nat, mac: string, code: string): string {
    Framed(CODE_DOMAIN, [Decimal(confirmation), mac, code])
  }

  lemma DecimalIsInjective(m: nat, n: nat)
    ensures Decimal(m) == Decimal(n) <==> m == n
  {
    DecimalRoundTrip(m);
    DecimalRoundTrip(n);
  }

  /** A challenge matches exactly for the same confirmation, the same canonical address and nickname. */
  lemma ChallengeMacIsInjective(c1: nat, e1: string, n1: string, c2: nat, e2: string, n2: string)
    ensures ChallengeMac(c1, e1, n1) == ChallengeMac(c2, e2, n2)
       <==> c1 == c2 && CanonicalEmail(e1) == CanonicalEmail(e2) && Trim(n1) == Trim(n2)
  {
    var p1 := [Decimal(c1), CanonicalEmail(e1), Trim(n1)];
    var p2 := [Decimal(c2), CanonicalEmail(e2), Trim(n2)];
    FramedIsInjective(CHALLENGE_DOMAIN, p1, CHALLENGE_DOMAIN, p2);
    DecimalIsInjective(c1, c2);
    assert p1 == p2 <==> p1[0] == p2[0] && p1[1] == p2[1] && p1[2] == p2[2];
  }

  /** A code matches exactly for the same confirmation, challenge and digits. */
  lemma CodeHashIsInjective(c1: nat, m1: string, k1: string, c2: nat, m2: string, k2: string)
    ensures CodeHash(c1, m1, k1) == CodeHash(c2, m2, k2) <==> c1 == c2 && m1 == m2 && k1 == k2
  {
    var p1 := [Decimal(c1), m1, k1];
    var p2 := [Decimal(c2), m2, k2];
    FramedIsInjective(CODE_DOMAIN, p1, CODE_DOMAIN, p2);
    DecimalIsInjective(c1, c2);
    assert p1 == p2 <==> p1[0] == p2[0] && p1[1] == p2[1] && p1[2] == p2[2];
  }

  /** The two kinds of hash live in different domains: none of one kind equals one of the other. */
  lemma DomainsNeverCollide(c1: nat, e: string, n: string, c2: nat, m: string, k: string)
    ensures ChallengeMac(c1, e, n) != CodeHash(c2, m, k)
  {
    FramedIsInjective(CHALLENGE_DOMAIN, [Decimal(c1), CanonicalEmail(e), Trim(n)],
                      CODE_DOMAIN, [Decimal(c2), m, k]);
  }
}
