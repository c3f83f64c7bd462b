/**
 * The restricted token check run by the session gate: a JWT in compact
 * serialisation (section 7.1 of RFC 7515) is split on '.', its middle
 * segment is decoded, and its `exp` claim (section 4.1.4 of RFC 7519) is
 * compared against the clock. Header and signature are never read.
 */
module JwtEdge {
  import opened Types
  import opened Strings

  /** The two members of the decoded payload that the check reads. */
  datatype Payload = Payload(userId: Option<string>, exp: Option<int>)

  /** The check's result object `{ userId: payload.userId }`. */
  datatype EdgeClaims = EdgeClaims(userId: Option<string>)

  /**
   * `JSON.parse(atob(segment))`: `None` when either throws, or when the
   * parsed value is `null` (reading `.exp` off it throws too).
   */
  type Decoder = string -> Option<Payload>

  /** `payload.exp` is truthy: present and not 0. */
  predicate ExpSet(p: Payload)
  {
    p.exp.Some? && p.exp.value != 0
  }

  /** `payload.exp && now >= payload.exp * 1000`, with `now` in milliseconds. */
  predicate Expired(p: Payload, now: int)
  {
    ExpSet(p) && now >= p.exp.value * 1000
  }

  /** `verifyTokenSync(token)` at clock reading `now`. */
  function VerifyTokenSync(token: string, now: int, decode: Decoder): (r: Option<EdgeClaims>)
    ensures r.Some? ==> Count(token, '.') == 2
    ensures r.Some? <==>
      && |Split(token, '.')| == 3
      && decode(Split(token, '.')[1]).Some?
      && !Expired(decode(Split(token, '.')[1]).value, now)
    ensures r.Some? ==> r.value.userId == decode(Split(token, '.')[1]).value.userId
  {
    var parts := Split(token, '.');
    if |parts| != 3 then None
    else
      match decode(parts[1])
      case None => None
      case Some(payload) =>
        if Expired(payload, now) then None else Some(EdgeClaims(payload.userId))
  }

  /** The middle segment is the one between the first and the second dot. */
  lemma CompactSegments(header: string, payload: string, signature: string)
    requires '.' !in header && '.' !in payload && '.' !in signature
    ensures Split(header + "." + payload + "." + signature, '.') == [header, payload, signature]
  {
    SplitAt(header, payload + "." + signature, '.');
    SplitAt(payload, signature, '.');
    SplitWithout(signature, '.');
    assert header + "." + payload + "." + signature == header + ['.'] + (payload + ['.'] + signature);
  }

  /**
   * The outcome of a compact token depends on its middle segment and the
   * clock only: replacing the header or the signature never changes it.
   */
  lemma SignatureBlind(h1: string, h2: string, payload: string, s1: string, s2: string,
                       now: int, decode: Decoder)
    requires '.' !in h1 && '.' !in h2 && '.' !in payload && '.' !in s1 && '.' !in s2
    ensures VerifyTokenSync(h1 + "." + payload + "." + s1, now, decode)
         == VerifyTokenSync(h2 + "." + payload + "." + s2, now, decode)
    ensures VerifyTokenSync(h1 + "." + payload + "." + s1, now, decode)
         == match decode(payload)
            case None => None
            case Some(p) => if Expired(p, now) then None else Some(EdgeClaims(p.userId))
  {
    CompactSegments(h1, payload, s1);
    CompactSegments(h2, payload, s2);
  }

  /** Any token without exactly two dots (so 2 or 4 segments) is rejected. */
  lemma WrongShapeRejected(token: string, now: int, decode: Decoder)
    requires Count(token, '.') != 2
    ensures VerifyTokenSync(token, now, decode).None?
  {
  }

  /**
   * Expiry: with a truthy `exp`, a decodable token is rejected exactly
   * from the instant `exp * 1000` on; that instant itself counts as expired.
   */
  lemma {:induction false} ExpiryBoundary(header: string, payload: string, signature: string,
                                         now: int, decode: Decoder)
    requires '.' !in header && '.' !in payload && '.' !in signature
    requires decode(payload).Some? && ExpSet(decode(payload).value)
    ensures VerifyTokenSync(header + "." + payload + "." + signature, now, decode).None?
        <==> now >= decode(payload).value.exp.value * 1000
    ensures VerifyTokenSync(header + "." + payload + "." + signature,
                            decode(payload).value.exp.value * 1000, decode).None?
  {
    SignatureBlind(header, header, payload, signature, signature, now, decode);
    SignatureBlind(header, header, payload, signature, signature,
                   decode(payload).value.exp.value * 1000, decode);
  }

  /**
   * A payload without a truthy `exp` is never rejected on expiry grounds,
   * and success does not need a `userId` member.
   */
  lemma {:induction false} NoExpNeverExpires(header: string, payload: string, signature: string,
                                            now: int, decode: Decoder)
    requires '.' !in header && '.' !in payload && '.' !in signature
    requires decode(payload).Some? && !ExpSet(decode(payload).value)
    ensures VerifyTokenSync(header + "." + payload + "." + signature, now, decode)
         == Some(EdgeClaims(decode(payload).value.userId))
  {
    SignatureBlind(header, header, payload, signature, signature, now, decode);
  }

  /** An undecodable middle segment yields `None` whatever the clock says. */
  lemma {:induction false} UndecodableRejected(header: string, payload: string, signature: string,
                                              now: int, decode: Decoder)
    requires '.' !in header && '.' !in payload && '.' !in signature
    requires decode(payload).None?
    ensures VerifyTokenSync(header + "." + payload + "." + signature, now, decode).None?
  {
    SignatureBlind(header, header, payload, signature, signature, now, decode);
  }
}
