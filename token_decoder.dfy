/** The token checks of `token_decoder.rs`. A supplier token is three
    dot-separated segments shaped like a JSON Web Token (RFC 7519); only the
    middle one is read. Base64 decoding (RFC 4648, section 4), the UTF-8
    check and the JSON field lookups are one partial function, the
    `decoder` parameter. */
module TokenDecoder {
  import opened Wrappers
  import opened Strings
  import opened CivilTime
  import opened Errors

  /** The claims the bot reads from the payload: `exp` and `s`, each present
      only when it is a JSON integer that fits an `i64`. */
  datatype Claims = Claims(exp: Option<int>, s: Option<int>)

  /** Base64, UTF-8 and JSON: `None` when any of them rejects the segment. */
  type Decoder = string -> Option<Claims>

  /** The access scopes `_Mask` names, with their raw values. */
  datatype Mask =
    | Content | Analytics | PricesDiscounts | Marketplace | Statistics | Promotion
    | QuestionsFeedback | Recommendations | ChatWithBuyers | Supplies | CustomerReturns
    | Documents | ReadOnly

  function MaskValue(m: Mask): (v: nat)
    ensures 1 <= v < 32
  {
    match m
    case Content => 1
    case Analytics => 2
    case PricesDiscounts => 3
    case Marketplace => 4
    case Statistics => 5
    case Promotion => 6
    case QuestionsFeedback => 7
    case Recommendations => 8
    case ChatWithBuyers => 9
    case Supplies => 10
    case CustomerReturns => 11
    case Documents => 12
    case ReadOnly => 30
  }

  /** Different scopes have different values. */
  lemma MaskValueInjective(a: Mask, b: Mask)
    requires MaskValue(a) == MaskValue(b)
    ensures a == b
  {
  }

  // ---------------------------------------------------------------------
  // Decoding
  // ---------------------------------------------------------------------

  /** `decode_payload_from_token`: a token that does not split into three
      parts is malformed; otherwise the middle part is decoded. */
  function DecodePayload(token: string, decoder: Decoder): (r: Result<Claims, Error>)
    ensures r == Err(MalformedToken) <==> |Split(token, '.')| != 3
    ensures r.Ok? <==> |Split(token, '.')| == 3 && decoder(Split(token, '.')[1]).Some?
    ensures r.Ok? ==> Some(r.value) == decoder(Split(token, '.')[1])
  {
    var parts := Split(token, '.');
    if |parts| != 3 then Err(MalformedToken)
    else match decoder(parts[1])
      case None => Err(UndecodablePayload)
      case Some(claims) => Ok(claims)
  }

  /** The segment rule counts dots: exactly two dots are needed. */
  lemma DecodeNeedsTwoDots(token: string, decoder: Decoder)
    ensures DecodePayload(token, decoder) != Err(MalformedToken) <==> multiset(token)['.'] == 2
  {
    SplitCount(token, '.');
  }

  /** Only the payload segment is decoded: the header and the signature are
      never looked at. */
  lemma {:induction false} OnlyPayloadDecoded(header: string, payload: string, signature: string, decoder: Decoder)
    requires '.' !in header && '.' !in payload && '.' !in signature
    ensures DecodePayload(header + "." + payload + "." + signature, decoder)
         == (match decoder(payload) case None => Err(UndecodablePayload) case Some(c) => Ok(c))
  {
    var parts := [header, payload, signature];
    assert Join(parts, '.') == header + "." + payload + "." + signature by {
      assert Join(parts[1..], '.') == payload + "." + Join(parts[2..], '.');
    }
    SplitOfJoin(parts, '.');
  }

  /** `extract_exp_from_token`: a missing or non-integer `exp` is an error. */
  function ExtractExp(token: string, decoder: Decoder): (r: Result<int, Error>)
    ensures r.Ok? <==> DecodePayload(token, decoder).Ok? && DecodePayload(token, decoder).value.exp.Some?
    ensures r.Ok? ==> r.value == DecodePayload(token, decoder).value.exp.value
    ensures DecodePayload(token, decoder).Ok? && r.Err? ==> r.error == MissingClaim
  {
    var claims :- DecodePayload(token, decoder);
    if claims.exp.None? then Err(MissingClaim) else Ok(claims.exp.value)
  }

  /** `_extract_s_from_token`, the same for the scope bits `s`. */
  function ExtractS(token: string, decoder: Decoder): (r: Result<int, Error>)
    ensures r.Ok? <==> DecodePayload(token, decoder).Ok? && DecodePayload(token, decoder).value.s.Some?
    ensures r.Ok? ==> r.value == DecodePayload(token, decoder).value.s.value
    ensures DecodePayload(token, decoder).Ok? && r.Err? ==> r.error == MissingClaim
  {
    var claims :- DecodePayload(token, decoder);
    if claims.s.None? then Err(MissingClaim) else Ok(claims.s.value)
  }

  // ---------------------------------------------------------------------
  // Checks
  // ---------------------------------------------------------------------

  /** `is_token_expired`: despite its name, `true` means the expiry is still
      ahead of `now`, that is, the token is alive. */
  function IsTokenExpired(token: string, decoder: Decoder, now: int): (r: Result<bool, Error>)
    ensures r.Ok? <==> ExtractExp(token, decoder).Ok?
    ensures r.Ok? ==> (r.value <==> ExtractExp(token, decoder).value > now)
    ensures r.Err? ==> r.error == ExtractExp(token, decoder).error
  {
    var exp :- ExtractExp(token, decoder);
    Ok(exp > now)
  }

  /** `get_lifetime_str`: the Moscow date and time of the expiry. chrono
      refuses a timestamp outside its years (an error), and adding the three
      hours past the last instant it holds panics. */
  function LifetimeStr(token: string, decoder: Decoder): (r: Result<string, Error>)
    ensures r.Ok? <==> ExtractExp(token, decoder).Ok?
                       && Representable(ExtractExp(token, decoder).value)
                       && Representable(ExtractExp(token, decoder).value + MoscowOffset)
    ensures r.Ok? ==> r.value == MoscowString(ExtractExp(token, decoder).value)
    ensures ExtractExp(token, decoder).Ok? && !Representable(ExtractExp(token, decoder).value)
            ==> r == Err(BadTimestamp)
  {
    var exp :- ExtractExp(token, decoder);
    if !Representable(exp) then Err(BadTimestamp)
    else if !Representable(exp + MoscowOffset) then Err(Panic)
    else Ok(MoscowString(exp))
  }

  // ---------------------------------------------------------------------
  // Scope bits
  // ---------------------------------------------------------------------

  /** Bit `i` of `n` in two's complement (`/` and `%` here round towards
      minus infinity, which is an arithmetic shift). */
  predicate Bit(n: int, i: nat)
    decreases i
  {
    if i == 0 then n % 2 == 1 else Bit(n / 2, i - 1)
  }

  function Pow2(k: nat): (r: nat)
    ensures r >= 1
  {
    if k == 0 then 1 else 2 * Pow2(k - 1)
  }

  /** `n & v` for a non-negative `v`, bit by bit from the lowest. */
  function BitAnd(n: int, v: nat): (r: nat)
    ensures r <= v
    decreases v
  {
    if v == 0 then 0
    else (if n % 2 == 1 && v % 2 == 1 then 1 else 0) + 2 * BitAnd(n / 2, v / 2)
  }

  /** `n` and `v` share a set bit below bit `k`. */
  predicate SharedBit(n: int, v: int, k: nat) {
    exists i | 0 <= i < k :: Bit(n, i) && Bit(v, i)
  }

  /** A shared bit is either the lowest one or a shared bit of the halves. */
  lemma SharedBitStep(n: int, v: int, k: nat)
    requires k > 0
    ensures SharedBit(n, v, k) <==> (n % 2 == 1 && v % 2 == 1) || SharedBit(n / 2, v / 2, k - 1)
  {
    if SharedBit(n / 2, v / 2, k - 1) {
      var i :| 0 <= i < k - 1 && Bit(n / 2, i) && Bit(v / 2, i);
      assert Bit(n, i + 1) && Bit(v, i + 1);
    }
    if n % 2 == 1 && v % 2 == 1 {
      assert Bit(n, 0) && Bit(v, 0);
    }
    if SharedBit(n, v, k) {
      var i :| 0 <= i < k && Bit(n, i) && Bit(v, i);
      if i > 0 {
        assert Bit(n / 2, i - 1) && Bit(v / 2, i - 1);
      }
    }
  }

  /** `n & v` is non-zero exactly when the two share a set bit. */
  lemma {:induction false} BitAndNonZero(n: int, v: nat, k: nat)
    requires v < Pow2(k)
    ensures BitAnd(n, v) != 0 <==> SharedBit(n, v, k)
    decreases k
  {
    if k == 0 {
    } else if v == 0 {
      forall i | 0 <= i < k ensures !Bit(v, i) {
        ZeroHasNoBits(i);
      }
    } else {
      BitAndNonZero(n / 2, v / 2, k - 1);
      SharedBitStep(n, v, k);
    }
  }

  lemma {:induction false} ZeroHasNoBits(i: nat)
    ensures !Bit(0, i)
  {
    if i > 0 {
      ZeroHasNoBits(i - 1);
    }
  }

  /** `_is_token_property_set`: `s & m != 0` with `m` the raw value of the
      scope, not a one-bit flag. */
  function IsTokenPropertySet(token: string, decoder: Decoder, m: Mask): (r: Result<bool, Error>)
    ensures r.Ok? <==> ExtractS(token, decoder).Ok?
    ensures r.Err? ==> r.error == ExtractS(token, decoder).error
  {
    var s :- ExtractS(token, decoder);
    Ok(BitAnd(s, MaskValue(m)) != 0)
  }

  /** The test reports a scope set exactly when `s` shares a bit with the
      scope's raw value. */
  lemma PropertySetMeansSharedBit(token: string, decoder: Decoder, m: Mask)
    requires ExtractS(token, decoder).Ok?
    ensures var s := ExtractS(token, decoder).value;
      IsTokenPropertySet(token, decoder, m).value <==> SharedBit(s, MaskValue(m), 5)
  {
    assert Pow2(5) == 32;
    BitAndNonZero(ExtractS(token, decoder).value, MaskValue(m), 5);
  }

  /** Statistics (5) tests bits 0 and 2 of `s`, so it reads as set whenever
      Content (bit 0) is. */
  lemma StatisticsTestsBitsZeroAndTwo(s: int)
    ensures BitAnd(s, MaskValue(Statistics)) != 0 <==> Bit(s, 0) || Bit(s, 2)
  {
    assert Pow2(3) == 8;
    BitAndNonZero(s, 5, 3);
    assert Bit(5, 0) && !Bit(5, 1) && Bit(5, 2);
    if SharedBit(s, 5, 3) {
      var i :| 0 <= i < 3 && Bit(s, i) && Bit(5, i);
    }
  }
}
