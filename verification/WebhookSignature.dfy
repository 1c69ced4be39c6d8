/** Outbound webhook signatures: the signed bytes, the headers and their verification. */
module WebhookSignature {
  import opened Options
  import opened Decimals
  import opened Json
  import opened JsonText
  import opened CanonicalText
  import opened Utf8
  import opened Base64
  import opened Dotted
  import opened S2SToken

  const TIMESTAMP_HEADER := "X-Webhook-Timestamp"
  const SIGNATURE_HEADER := "X-Webhook-Signature"
  const ALGORITHM_HEADER := "X-Webhook-Algorithm"
  const SIGNATURE_PREFIX := "mldsa65="

  function CanonicalBytes(payload: Json): Bytes {
    Encode(Dumps(false, payload))
  }

  function SignedBytes(payload: Json, timestamp: int): Bytes {
    Encode(Text(timestamp) + ".") + CanonicalBytes(payload)
  }

  // `signature` is what ML-DSA returns for SignedBytes(payload, timestamp).
  function Headers(timestamp: int, signature: Bytes): map<string, string> {
    map[TIMESTAMP_HEADER := Text(timestamp),
        SIGNATURE_HEADER := SIGNATURE_PREFIX + B64Encode(signature),
        ALGORITHM_HEADER := ALGORITHM]
  }

  function Distance(a: int, b: int): nat {
    if a < b then b - a else a - b
  }

  predicate VerifyWebhook(payload: Json, headers: map<string, string>, oracle: Oracle, now: int, tolerance: int) {
    if TIMESTAMP_HEADER !in headers || SIGNATURE_HEADER !in headers then false
    else
      match Decimals.Parse(headers[TIMESTAMP_HEADER])
      case None => false
      case Some(timestamp) =>
        if ALGORITHM_HEADER !in headers || headers[ALGORITHM_HEADER] != ALGORITHM then false
        else if Distance(now, timestamp) > tolerance then false
        else if !(SIGNATURE_PREFIX <= headers[SIGNATURE_HEADER]) then false
        else Accepts(oracle, SignedBytes(payload, timestamp), headers[SIGNATURE_HEADER][|SIGNATURE_PREFIX|..])
  }

  // ----- the headers and the rules, spelled out -----

  /**
   The headers carry the decimal timestamp, the prefixed base64 of the signature, and the algorithm; the bytes
   signed are the timestamp, a dot and the payload.
   */
  lemma HeadersSpelledOut(payload: Json, timestamp: int, signature: Bytes)
    ensures Headers(timestamp, signature)
         == map["X-Webhook-Timestamp" := Text(timestamp), "X-Webhook-Signature" := "mldsa65=" + B64Encode(signature),
                "X-Webhook-Algorithm" := "ML-DSA-65"]
    ensures IsValue(payload) ==>
              SignedBytes(payload, timestamp) == Encode(Text(timestamp) + "." + Plain(false, Sorted(payload)))
  {
    SignedAsText(payload, timestamp);
    if IsValue(payload) { DumpsIsPlain(false, payload); }
  }

  /**
   A webhook verifies if and only if all three headers are there, the timestamp is an integer within the
   tolerance of the clock, the algorithm is ML-DSA-65, and the signature after its prefix is strict base64 of
   one the key made for the timestamp and payload.
   */
  lemma VerifyMeaning(payload: Json, headers: map<string, string>, oracle: Oracle, now: int, tolerance: int)
    ensures VerifyWebhook(payload, headers, oracle, now, tolerance)
       <==> && "X-Webhook-Timestamp" in headers && "X-Webhook-Signature" in headers
            && "X-Webhook-Algorithm" in headers && headers["X-Webhook-Algorithm"] == "ML-DSA-65"
            && Decimals.Parse(headers["X-Webhook-Timestamp"]).Some?
            && var timestamp := Decimals.Parse(headers["X-Webhook-Timestamp"]).value;
               && -tolerance <= now - timestamp <= tolerance
               && "mldsa65=" <= headers["X-Webhook-Signature"]
               && B64Decode(true, headers["X-Webhook-Signature"][8..]).Some?
               && oracle(SignedBytes(payload, timestamp), B64Decode(true, headers["X-Webhook-Signature"][8..]).value)
  {
  }

  // ----- what the signed bytes determine -----

  lemma EncodeIsInjective(s: string, t: string)
    requires Encode(s) == Encode(t)
    ensures s == t
  {
    DecodeEncode(s);
    DecodeEncode(t);
  }

  lemma TextHasNoDot(n: int)
    ensures NoDot(Text(n))
  {
    var m: nat := if n < 0 then -n else n;
    ShownDigits(m, "");
    var digits: string :| digits != "" && ShowNat(m, "") == digits + "" && forall c :: c in digits ==> IsDigit(c);
    assert ShowNat(m, "") == digits;
    assert '.' !in digits;
  }

  lemma SignedAsText(payload: Json, timestamp: int)
    ensures SignedBytes(payload, timestamp) == Encode(Text(timestamp) + "." + Dumps(false, payload))
  {
    EncodeAppends(Text(timestamp) + ".", Dumps(false, payload));
  }

  /** The signed bytes determine the timestamp and, dict order aside, the payload. */
  lemma SignedBytesDetermine(p: Json, t: int, q: Json, u: int)
    requires IsValue(p) && IsValue(q)
    ensures SignedBytes(p, t) == SignedBytes(q, u) <==> t == u && Same(p, q)
  {
    DumpsIsCanonical(false, p, q);
    if SignedBytes(p, t) == SignedBytes(q, u) {
      SignedAsText(p, t);
      SignedAsText(q, u);
      EncodeIsInjective(Text(t) + "." + Dumps(false, p), Text(u) + "." + Dumps(false, q));
      TextHasNoDot(t);
      TextHasNoDot(u);
      FirstDotDecides(Text(t), Dumps(false, p), Text(u), Dumps(false, q));
      ParseText(t);
      ParseText(u);
    }
  }

  /**
   A signed payload, in any dict order, is accepted with its own headers exactly when the clock is
   within the tolerance of the signing time, in either direction.
   */
  lemma HonestWebhook(signed: Json, received: Json, timestamp: int, signature: Bytes, oracle: Oracle,
                      now: int, tolerance: int)
    requires IsValue(signed) && IsValue(received) && Same(signed, received)
    requires oracle(SignedBytes(signed, timestamp), signature)
    ensures VerifyWebhook(received, Headers(timestamp, signature), oracle, now, tolerance)
       <==> Distance(now, timestamp) <= tolerance
  {
    ParseText(timestamp);
    SignedBytesDetermine(signed, timestamp, received, timestamp);
    DecodeEncoded(true, signature);
    var text := SIGNATURE_PREFIX + B64Encode(signature);
    assert text[|SIGNATURE_PREFIX|..] == B64Encode(signature);
    assert Headers(timestamp, signature)[SIGNATURE_HEADER] == text;
  }
}
