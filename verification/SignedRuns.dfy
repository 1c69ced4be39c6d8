/**
 Authenticity over whole runs. The signing key is used for any number of tokens and webhooks, in
 any order; verification is ideal: it accepts every signature the key made, and nothing for a
 message the key never signed.
 */
module SignedRuns {
  import opened Options
  import opened Decimals
  import opened Json
  import opened JsonText
  import opened Utf8
  import opened Base64
  import opened Dotted
  import opened S2SToken
  import opened WebhookSignature

  // One use of the key, with the signature it produced.
  datatype Signing =
    | IssueToken(request: Request, signature: Bytes)
    | SignWebhook(payload: Json, timestamp: int, signature: Bytes)

  function Message(a: Signing): Bytes {
    match a
    case IssueToken(r, _) => SigningBytes(r)
    case SignWebhook(p, t, _) => SignedBytes(p, t)
  }

  // A refused token request signs nothing, so a log holds only issuable ones.
  ghost predicate Possible(log: seq<Signing>) {
    forall i :: 0 <= i < |log| ==>
      match log[i]
      case IssueToken(r, signature) => Issuable(r) && signature != []
      case SignWebhook(p, _, _) => IsValue(p)
  }

  ghost predicate Ideal(oracle: Oracle, log: seq<Signing>) {
    && (forall i :: 0 <= i < |log| ==> oracle(Message(log[i]), log[i].signature))
    && (forall m, s :: oracle(m, s) ==> exists i :: 0 <= i < |log| && Message(log[i]) == m)
  }

  // The signature scheme that accepts just what the log holds.
  ghost function LogOracle(log: seq<Signing>): Oracle {
    (message, signature) => exists i :: 0 <= i < |log| && Message(log[i]) == message && log[i].signature == signature
  }

  /** For every log there is an ideal signature scheme. */
  lemma LogOracleIsIdeal(log: seq<Signing>)
    ensures Ideal(LogOracle(log), log)
  {
  }

  // ----- the two kinds of message never meet -----

  lemma {:induction false} UnpadIsPrefix(s: string)
    ensures Unpad(s) <= s
  {
    if s != "" && s[|s| - 1] == '=' { UnpadIsPrefix(s[..|s| - 1]); }
  }

  // '{' is 0x7B, and its upper six bits are 30.
  lemma HeaderStartsWithE()
    ensures var h := SegmentOf(Obj(HEADER)); h != "" && h[0] == 'e'
  {
    HeaderReads();
    var text := Dumps(true, Obj(HEADER));
    assert text[0] == '{';
    var bytes := Encode(text);
    assert bytes[0] == 0x7B;
    assert B64Encode(bytes)[0] == Symbol(0x7B / 4) == 'e';
    UnpadIsPrefix(UrlEncode(bytes));
  }

  lemma FirstByte(s: string)
    requires s != "" && s[0] as int < 0x80
    ensures Encode(s) != [] && Encode(s)[0] == s[0] as int
  {
  }

  /** No webhook's signed bytes are ever a token's signing input, even under one key. */
  lemma WebhookIsNoToken(payload: Json, timestamp: int, r: Request)
    ensures SignedBytes(payload, timestamp) != SigningBytes(r)
  {
    HeaderStartsWithE();
    FirstByte(SigningText(r));
    var m: nat := if timestamp < 0 then -timestamp else timestamp;
    ShownStart(m, "");
    FirstByte(Text(timestamp) + "." + Dumps(false, payload));
    SignedAsText(payload, timestamp);
  }

  // ----- a webhook's timestamp is no token header -----

  lemma DigitsScan(s: string)
    requires s != "" && Value(s[0]).Some? && Value(s[0]).value >= 52
    requires |s| >= 2 ==> Value(s[1]).Some? || s[1..] == "==="
    requires |s| >= 2
    ensures var r := Scan(false, s, 0, 0, 0); r.Some? ==> r.value != [] && r.value[0] >= 208
  {
    var n: nat := Value(s[0]).value;
    if Value(s[1]).Some? {
      assert s[1..][0] == s[1];
    } else {
      assert "==="[1..] == "==" && "=="[1..] == "=" && "="[1..] == "";
      assert Scan(false, "", 1, n, 0) == None;
      assert Scan(false, "=", 1, n, 0) == None;
      assert Scan(false, "==", 1, n, 0) == None;
    }
  }

  lemma HighCharIsNoJson(text: string)
    requires text != "" && text[0] as int >= 0x80
    ensures Loads(text) == None
  {
    assert SkipBlanks(text) == text;
  }

  lemma HighByteIsNoJson(bytes: Bytes, text: string)
    requires bytes != [] && bytes[0] >= 208 && Decode(bytes) == Some(text)
    ensures Loads(text) == None
  {
    assert Encode(text) == bytes by { EncodeDecode(bytes, text); }
    assert text != "";
    if text[0] as int < 0x80 {
      FirstByte(text);
    } else {
      HighCharIsNoJson(text);
    }
  }

  /** Base64 of digits starts with a byte that starts no JSON text, so a timestamp never reads as a header. */
  lemma TimestampIsNoHeader(timestamp: int)
    ensures ReadSegment(Text(timestamp)) == None
  {
    var s := Text(timestamp);
    var m: nat := if timestamp < 0 then -timestamp else timestamp;
    ShownDigits(m, "");
    var digits: string :| digits != "" && ShowNat(m, "") == digits + "" && forall c :: c in digits ==> IsDigit(c);
    assert ShowNat(m, "") == digits;
    assert digits[0] in digits;
    var padded := Map(FromUrl, Pad(s));
    assert padded[0] == FromUrl(s[0]);
    if |s| == 1 {
      assert Pad(s) == s + Fill(3);
      assert padded[1..] == "===";
    } else {
      assert padded[1] == FromUrl(s[1]);
      assert timestamp >= 0 ==> s[1] in digits;
    }
    DigitsScan(padded);
    match UrlDecode(Pad(s))
    case None =>
    case Some(bytes) =>
      match Decode(bytes)
      case None =>
      case Some(text) => HighByteIsNoJson(bytes, text);
  }

  // ----- tokens -----

  lemma SameSigningText(a: string, b: string, r: Request)
    requires NoDot(a) && NoDot(b) && Issuable(r)
    requires Encode(a + "." + b) == SigningBytes(r)
    ensures a == SegmentOf(Obj(HEADER)) && b == SegmentOf(Obj(Claims(r)))
  {
    EncodeIsInjective(a + "." + b, SigningText(r));
    HeaderReads();
    FirstDotDecides(a, b, SegmentOf(Obj(HEADER)), SegmentOf(Obj(Claims(r))));
  }

  lemma WebhookHasNoHeader(a: string, b: string, payload: Json, timestamp: int)
    requires NoDot(a)
    requires Encode(a + "." + b) == SignedBytes(payload, timestamp)
    ensures ReadSegment(a) == None
  {
    SignedAsText(payload, timestamp);
    EncodeIsInjective(a + "." + b, Text(timestamp) + "." + Dumps(false, payload));
    TextHasNoDot(timestamp);
    FirstDotDecides(a, b, Text(timestamp), Dumps(false, payload));
    TimestampIsNoHeader(timestamp);
  }

  lemma IssuedSegments(a: string, b: string, r: Request, claims: seq<Member>, audience: string,
                       issuers: set<string>, now: int)
    requires NoDot(a) && NoDot(b) && Issuable(r) && Encode(a + "." + b) == SigningBytes(r)
    requires ReadSegment(b) == Some(claims) && CheckClaims(claims, audience, issuers, now) == Accepted(claims)
    ensures claims == SortedMembers(Claims(r)) && Same(Obj(Claims(r)), Obj(claims))
    ensures now < r.now + r.ttl && r.audience == audience && r.issuer in issuers
  {
    SameSigningText(a, b, r);
    ClaimsAreAValue(r);
    SegmentRoundTrip(Claims(r));
    IssuedClaimsCheck(r, audience, issuers, now);
    SortedIsSame(Obj(Claims(r)));
  }

  lemma AcceptedParts(token: string, oracle: Oracle, audience: string, issuers: set<string>, now: int,
                      claims: seq<Member>)
      returns (a: string, b: string, signature: Bytes)
    requires Verify(token, oracle, audience, issuers, now) == Accepted(claims)
    ensures NoDot(a) && NoDot(b) && ReadSegment(a).Some? && ReadSegment(b) == Some(claims)
    ensures oracle(Encode(a + "." + b), signature)
    ensures CheckClaims(claims, audience, issuers, now) == Accepted(claims)
  {
    var parts := Split(token);
    PartsHaveNoDot(token, 0);
    PartsHaveNoDot(token, 1);
    a, b, signature := parts[0], parts[1], UrlDecode(Pad(parts[2])).value;
    DecodeEncoded(true, signature);
  }

  // The request stands in the log and its claims pass the checks.
  ghost predicate IssuedFor(log: seq<Signing>, i: int, claims: seq<Member>, audience: string,
                            issuers: set<string>, now: int) {
    && 0 <= i < |log| && log[i].IssueToken?
    && claims == SortedMembers(Claims(log[i].request))
    && Same(Obj(Claims(log[i].request)), Obj(claims))
    && now < log[i].request.now + log[i].request.ttl
    && log[i].request.audience == audience && log[i].request.issuer in issuers
  }

  /**
   Every token that verifies carries exactly the claims of one request the key issued a token for,
   and those are unexpired, for the expected audience and from an allowed issuer.
   */
  lemma TokensAreAuthentic(log: seq<Signing>, oracle: Oracle, token: string, audience: string,
                           issuers: set<string>, now: int, claims: seq<Member>)
    requires Possible(log) && Ideal(oracle, log)
    requires Verify(token, oracle, audience, issuers, now) == Accepted(claims)
    ensures exists i :: IssuedFor(log, i, claims, audience, issuers, now)
  {
    var a, b, signature := AcceptedParts(token, oracle, audience, issuers, now, claims);
    var i :| 0 <= i < |log| && Message(log[i]) == Encode(a + "." + b);
    match log[i]
    case SignWebhook(p, t, _) => WebhookHasNoHeader(a, b, p, t);
    case IssueToken(r, _) =>
      IssuedSegments(a, b, r, claims, audience, issuers, now);
      assert IssuedFor(log, i, claims, audience, issuers, now);
  }

  // ----- webhooks -----

  lemma AcceptedWebhook(payload: Json, headers: map<string, string>, oracle: Oracle, now: int, tolerance: int)
      returns (timestamp: int, signature: Bytes)
    requires VerifyWebhook(payload, headers, oracle, now, tolerance)
    ensures TIMESTAMP_HEADER in headers && Decimals.Parse(headers[TIMESTAMP_HEADER]) == Some(timestamp)
    ensures Distance(now, timestamp) <= tolerance && oracle(SignedBytes(payload, timestamp), signature)
  {
    timestamp := Decimals.Parse(headers[TIMESTAMP_HEADER]).value;
    signature := B64Decode(true, headers[SIGNATURE_HEADER][|SIGNATURE_PREFIX|..]).value;
  }

  ghost predicate SignedFor(log: seq<Signing>, i: int, payload: Json, timestamp: int) {
    0 <= i < |log| && log[i].SignWebhook? && Same(log[i].payload, payload) && log[i].timestamp == timestamp
  }

  /**
   Every webhook that verifies was signed: the timestamp of its header, within the tolerance of the
   clock, and the same payload but for dict order.
   */
  lemma WebhooksAreAuthentic(log: seq<Signing>, oracle: Oracle, payload: Json, headers: map<string, string>,
                             now: int, tolerance: int)
    requires Possible(log) && Ideal(oracle, log) && IsValue(payload)
    requires VerifyWebhook(payload, headers, oracle, now, tolerance)
    ensures TIMESTAMP_HEADER in headers
    ensures exists i, timestamp ::
              Decimals.Parse(headers[TIMESTAMP_HEADER]) == Some(timestamp)
              && Distance(now, timestamp) <= tolerance && SignedFor(log, i, payload, timestamp)
  {
    var timestamp, signature := AcceptedWebhook(payload, headers, oracle, now, tolerance);
    var i :| 0 <= i < |log| && Message(log[i]) == SignedBytes(payload, timestamp);
    match log[i]
    case IssueToken(r, _) => WebhookIsNoToken(payload, timestamp, r);
    case SignWebhook(p, t, _) =>
      SignedBytesDetermine(p, t, payload, timestamp);
      assert SignedFor(log, i, payload, timestamp);
  }
}
