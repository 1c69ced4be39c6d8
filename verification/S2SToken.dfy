/** Service tokens: `create_s2s_token` and `verify_s2s_token`, with the ML-DSA check as an oracle. */
module S2SToken {
  import opened Options
  import opened Decimals
  import opened Json
  import opened JsonText
  import opened Utf8
  import opened Base64
  import opened Dotted

  const ALGORITHM := "ML-DSA-65"
  const TOKEN_TYP := "JWT"

  // Whether the public key accepts these signature bytes for this message.
  type Oracle = (Bytes, Bytes) -> bool

  // MLDSASigner.verify: a signature that is not strict base64 is simply not valid.
  predicate Accepts(oracle: Oracle, message: Bytes, signature64: string) {
    match B64Decode(true, signature64)
    case None => false
    case Some(signature) => oracle(message, signature)
  }

  // ----- JSON segments -----

  function SegmentOf(v: Json): string {
    Unpad(UrlEncode(Encode(Dumps(true, v))))
  }

  function ReadSegment(s: string): Option<seq<Member>> {
    match UrlDecode(Pad(s))
    case None => None
    case Some(bytes) =>
      match Decode(bytes)
      case None => None
      case Some(text) =>
        match Loads(text)
        case Some(Obj(ms)) => Some(ms)
        case _ => None
  }

  lemma DumpsNotEmpty(v: Json)
    ensures Encode(Dumps(true, v)) != []
  {
    ShowOpens(true, Sorted(v), "");
    ScalarOfEncoded(Dumps(true, v)[0]);
  }

  lemma SegmentRoundTrip(ms: seq<Member>)
    requires IsValue(Obj(ms))
    ensures ReadSegment(SegmentOf(Obj(ms))) == Some(SortedMembers(ms))
    ensures SegmentOf(Obj(ms)) != "" && NoDot(SegmentOf(Obj(ms)))
  {
    var bytes := Encode(Dumps(true, Obj(ms)));
    UrlRoundTrip(bytes);
    DecodeEncode(Dumps(true, Obj(ms)));
    LoadsDumps(true, Obj(ms));
    DumpsNotEmpty(Obj(ms));
    UnpaddedIsUrlText(bytes);
  }

  // ----- create_s2s_token -----

  // `jti` is the one given, or the uuid4 text; `extra` lists the extra claims in dict order.
  datatype Request = Request(issuer: string, subject: string, audience: string, tenant: string,
                             ttl: int, now: int, jti: string, extra: seq<Member>)

  const HEADER := [Member("alg", Str(ALGORITHM)), Member("typ", Str(TOKEN_TYP))]

  const REQUIRED := ["iss", "sub", "aud", "iat", "exp", "jti", "tenant_id"]

  function BaseClaims(r: Request): seq<Member> {
    [Member("iss", Str(r.issuer)), Member("sub", Str(r.subject)), Member("aud", Str(r.audience)),
     Member("iat", Int(r.now)), Member("exp", Int(r.now + r.ttl)), Member("jti", Str(r.jti)),
     Member("tenant_id", Str(r.tenant))]
  }

  predicate Overlaps(r: Request) {
    exists i :: 0 <= i < |r.extra| && r.extra[i].key in REQUIRED
  }

  function Claims(r: Request): seq<Member> {
    BaseClaims(r) + r.extra
  }

  // The extra claims are a dict of JSON values that names no protected claim.
  ghost predicate Issuable(r: Request) {
    IsValue(Obj(r.extra)) && !Overlaps(r)
  }

  function SigningText(r: Request): string {
    SegmentOf(Obj(HEADER)) + "." + SegmentOf(Obj(Claims(r)))
  }

  function SigningBytes(r: Request): Bytes {
    Encode(SigningText(r))
  }

  // `signature` is what ML-DSA returns for SigningBytes(r); the signer hands it over in base64.
  function TokenText(r: Request, signature: Bytes): string {
    SigningText(r) + "." + Unpad(UrlEncode(signature))
  }

  lemma BaseKeys(r: Request)
    ensures DistinctKeys(BaseClaims(r))
    ensures forall i :: 0 <= i < 7 ==> BaseClaims(r)[i].key == REQUIRED[i]
    ensures |BaseClaims(r)| == |REQUIRED| == 7
  {
  }

  lemma ClaimsAreAValue(r: Request)
    requires Issuable(r)
    ensures IsValue(Obj(Claims(r)))
  {
    BaseKeys(r);
    var ms := Claims(r);
    forall i, j | 0 <= i < j < |ms|
      ensures ms[i].key != ms[j].key
    {
      if i < 7 <= j { assert ms[j] == r.extra[j - 7]; }
    }
    forall i | 0 <= i < |ms|
      ensures IsValue(ms[i].value)
    {
      if i >= 7 { assert ms[i] == r.extra[i - 7]; }
    }
  }

  method CreateS2SToken(r: Request, signature: Bytes) returns (token: Option<string>)
    requires IsValue(Obj(r.extra))
    ensures token == if Overlaps(r) then None else Some(TokenText(r, signature))
  {
    var payload := BaseClaims(r);
    if exists i :: 0 <= i < |r.extra| && r.extra[i].key in REQUIRED {
      return None;
    }
    BaseKeys(r);
    for i := 0 to |r.extra|
      invariant payload == BaseClaims(r) + r.extra[..i]
    {
      assert !HasKey(payload, r.extra[i].key);
      PutNewKey(payload, r.extra[i]);
      payload := Put(payload, r.extra[i]);
      assert BaseClaims(r) + r.extra[..i] + [r.extra[i]] == BaseClaims(r) + r.extra[..i + 1];
    }
    assert r.extra[..|r.extra|] == r.extra;
    var signingInput := SegmentOf(Obj(HEADER)) + "." + SegmentOf(Obj(payload));
    var signature64 := B64Encode(signature);
    DecodeEncoded(true, signature);
    var segment := Unpad(UrlEncode(B64Decode(true, signature64).value));
    token := Some(signingInput + "." + segment);
  }

  // ----- verify_s2s_token -----

  datatype TokenError =
    | BadFormat
    | BadHeader
    | UnsupportedHeader
    | BadPayload
    | BadSignatureEncoding
    | BadSignature
    | MissingClaims
    | BadExpiry
    | Expired
    | WrongAudience
    | WrongIssuer

  datatype Verdict = Accepted(claims: seq<Member>) | Rejected(error: TokenError)

  // int(value)
  function AsInt(v: Json): Option<int> {
    match v
    case Int(n) => Some(n)
    case Bool(b) => Some(if b then 1 else 0)
    case Str(s) => Decimals.Parse(s)
    case _ => None
  }

  predicate HasRequired(claims: seq<Member>) {
    forall i :: 0 <= i < |REQUIRED| ==> HasKey(claims, REQUIRED[i])
  }

  function CheckClaims(claims: seq<Member>, audience: string, issuers: set<string>, now: int): Verdict {
    if !HasRequired(claims) then Rejected(MissingClaims)
    else
      match AsInt(Get(claims, "exp").GetOr(Null))
      case None => Rejected(BadExpiry)
      case Some(expiresAt) =>
        if expiresAt <= now then Rejected(Expired)
        else if Get(claims, "aud") != Some(Str(audience)) then Rejected(WrongAudience)
        else
          match Get(claims, "iss")
          case Some(Str(issuer)) => if issuer in issuers then Accepted(claims) else Rejected(WrongIssuer)
          case _ => Rejected(WrongIssuer)
  }

  function Verify(token: string, oracle: Oracle, audience: string, issuers: set<string>, now: int): Verdict {
    var parts := Split(token);
    if |parts| != 3 || "" in parts then Rejected(BadFormat)
    else
      match ReadSegment(parts[0])
      case None => Rejected(BadHeader)
      case Some(header) =>
        if Get(header, "alg") != Some(Str(ALGORITHM)) || Get(header, "typ") != Some(Str(TOKEN_TYP))
        then Rejected(UnsupportedHeader)
        else
          match ReadSegment(parts[1])
          case None => Rejected(BadPayload)
          case Some(claims) =>
            match UrlDecode(Pad(parts[2]))
            case None => Rejected(BadSignatureEncoding)
            case Some(signature) =>
              if !Accepts(oracle, Encode(parts[0] + "." + parts[1]), B64Encode(signature)) then Rejected(BadSignature)
              else CheckClaims(claims, audience, issuers, now)
  }

  // ----- a token just issued -----

  lemma SplitThree(h: string, p: string, s: string)
    requires NoDot(h) && NoDot(p) && NoDot(s)
    ensures Split(h + "." + p + "." + s) == [h, p, s]
  {
    assert h + "." + p + "." + s == h + "." + (p + "." + s);
    SplitFirst(h, p + "." + s);
    SplitFirst(p, s);
    SplitWhole(s);
  }

  lemma TokenParts(r: Request, signature: Bytes)
    requires Issuable(r) && signature != []
    ensures Split(TokenText(r, signature))
         == [SegmentOf(Obj(HEADER)), SegmentOf(Obj(Claims(r))), Unpad(UrlEncode(signature))]
    ensures "" !in Split(TokenText(r, signature))
  {
    var h, p, s := SegmentOf(Obj(HEADER)), SegmentOf(Obj(Claims(r))), Unpad(UrlEncode(signature));
    HeaderReads();
    ClaimsAreAValue(r);
    SegmentRoundTrip(Claims(r));
    UnpaddedIsUrlText(signature);
    assert TokenText(r, signature) == h + "." + p + "." + s;
    SplitThree(h, p, s);
  }

  lemma HeaderReads()
    ensures ReadSegment(SegmentOf(Obj(HEADER))) == Some(SortedMembers(HEADER))
    ensures SegmentOf(Obj(HEADER)) != "" && NoDot(SegmentOf(Obj(HEADER)))
    ensures Get(SortedMembers(HEADER), "alg") == Some(Str(ALGORITHM))
    ensures Get(SortedMembers(HEADER), "typ") == Some(Str(TOKEN_TYP))
  {
    assert DistinctKeys(HEADER);
    assert IsValue(Obj(HEADER));
    SegmentRoundTrip(HEADER);
    assert Get(HEADER, "alg") == Some(Str(ALGORITHM));
    assert Get(HEADER, "typ") == Some(Str(TOKEN_TYP)) by { assert HEADER[1..][0].key == "typ"; }
    GetFromSorted(HEADER, "alg");
    GetFromSorted(HEADER, "typ");
  }

  lemma ClaimReads(r: Request, i: nat)
    requires Issuable(r) && i < 7
    ensures Get(SortedMembers(Claims(r)), REQUIRED[i]) == Some(BaseClaims(r)[i].value)
  {
    BaseKeys(r);
    ClaimsAreAValue(r);
    assert Claims(r)[i] == BaseClaims(r)[i];
    assert Member(REQUIRED[i], BaseClaims(r)[i].value) in Claims(r);
    GetFinds(Claims(r), REQUIRED[i], BaseClaims(r)[i].value);
    GetFromSorted(Claims(r), REQUIRED[i]);
  }

  // What the claim checks make of an issued token's claims.
  lemma IssuedClaimsCheck(r: Request, audience: string, issuers: set<string>, now: int)
    requires Issuable(r)
    ensures CheckClaims(SortedMembers(Claims(r)), audience, issuers, now)
         == if r.now + r.ttl <= now then Rejected(Expired)
            else if r.audience != audience then Rejected(WrongAudience)
            else if r.issuer !in issuers then Rejected(WrongIssuer)
            else Accepted(SortedMembers(Claims(r)))
  {
    var claims := SortedMembers(Claims(r));
    ClaimsAreAValue(r);
    forall i | 0 <= i < |REQUIRED|
      ensures HasKey(claims, REQUIRED[i])
    {
      BaseKeys(r);
      assert Claims(r)[i].key == REQUIRED[i];
      SortedKeepsKeys(Claims(r), REQUIRED[i]);
    }
    ClaimReads(r, 4);
    ClaimReads(r, 2);
    ClaimReads(r, 0);
  }

  /**
   Verifying a freshly created token gives back its claims, the extra ones included, exactly when it has
   not expired, the audience is the one asked for and the issuer is allowed; otherwise it is rejected,
   with the first of these reasons that applies.
   */
  lemma FreshToken(r: Request, signature: Bytes, oracle: Oracle, audience: string, issuers: set<string>, now: int)
    requires Issuable(r) && signature != []
    requires oracle(SigningBytes(r), signature)
    ensures Verify(TokenText(r, signature), oracle, audience, issuers, now)
         == if r.now + r.ttl <= now then Rejected(Expired)
            else if r.audience != audience then Rejected(WrongAudience)
            else if r.issuer !in issuers then Rejected(WrongIssuer)
            else Accepted(SortedMembers(Claims(r)))
    ensures Same(Obj(Claims(r)), Obj(SortedMembers(Claims(r))))
  {
    TokenParts(r, signature);
    HeaderReads();
    ClaimsAreAValue(r);
    SegmentRoundTrip(Claims(r));
    UrlRoundTrip(signature);
    DecodeEncoded(true, signature);
    IssuedClaimsCheck(r, audience, issuers, now);
    SortedIsSame(Obj(Claims(r)));
  }

  /** What a fresh token's claims say: each of the seven is the request's own, and every extra claim is there. */
  lemma ClaimsMeaning(r: Request)
    requires Issuable(r)
    ensures var claims := SortedMembers(Claims(r));
            && Get(claims, "iss") == Some(Str(r.issuer)) && Get(claims, "sub") == Some(Str(r.subject))
            && Get(claims, "aud") == Some(Str(r.audience)) && Get(claims, "tenant_id") == Some(Str(r.tenant))
            && Get(claims, "iat") == Some(Int(r.now)) && Get(claims, "exp") == Some(Int(r.now + r.ttl))
            && Get(claims, "jti") == Some(Str(r.jti))
            && (forall i :: 0 <= i < |r.extra| ==> Get(claims, r.extra[i].key) == Some(Sorted(r.extra[i].value)))
            && |claims| == 7 + |r.extra|
  {
    ClaimReads(r, 0);
    ClaimReads(r, 1);
    ClaimReads(r, 2);
    ClaimReads(r, 3);
    ClaimReads(r, 4);
    ClaimReads(r, 5);
    ClaimReads(r, 6);
    forall i | 0 <= i < |r.extra|
      ensures Get(SortedMembers(Claims(r)), r.extra[i].key) == Some(Sorted(r.extra[i].value))
    {
      ExtraReads(r, i);
    }
    SortedMembersHold(Claims(r));
  }

  lemma ExtraReads(r: Request, i: nat)
    requires Issuable(r) && i < |r.extra|
    ensures Get(SortedMembers(Claims(r)), r.extra[i].key) == Some(Sorted(r.extra[i].value))
  {
    ClaimsAreAValue(r);
    assert Claims(r)[7 + i] == r.extra[i];
    GetFinds(Claims(r), r.extra[i].key, r.extra[i].value);
    GetFromSorted(Claims(r), r.extra[i].key);
  }

  // The three segments of a token.
  ghost predicate IsToken(token: string, a: string, b: string, c: string) {
    token == a + "." + b + "." + c && NoDot(a) && NoDot(b) && NoDot(c) && a != "" && b != "" && c != ""
  }

  /** A text has three dot-separated segments, none empty, if and only if splitting it yields them. */
  lemma TokenShape(token: string, a: string, b: string, c: string)
    ensures IsToken(token, a, b, c) <==> Split(token) == [a, b, c] && "" !in Split(token)
  {
    if IsToken(token, a, b, c) { SplitThree(a, b, c); }
    if Split(token) == [a, b, c] {
      JoinSplit(token);
      JoinThree(a, b, c);
      PartsHaveNoDot(token, 0);
      PartsHaveNoDot(token, 1);
      PartsHaveNoDot(token, 2);
      if "" !in Split(token) { assert a in Split(token) && b in Split(token) && c in Split(token); }
    }
  }

  ghost predicate HeaderSays(segment: string) {
    && ReadSegment(segment).Some?
    && Get(ReadSegment(segment).value, "alg") == Some(Str("ML-DSA-65"))
    && Get(ReadSegment(segment).value, "typ") == Some(Str("JWT"))
  }

  ghost predicate ClaimsSay(claims: seq<Member>, audience: string, issuers: set<string>, now: int) {
    && HasKey(claims, "iss") && HasKey(claims, "sub") && HasKey(claims, "aud") && HasKey(claims, "iat")
    && HasKey(claims, "exp") && HasKey(claims, "jti") && HasKey(claims, "tenant_id")
    && AsInt(Get(claims, "exp").GetOr(Null)).Some? && AsInt(Get(claims, "exp").GetOr(Null)).value > now
    && Get(claims, "aud") == Some(Str(audience))
    && exists issuer :: issuer in issuers && Get(claims, "iss") == Some(Str(issuer))
  }

  /**
   A token is accepted if and only if it has three segments, its header names ML-DSA-65 and JWT, its signature
   is one the key made for the first two, all seven claims are there, it expires later than now, and audience
   and issuer are the ones asked for; the claims returned are those of its second segment.
   */
  lemma AcceptedMeans(token: string, a: string, b: string, c: string, oracle: Oracle, audience: string,
                      issuers: set<string>, now: int, claims: seq<Member>)
    requires IsToken(token, a, b, c)
    ensures Verify(token, oracle, audience, issuers, now) == Accepted(claims)
       <==> && HeaderSays(a) && ReadSegment(b) == Some(claims)
            && UrlDecode(Pad(c)).Some? && oracle(Encode(a + "." + b), UrlDecode(Pad(c)).value)
            && ClaimsSay(claims, audience, issuers, now)
  {
    TokenShape(token, a, b, c);
    if UrlDecode(Pad(c)).Some? { DecodeEncoded(true, UrlDecode(Pad(c)).value); }
    if ReadSegment(b) == Some(claims) { ClaimsCheckMeaning(claims, audience, issuers, now); }
  }

  lemma ClaimsCheckMeaning(claims: seq<Member>, audience: string, issuers: set<string>, now: int)
    ensures CheckClaims(claims, audience, issuers, now).Accepted? ==>
              CheckClaims(claims, audience, issuers, now) == Accepted(claims)
    ensures CheckClaims(claims, audience, issuers, now).Accepted? <==> ClaimsSay(claims, audience, issuers, now)
  {
    RequiredMeaning(claims);
  }

  lemma RequiredMeaning(claims: seq<Member>)
    ensures HasRequired(claims)
       <==> && HasKey(claims, "iss") && HasKey(claims, "sub") && HasKey(claims, "aud") && HasKey(claims, "iat")
            && HasKey(claims, "exp") && HasKey(claims, "jti") && HasKey(claims, "tenant_id")
  {
    if HasRequired(claims) {
      assert HasKey(claims, REQUIRED[0]) && HasKey(claims, REQUIRED[1]) && HasKey(claims, REQUIRED[2])
             && HasKey(claims, REQUIRED[3]) && HasKey(claims, REQUIRED[4]) && HasKey(claims, REQUIRED[5])
             && HasKey(claims, REQUIRED[6]);
    }
  }

  /** The standard base64 of a signature survives the trip through the token's url-safe form. */
  lemma SignatureConversion(signature: Bytes)
    ensures B64Decode(true, B64Encode(signature)) == Some(signature)
    ensures var segment := Unpad(UrlEncode(signature));
            UrlDecode(Pad(segment)).Some? && B64Encode(UrlDecode(Pad(segment)).value) == B64Encode(signature)
  {
    DecodeEncoded(true, signature);
    UrlRoundTrip(signature);
  }
}
