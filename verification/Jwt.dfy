/** Compact HS256 tokens: creation and verification (RFC 7515 section 3.1, RFC 7519 section 4.1). */
module Jwt {
  import opened Text
  import opened Base64Url

  datatype Json =
    | JStr(s: string) | JNum(n: int) | JBool(b: bool) | JNull | JList(items: seq<Json>) | JObject(m: map<string, Json>)

  type Claims = map<string, Json>

  /**
   What the host provides: the MAC, the UTF-8 encoder, the JSON encoder and decoder (None is an
   exception) and the conversion to an integer (None is an exception). All of them are arbitrary.
   */
  datatype Host = Host(
    hmac: (seq<Byte>, seq<Byte>) -> seq<Byte>,
    utf8: string -> seq<Byte>,
    dumps: Claims -> seq<Byte>,
    loads: seq<Byte> -> Option<Json>,
    toInt: Json -> Option<int>
  )

  datatype Verifier = Verifier(secret: string, issuer: Option<string>, audience: Option<string>)

  /** The verifier returns the claims, returns nothing, or raises. */
  datatype Verification = Accepted(claims: Claims) | Rejected | Raised

  const HEADER: Claims := map["alg" := JStr("HS256"), "typ" := JStr("JWT")]

  function Get(m: Claims, key: string): Json {
    if key in m then m[key] else JNull
  }

  function DecodeJson(host: Host, segment: string): Option<Claims> {
    match Decode(segment)
    case None => None
    case Some(raw) =>
      match host.loads(raw)
      case Some(JObject(m)) => Some(m)
      case _ => None
  }

  function Signature(host: Host, secret: string, header: string, payload: string): string {
    Encode(host.hmac(host.utf8(secret), host.utf8(header + ['.'] + payload)))
  }

  predicate IsAscii(s: string) {
    forall i :: 0 <= i < |s| ==> s[i] < 128 as char
  }

  // ----- the claims

  function TimeCheck(host: Host, claims: Claims, now: int): Verification {
    if "exp" in claims && host.toInt(claims["exp"]).None? then Raised
    else if "exp" in claims && now >= host.toInt(claims["exp"]).value then Rejected
    else if "nbf" in claims && host.toInt(claims["nbf"]).None? then Raised
    else if "nbf" in claims && now < host.toInt(claims["nbf"]).value then Rejected
    else Accepted(claims)
  }

  predicate IssuerOk(v: Verifier, claims: Claims) {
    v.issuer.Some? ==> Get(claims, "iss") == JStr(v.issuer.value)
  }

  predicate AudienceOk(v: Verifier, claims: Claims) {
    v.audience.Some? ==>
      var aud := Get(claims, "aud");
      if aud.JList? then JStr(v.audience.value) in aud.items else aud == JStr(v.audience.value)
  }

  function CheckClaims(host: Host, v: Verifier, claims: Claims, now: int): Verification {
    var t := TimeCheck(host, claims, now);
    if !t.Accepted? then t
    else if !IssuerOk(v, claims) then Rejected
    else if !AudienceOk(v, claims) then Rejected
    else Accepted(claims)
  }

  // ----- tokens

  function VerifyParts(host: Host, v: Verifier, header: string, payload: string, signature: string,
          now: int): Verification {
    match DecodeJson(host, header)
    case None => Raised
    case Some(h) =>
      if Get(h, "alg") != JStr("HS256") then Rejected
      else if !IsAscii(signature) then Raised
      else if Signature(host, v.secret, header, payload) != signature then Rejected
      else
        match DecodeJson(host, payload)
        case None => Raised
        case Some(claims) => CheckClaims(host, v, claims, now)
  }

  function Verify(host: Host, v: Verifier, token: string, now: int): Verification {
    var parts := Split(token, '.');
    if |parts| != 3 then Rejected
    else VerifyParts(host, v, parts[0], parts[1], parts[2], now)
  }

  function Token(header: string, payload: string, signature: string): string {
    header + ['.'] + payload + ['.'] + signature
  }

  function Create(host: Host, claims: Claims, secret: string): string {
    var header := Encode(host.dumps(HEADER));
    var payload := Encode(host.dumps(claims));
    Token(header, payload, Signature(host, secret, header, payload))
  }

  /** The JSON decoder gives back what the encoder was given. */
  predicate RoundTrips(host: Host, m: Claims) {
    host.loads(host.dumps(m)) == Some(JObject(m))
  }

  // ----- what is accepted

  /** The acceptance window [nbf, exp) of the claims, which must be readable as integers where present. */
  predicate InWindow(host: Host, claims: Claims, now: int) {
    && ("exp" in claims ==> host.toInt(claims["exp"]).Some? && now < host.toInt(claims["exp"]).value)
    && ("nbf" in claims ==> host.toInt(claims["nbf"]).Some? && host.toInt(claims["nbf"]).value <= now)
  }

  lemma JoinThree(a: string, b: string, c: string)
    ensures Join([a, b, c], '.') == Token(a, b, c)
  {
    assert [a, b, c][1..] == [b, c] && [b, c][1..] == [c];
    assert Join([b, c], '.') == b + ['.'] + c;
    assert a + ['.'] + (b + ['.'] + c) == Token(a, b, c);
  }

  lemma SplitToken(header: string, payload: string, signature: string)
    requires '.' !in header && '.' !in payload && '.' !in signature
    ensures Split(Token(header, payload, signature), '.') == [header, payload, signature]
  {
    var parts := [header, payload, signature];
    SplitOfJoin(parts, '.');
    JoinThree(header, payload, signature);
  }

  lemma TokenOfSplit(token: string)
    requires |Split(token, '.')| == 3
    ensures var p := Split(token, '.'); token == Token(p[0], p[1], p[2])
  {
    var p := Split(token, '.');
    JoinOfSplit(token, '.');
    assert p == [p[0], p[1], p[2]];
    JoinThree(p[0], p[1], p[2]);
  }

  lemma CheckClaimsAccepts(host: Host, v: Verifier, claims: Claims, now: int)
    ensures CheckClaims(host, v, claims, now) == Accepted(claims)
            <==> InWindow(host, claims, now) && IssuerOk(v, claims) && AudienceOk(v, claims)
    ensures CheckClaims(host, v, claims, now).Accepted? ==> CheckClaims(host, v, claims, now).claims == claims
  {}

  lemma EncodedSegment(host: Host, m: Claims)
    requires RoundTrips(host, m)
    ensures DecodeJson(host, Encode(host.dumps(m))) == Some(m)
  {
    DecodeInvertsEncode(host.dumps(m));
  }

  /** Verifying a token created from these claims leaves three things to check: the MAC, the window, the parties. */
  lemma CreatedParts(host: Host, v: Verifier, claims: Claims, secret: string, now: int)
    requires RoundTrips(host, HEADER) && RoundTrips(host, claims)
    ensures var header := Encode(host.dumps(HEADER));
            var payload := Encode(host.dumps(claims));
            Verify(host, v, Create(host, claims, secret), now) ==
              if Signature(host, v.secret, header, payload) != Signature(host, secret, header, payload) then Rejected
              else CheckClaims(host, v, claims, now)
  {
    var header := Encode(host.dumps(HEADER));
    var payload := Encode(host.dumps(claims));
    var signature := Signature(host, secret, header, payload);
    hide Encode, Decode, CheckClaims, Split;
    EncodeIsClean(host.dumps(HEADER));
    EncodeIsClean(host.dumps(claims));
    EncodeIsClean(host.hmac(host.utf8(secret), host.utf8(header + ['.'] + payload)));
    SplitToken(header, payload, signature);
    EncodedSegment(host, HEADER);
    EncodedSegment(host, claims);
  }

  /**
   A created token is verified to its own claims exactly when the verifier computes the same MAC, now
   lies in the window [nbf, exp), and issuer and audience match.
   */
  lemma CreatedTokenAccepted(host: Host, v: Verifier, claims: Claims, secret: string, now: int)
    requires RoundTrips(host, HEADER) && RoundTrips(host, claims)
    ensures var message := host.utf8(Encode(host.dumps(HEADER)) + ['.'] + Encode(host.dumps(claims)));
            Verify(host, v, Create(host, claims, secret), now) == Accepted(claims) <==>
              && host.hmac(host.utf8(v.secret), message) == host.hmac(host.utf8(secret), message)
              && InWindow(host, claims, now) && IssuerOk(v, claims) && AudienceOk(v, claims)
  {
    var header := Encode(host.dumps(HEADER));
    var payload := Encode(host.dumps(claims));
    var message := host.utf8(header + ['.'] + payload);
    hide Encode, Verify, Create, CheckClaims, InWindow;
    CreatedParts(host, v, claims, secret, now);
    CheckClaimsAccepts(host, v, claims, now);
    if Signature(host, v.secret, header, payload) == Signature(host, secret, header, payload) {
      EncodeIsInjective(host.hmac(host.utf8(v.secret), message), host.hmac(host.utf8(secret), message));
    }
  }

  /** Exactly which tokens are accepted, and with which claims. */
  lemma AcceptedTokens(host: Host, v: Verifier, token: string, now: int, claims: Claims)
    ensures Verify(host, v, token, now) == Accepted(claims) <==>
            exists header, payload ::
              && '.' !in header && '.' !in payload
              && token == Token(header, payload, Signature(host, v.secret, header, payload))
              && DecodeJson(host, header).Some? && Get(DecodeJson(host, header).value, "alg") == JStr("HS256")
              && DecodeJson(host, payload) == Some(claims)
              && InWindow(host, claims, now) && IssuerOk(v, claims) && AudienceOk(v, claims)
  {
    hide Encode, Decode, CheckClaims, InWindow, DecodeJson, Split, Token, IssuerOk, AudienceOk;
    if Verify(host, v, token, now) == Accepted(claims) {
      TokenOfSplit(token);
      var p := Split(token, '.');
      assert p[0] in p && p[1] in p;
      CheckClaimsAccepts(host, v, DecodeJson(host, p[1]).value, now);
      assert token == Token(p[0], p[1], Signature(host, v.secret, p[0], p[1]));
    }
    forall header, payload | '.' !in header && '.' !in payload
        && token == Token(header, payload, Signature(host, v.secret, header, payload))
        && DecodeJson(host, header).Some? && Get(DecodeJson(host, header).value, "alg") == JStr("HS256")
        && DecodeJson(host, payload) == Some(claims)
        && InWindow(host, claims, now) && IssuerOk(v, claims) && AudienceOk(v, claims)
      ensures Verify(host, v, token, now) == Accepted(claims)
    {
      EncodeIsClean(host.hmac(host.utf8(v.secret), host.utf8(header + ['.'] + payload)));
      SplitToken(header, payload, Signature(host, v.secret, header, payload));
      CheckClaimsAccepts(host, v, claims, now);
    }
  }

  /** For a fixed secret, header segment and payload segment at most one signature segment is accepted. */
  lemma SignatureIsUnique(host: Host, v: Verifier, header: string, payload: string, s1: string, s2: string, t1: int,
          t2: int)
    requires '.' !in header && '.' !in payload && '.' !in s1 && '.' !in s2
    requires Verify(host, v, Token(header, payload, s1), t1).Accepted?
    requires Verify(host, v, Token(header, payload, s2), t2).Accepted?
    ensures s1 == s2
  {
    hide Signature, DecodeJson, CheckClaims, Split, Token;
    SplitToken(header, payload, s1);
    SplitToken(header, payload, s2);
  }

  /** The times at which a token is accepted form an interval, with the same claims throughout. */
  lemma AcceptanceIsInterval(host: Host, v: Verifier, token: string, t1: int, t: int, t2: int)
    requires t1 <= t <= t2
    requires Verify(host, v, token, t1).Accepted? && Verify(host, v, token, t2).Accepted?
    ensures Verify(host, v, token, t) == Verify(host, v, token, t1) == Verify(host, v, token, t2)
  {
    hide Signature, DecodeJson, Split;
  }

  // ----- what is rejected, and what raises

  /** An unreadable expiry raises; an unreadable start does too, unless the token has expired anyway. */
  lemma TimeExactly(host: Host, claims: Claims, now: int)
    ensures var exp := if "exp" in claims then Some(host.toInt(claims["exp"])) else None;
            var nbf := if "nbf" in claims then Some(host.toInt(claims["nbf"])) else None;
            var expired := exp.Some? && exp.value.Some? && exp.value.value <= now;
            var early := nbf.Some? && nbf.value.Some? && now < nbf.value.value;
            && (TimeCheck(host, claims, now) == Raised <==> exp == Some(None) || (nbf == Some(None) && !expired))
            && (TimeCheck(host, claims, now) == Rejected <==> expired || (early && exp != Some(None)))
  {}

  /** Issuer and audience are asked for only if the verifier has them; an audience may be one of a list. */
  lemma PartiesExactly(v: Verifier, claims: Claims)
    ensures IssuerOk(v, claims)
            <==> v.issuer == None || ("iss" in claims && claims["iss"] == JStr(v.issuer.value))
    ensures AudienceOk(v, claims)
            <==> || v.audience == None
                 || ("aud" in claims && claims["aud"] == JStr(v.audience.value))
                 || ("aud" in claims && claims["aud"].JList? && JStr(v.audience.value) in claims["aud"].items)
  {}

  /** A text that does not consist of three segments is rejected. */
  lemma OtherTextsRejected(host: Host, v: Verifier, token: string, now: int)
    ensures Verify(host, v, token, now) != Rejected ==>
              exists header, payload, signature ::
                '.' !in header && '.' !in payload && '.' !in signature && token == Token(header, payload, signature)
  {
    hide VerifyParts, Token;
    var p := Split(token, '.');
    if |p| == 3 {
      TokenOfSplit(token);
      assert p[0] in p && p[1] in p && p[2] in p;
    }
  }

  /** The algorithm is looked at before the signature, and the signature before the payload. */
  predicate SignatureHolds(host: Host, v: Verifier, header: string, payload: string, signature: string) {
    && DecodeJson(host, header).Some?
    && "alg" in DecodeJson(host, header).value && DecodeJson(host, header).value["alg"] == JStr("HS256")
    && signature == Signature(host, v.secret, header, payload)
  }

  /**
   When a text of three segments makes the verifier raise: the header is unreadable, or the signature is
   not ASCII, or the signature holds and the payload or one of its times is unreadable.
   */
  lemma RaisesExactly(host: Host, v: Verifier, header: string, payload: string, signature: string, now: int)
    requires '.' !in header && '.' !in payload && '.' !in signature
    ensures Verify(host, v, Token(header, payload, signature), now) == Raised <==>
            || DecodeJson(host, header) == None
            || (&& "alg" in DecodeJson(host, header).value && DecodeJson(host, header).value["alg"] == JStr("HS256")
                && exists i :: 0 <= i < |signature| && signature[i] >= 128 as char)
            || (&& SignatureHolds(host, v, header, payload, signature)
                && (DecodeJson(host, payload) == None
                    || TimeCheck(host, DecodeJson(host, payload).value, now) == Raised))
  {
    hide DecodeJson, Signature, TimeCheck, Split, Token, IssuerOk, AudienceOk;
    SplitToken(header, payload, signature);
    SignatureIsAscii(host, v.secret, header, payload);
  }

  lemma SignatureIsAscii(host: Host, secret: string, header: string, payload: string)
    ensures IsAscii(Signature(host, secret, header, payload))
  {
    hide Encode;
    EncodeIsClean(host.hmac(host.utf8(secret), host.utf8(header + ['.'] + payload)));
  }

  /** The three segments of a created token: the header names the algorithm, the claims, the MAC of the two. */
  lemma CreatedSegments(host: Host, claims: Claims, secret: string)
    requires RoundTrips(host, map["alg" := JStr("HS256"), "typ" := JStr("JWT")]) && RoundTrips(host, claims)
    ensures var p := Split(Create(host, claims, secret), '.');
            && |p| == 3
            && DecodeJson(host, p[0]) == Some(map["alg" := JStr("HS256"), "typ" := JStr("JWT")])
            && DecodeJson(host, p[1]) == Some(claims)
            && Decode(p[2]) == Some(host.hmac(host.utf8(secret), host.utf8(p[0] + "." + p[1])))
  {
    var header, payload := Encode(host.dumps(HEADER)), Encode(host.dumps(claims));
    var mac := host.hmac(host.utf8(secret), host.utf8(header + ['.'] + payload));
    hide Encode, Decode, Split, DecodeJson;
    EncodeIsClean(host.dumps(HEADER));
    EncodeIsClean(host.dumps(claims));
    EncodeIsClean(mac);
    SplitToken(header, payload, Encode(mac));
    EncodedSegment(host, HEADER);
    EncodedSegment(host, claims);
    DecodeInvertsEncode(mac);
  }
}
