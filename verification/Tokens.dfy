// The two signed token formats: `body.signature` proves a verified contact,
// `header.body.signature` is a JWT (section 7.1 of RFC 7515). The keyed hash and
// the JSON codec are arbitrary functions; where a result needs that parsing
// undoes printing, it says so for the one value concerned.
module Tokens {
  import opened Common
  import opened Base64Url

  datatype Primitives = Primitives(
    hmac: (string, string) -> seq<byte>,
    stringify: Json -> seq<byte>,
    parse: seq<byte> -> Option<Json>)

  ghost predicate Parses(x: Primitives, j: Json) { x.parse(x.stringify(j)) == Some(j) }

  function Field(j: Json, name: string): Option<Json> {
    if j.Obj? && name in j.fields then Some(j.fields[name]) else None
  }

  /** `token.split('.')`. */
  function Split(s: string): seq<string> {
    if s == "" then [""]
    else if s[0] == '.' then [""] + Split(s[1..])
    else
      var rest := Split(s[1..]);
      [[s[0]] + rest[0]] + rest[1..]
  }

  function Join(parts: seq<string>): string
    requires parts != []
  {
    if |parts| == 1 then parts[0] else parts[0] + "." + Join(parts[1..])
  }

  lemma {:induction false} SplitDotless(s: string)
    requires '.' !in s
    ensures Split(s) == [s]
  {
    if s != "" {
      SplitDotless(s[1..]);
      assert s == [s[0]] + s[1..];
    }
  }

  lemma {:induction false} SplitFirst(s: string, t: string)
    requires '.' !in s
    ensures Split(s + "." + t) == [s] + Split(t)
  {
    if s == "" {
      assert (s + "." + t)[1..] == t;
    } else {
      assert (s + "." + t)[1..] == s[1..] + "." + t;
      SplitFirst(s[1..], t);
      assert s == [s[0]] + s[1..];
      assert ([s[1..]] + Split(t))[1..] == Split(t);
    }
  }

  /** Splitting loses nothing and leaves no dot behind. */
  lemma {:induction false} SplitJoins(s: string)
    ensures Split(s) != [] && Join(Split(s)) == s && forall part | part in Split(s) :: '.' !in part
  {
    if s != "" {
      SplitJoins(s[1..]);
      var rest := Split(s[1..]);
      if s[0] == '.' {
        assert Join([""] + rest) == "" + "." + Join(([""] + rest)[1..]);
        assert ([""] + rest)[1..] == rest;
      } else {
        var parts := [[s[0]] + rest[0]] + rest[1..];
        assert parts[1..] == rest[1..];
        assert Join(parts) == [s[0]] + Join(rest);
      }
    }
  }

  // ── Verification tokens ─────────────────────────────────────────────────────

  /** `channel` is 'EMAIL' or 'SMS'; `exp` in milliseconds. */
  datatype Proof = Proof(contact: string, channel: string, jti: string, exp: real)

  function ProofJson(p: Proof): Json {
    Obj(map["contact" := Str(p.contact), "channel" := Str(p.channel), "jti" := Str(p.jti), "exp" := Num(p.exp)])
  }

  predicate ProofOk(p: Proof) {
    (p.channel == "EMAIL" || p.channel == "SMS") && |p.jti| >= 8
  }

  /** The type and value checks on whatever was parsed. */
  function ReadProof(j: Json): Option<Proof> {
    match (Field(j, "contact"), Field(j, "channel"), Field(j, "jti"), Field(j, "exp"))
    case (Some(Str(contact)), Some(Str(channel)), Some(Str(jti)), Some(Num(exp))) =>
      var p := Proof(contact, channel, jti, exp);
      if ProofOk(p) then Some(p) else None
    case _ => None
  }

  function SignProof(x: Primitives, p: Proof, secret: string): string {
    var body := Encode(x.stringify(ProofJson(p)));
    body + "." + Encode(x.hmac(secret, body))
  }

  function VerifyProof(x: Primitives, token: string, secret: string, now: int): Option<Proof> {
    var parts := Split(token);
    if |parts| != 2 then None
    else if parts[1] != Encode(x.hmac(secret, parts[0])) then None
    else
      match x.parse(Decode(parts[0]))
      case None => None
      case Some(j) =>
        match ReadProof(j)
        case None => None
        case Some(p) => if now as real > p.exp then None else Some(p)
  }

  /**
   * A signed proof comes back whole up to and including its expiry, if its fields are
   * acceptable; else nothing does.
   */
  lemma ProofRoundTrip(x: Primitives, p: Proof, secret: string, now: int)
    ensures Parses(x, ProofJson(p)) ==>
              VerifyProof(x, SignProof(x, p, secret), secret, now)
              == if (p.channel == "EMAIL" || p.channel == "SMS") && |p.jti| >= 8 && now as real <= p.exp then Some(p)
                 else None
  {
    var json := x.stringify(ProofJson(p));
    var body := Encode(json);
    EncodeShape(json);
    EncodeShape(x.hmac(secret, body));
    SplitFirst(body, Encode(x.hmac(secret, body)));
    SplitDotless(Encode(x.hmac(secret, body)));
    RoundTrip(json);
  }

  /** The nonce is sixteen random bytes in hex, so what the service signs for a channel is accepted until it expires. */
  lemma MintedIsAccepted(x: Primitives, contact: string, channel: string, nonce: string, exp: real, secret: string,
          now: int)
    requires |nonce| == 32 && (channel == "EMAIL" || channel == "SMS")
    ensures var p := Proof(contact, channel, nonce, exp);
            Parses(x, ProofJson(p)) ==>
              (VerifyProof(x, SignProof(x, p, secret), secret, now) == Some(p) <==> now as real <= exp)
  {
    ProofRoundTrip(x, Proof(contact, channel, nonce, exp), secret, now);
  }

  /** A dotless body with its own signature, decoding to an acceptable, unexpired proof. */
  ghost predicate ProofBody(x: Primitives, token: string, secret: string, now: int, p: Proof, body: string) {
    && '.' !in body
    && token == body + "." + Encode(x.hmac(secret, body))
    && x.parse(Decode(body)).Some? && ReadProof(x.parse(Decode(body)).value) == Some(p)
    && now as real <= p.exp
  }

  /** What is accepted as a verification token is exactly what has such a body. */
  lemma ProofAcceptedIff(x: Primitives, token: string, secret: string, now: int, p: Proof)
    ensures VerifyProof(x, token, secret, now) == Some(p) <==> exists body :: ProofBody(x, token, secret, now, p, body)
  {
    SplitJoins(token);
    if VerifyProof(x, token, secret, now) == Some(p) {
      var parts := Split(token);
      assert parts[0] in parts;
      assert Join(parts) == parts[0] + "." + Join(parts[1..]) && parts[1..] == [parts[1]];
      assert ProofBody(x, token, secret, now, p, parts[0]);
    }
    if body :| ProofBody(x, token, secret, now, p, body) {
      EncodeShape(x.hmac(secret, body));
      SplitFirst(body, Encode(x.hmac(secret, body)));
      SplitDotless(Encode(x.hmac(secret, body)));
    }
  }

  // ── JWT ─────────────────────────────────────────────────────────────────────

  /** `purpose` is 'access', 'registration' or 'partner'; times in seconds. */
  datatype Claims = Claims(sub: string, purpose: string, ver: Option<real>, iat: real, exp: real)

  const HEADER := Obj(map["alg" := Str("HS256"), "typ" := Str("JWT")])

  function ClaimsJson(c: Claims): Json {
    var fields := map["sub" := Str(c.sub), "purpose" := Str(c.purpose), "iat" := Num(c.iat), "exp" := Num(c.exp)];
    Obj(if c.ver.Some? then fields["ver" := Num(c.ver.value)] else fields)
  }

  predicate ClaimsOk(c: Claims) {
    c.sub != "" && (c.purpose == "access" || c.purpose == "registration" || c.purpose == "partner")
  }

  /** `ver` is not checked; anything but a number reads as absent. */
  function ReadClaims(j: Json): Option<Claims> {
    match (Field(j, "sub"), Field(j, "purpose"), Field(j, "iat"), Field(j, "exp"))
    case (Some(Str(sub)), Some(Str(purpose)), Some(Num(iat)), Some(Num(exp))) =>
      var ver := match Field(j, "ver") case Some(Num(v)) => Some(v) case _ => None;
      var c := Claims(sub, purpose, ver, iat, exp);
      if ClaimsOk(c) then Some(c) else None
    case _ => None
  }

  function SignJwt(x: Primitives, c: Claims, secret: string): string {
    var header := Encode(x.stringify(HEADER));
    var body := Encode(x.stringify(ClaimsJson(c)));
    header + "." + body + "." + Encode(x.hmac(secret, header + "." + body))
  }

  /** Seconds are the floor of milliseconds by 1000; from `exp` on the token is rejected. */
  function VerifyJwt(x: Primitives, token: string, secret: string, nowMs: int): Option<Claims> {
    var parts := Split(token);
    if |parts| != 3 then None
    else if parts[2] != Encode(x.hmac(secret, parts[0] + "." + parts[1])) then None
    else
      match x.parse(Decode(parts[1]))
      case None => None
      case Some(j) =>
        match ReadClaims(j)
        case None => None
        case Some(c) => if (nowMs / 1000) as real >= c.exp then None else Some(c)
  }

  lemma JwtSplits(x: Primitives, header: string, body: string, secret: string)
    requires '.' !in header && '.' !in body
    ensures var sig := Encode(x.hmac(secret, header + "." + body));
            Split(header + "." + body + "." + sig) == [header, body, sig]
  {
    var sig := Encode(x.hmac(secret, header + "." + body));
    EncodeShape(x.hmac(secret, header + "." + body));
    assert header + "." + body + "." + sig == header + "." + (body + "." + sig);
    SplitFirst(header, body + "." + sig);
    SplitFirst(body, sig);
    SplitDotless(sig);
  }

  lemma ClaimsReadBack(c: Claims)
    ensures ReadClaims(ClaimsJson(c)) == if ClaimsOk(c) then Some(c) else None
  {
  }

  /** A signed session comes back whole strictly before its expiry second, if its claims are acceptable. */
  lemma JwtRoundTrip(x: Primitives, c: Claims, secret: string, nowMs: int)
    ensures Parses(x, ClaimsJson(c)) ==>
              VerifyJwt(x, SignJwt(x, c, secret), secret, nowMs)
              == if && c.sub != "" && (c.purpose == "access" || c.purpose == "registration" || c.purpose == "partner")
                    && (nowMs / 1000) as real < c.exp
                 then Some(c) else None
  {
    ClaimsReadBack(c);
    EncodeShape(x.stringify(HEADER));
    EncodeShape(x.stringify(ClaimsJson(c)));
    JwtSplits(x, Encode(x.stringify(HEADER)), Encode(x.stringify(ClaimsJson(c))), secret);
    RoundTrip(x.stringify(ClaimsJson(c)));
  }

  /** A dotless header and body with their own signature, decoding to acceptable, unexpired claims. */
  ghost predicate JwtParts(x: Primitives, token: string, secret: string, nowMs: int, c: Claims, header: string,
          body: string) {
    && '.' !in header && '.' !in body
    && token == header + "." + body + "." + Encode(x.hmac(secret, header + "." + body))
    && x.parse(Decode(body)).Some? && ReadClaims(x.parse(Decode(body)).value) == Some(c)
    && (nowMs / 1000) as real < c.exp
  }

  lemma AcceptedJwtHasParts(x: Primitives, token: string, secret: string, nowMs: int,
          c: Claims) returns (header: string, body: string)
    requires VerifyJwt(x, token, secret, nowMs) == Some(c)
    ensures JwtParts(x, token, secret, nowMs, c, header, body)
  {
    SplitJoins(token);
    var parts := Split(token);
    header, body := parts[0], parts[1];
    assert header in parts && body in parts;
    JoinThree(parts);
  }

  lemma JoinThree(parts: seq<string>)
    requires |parts| == 3
    ensures Join(parts) == parts[0] + "." + parts[1] + "." + parts[2]
  {
    assert parts[1..][1..] == [parts[2]];
    assert Join(parts[1..]) == parts[1] + "." + parts[2];
    assert parts[0] + "." + (parts[1] + "." + parts[2]) == parts[0] + "." + parts[1] + "." + parts[2];
  }

  /** What is accepted as a JWT is exactly what has such parts. */
  lemma JwtAcceptedIff(x: Primitives, token: string, secret: string, nowMs: int, c: Claims)
    ensures VerifyJwt(x, token, secret, nowMs) == Some(c)
            <==> exists header, body :: JwtParts(x, token, secret, nowMs, c, header, body)
  {
    if VerifyJwt(x, token, secret, nowMs) == Some(c) {
      var header, body := AcceptedJwtHasParts(x, token, secret, nowMs, c);
    }
    if header, body :| JwtParts(x, token, secret, nowMs, c, header, body) {
      JwtSplits(x, header, body, secret);
    }
  }

  /** Neither format passes for the other, even under one secret and one clock. */
  lemma FormatsDisjoint(x: Primitives, token: string, secret: string, now: int)
    ensures VerifyProof(x, token, secret, now) == None || VerifyJwt(x, token, secret, now) == None
  {
  }
}
