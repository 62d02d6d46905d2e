// Compact tokens: what the account service signs (server/account/AccountService.cpp) and how
// the connection service verifies it (server/connd/auth/JwtAuthProvider.cpp); section 7.1 of
// RFC 7515.  HMAC, the JSON parser and the clock are parameters.
module Jwt {
  import opened Wrappers
  import opened Bytes
  import opened Search
  import opened Base64Url

  type Text = seq<Byte>

  /** A claim as reading it comes out: not there, there with another type, or its value. */
  datatype Claim<T> = Absent | WrongType | Is(value: T)

  datatype Claims = Claims(exp: Claim<int>, nbf: Claim<int>, sub: Claim<Text>, userId: Claim<Text>)

  datatype HeaderCheck = BadJson | OtherAlg | Hs256

  datatype Env = Env(
    hmac: (Text, Text) -> Text,             // HMAC-SHA256 of key and data
    header: Text -> HeaderCheck,            // the JSON header's alg
    payload: Text -> Option<Claims>)        // the JSON payload, None when it does not parse

  datatype Fault =
    | BadFormat | HeaderParse | UnsupportedAlg | NoSecret | SignatureMismatch
    | PayloadParse | Expired | NotYetValid | NoUser

  datatype Outcome = Accepted(user: Text) | Refused(why: Fault)

  // ---- segments -------------------------------------------------------------------------

  datatype Segments = Segments(header: Text, payload: Text, signature: Text)

  /** The text cut at its first two dots. */
  function Cut(token: Text): Option<Segments> {
    var i := FirstOf(token, DOT);
    if i == |token| then None
    else
      var rest := token[i + 1..];
      var j := FirstOf(rest, DOT);
      if j == |rest| then None else Some(Segments(token[..i], rest[..j], rest[j + 1..]))
  }

  function Compact(h: Text, p: Text, s: Text): Text { h + [DOT] + (p + [DOT] + s) }

  /** Cutting recovers three segments whose first two have no dot; the third may have some. */
  lemma CutCompact(h: Text, p: Text, s: Text)
    requires DOT !in h && DOT !in p
    ensures Cut(Compact(h, p, s)) == Some(Segments(h, p, s))
  {
    var rest := p + [DOT] + s;
    var token := h + [DOT] + rest;
    FirstAfter(h, DOT, rest);
    FirstAfter(p, DOT, s);
    assert token[..|h|] == h && token[|h| + 1..] == rest;
    assert rest[..|p|] == p && rest[|p| + 1..] == s;
  }

  /** Conversely a token that is cut was put together from its segments. */
  lemma CutIsCompact(token: Text)
    requires Cut(token).Some?
    ensures var c := Cut(token).value; token == Compact(c.header, c.payload, c.signature) && DOT !in c.header && DOT !in c.payload
  {
    var i := FirstOf(token, DOT);
    var rest := token[i + 1..];
    var j := FirstOf(rest, DOT);
    assert rest == rest[..j] + [DOT] + rest[j + 1..];
    assert token == token[..i] + [DOT] + rest;
  }

  // ---- signing and verifying --------------------------------------------------------------

  function SigningInput(h: Text, p: Text): Text { h + [DOT] + p }

  function SignJwt(env: Env, secret: Text, headerJson: Text, payloadJson: Text): Text {
    var h, p := Encode(headerJson), Encode(payloadJson);
    Compact(h, p, Encode(env.hmac(secret, SigningInput(h, p))))
  }

  /** The checks on the decoded payload, in order. */
  function CheckClaims(parsed: Option<Claims>, now: int): Outcome {
    match parsed
    case None => Refused(PayloadParse)
    case Some(c) =>
      if c.exp.WrongType? then Refused(PayloadParse)
      else if c.exp.Is? && now > c.exp.value then Refused(Expired)
      else if c.nbf.WrongType? then Refused(PayloadParse)
      else if c.nbf.Is? && now < c.nbf.value then Refused(NotYetValid)
      else
        match c.sub
        case Is(user) => Accepted(user)
        case WrongType => Refused(PayloadParse)
        case Absent =>
          match c.userId
          case Is(user) => Accepted(user)
          case WrongType => Refused(PayloadParse)
          case Absent => Refused(NoUser)
  }

  function Verify(env: Env, secret: Text, token: Text, now: int): Outcome {
    match Cut(token)
    case None => Refused(BadFormat)
    case Some(c) =>
      match env.header(Decode(c.header))
      case BadJson => Refused(HeaderParse)
      case OtherAlg => Refused(UnsupportedAlg)
      case Hs256 =>
        if secret == [] then Refused(NoSecret)
        else if env.hmac(secret, SigningInput(c.header, c.payload)) != Decode(c.signature) then Refused(SignatureMismatch)
        else CheckClaims(env.payload(Decode(c.payload)), now)
  }

  /** A signed token passes the format and signature checks under the secret it was signed
      with, for any HMAC and any header and payload, and its payload is what was signed: what is
      left to decide is the header's algorithm, whether there is a secret, and the claims. */
  lemma SignedTokenVerifies(env: Env, secret: Text, headerJson: Text, payloadJson: Text, now: int)
    ensures Verify(env, secret, SignJwt(env, secret, headerJson, payloadJson), now) ==
      match env.header(headerJson)
      case BadJson => Refused(HeaderParse)
      case OtherAlg => Refused(UnsupportedAlg)
      case Hs256 => if secret == [] then Refused(NoSecret) else CheckClaims(env.payload(payloadJson), now)
  {
    hide Encode, Decode, Cut, Compact, CheckClaims;
    var h, p := Encode(headerJson), Encode(payloadJson);
    var sig := env.hmac(secret, SigningInput(h, p));
    EncodeIsPlain(headerJson);
    EncodeIsPlain(payloadJson);
    CutCompact(h, p, Encode(sig));
    RoundTrip(headerJson);
    RoundTrip(payloadJson);
    RoundTrip(sig);
  }

  /** Of a token that is header, dot, payload, dot, signature. */
  lemma CutTokenAccepted(env: Env, secret: Text, h: Text, p: Text, s: Text, now: int, user: Text)
    requires 0x2E !in h && 0x2E !in p
    ensures Verify(env, secret, h + [0x2E] + p + [0x2E] + s, now) == Accepted(user) <==>
      && secret != [] && env.header(Decode(h)) == Hs256 && Decode(s) == env.hmac(secret, h + [0x2E] + p)
      && env.payload(Decode(p)).Some? && Permits(env.payload(Decode(p)).value, now, user)
  {
    hide Decode, Cut, CheckClaims, Permits;
    Spelled(h, p, s);
    CutCompact(h, p, s);
    PermitsIs(env.payload(Decode(p)), now, user);
  }

  lemma AcceptedIsCut(env: Env, secret: Text, token: Text, now: int) returns (h: Text, p: Text, s: Text)
    requires Verify(env, secret, token, now).Accepted?
    ensures token == h + [0x2E] + p + [0x2E] + s && 0x2E !in h && 0x2E !in p
  {
    hide Decode, Cut, CheckClaims;
    CutIsCompact(token);
    var c := Cut(token).value;
    h, p, s := c.header, c.payload, c.signature;
    Spelled(h, p, s);
  }

  /** A token is accepted exactly when it is header, dot, payload, dot, signature, the signature
      is the one of header, dot, payload under a non-empty secret, the header is HS256 and the
      claims permit the user now. */
  lemma AcceptedIff(env: Env, secret: Text, token: Text, now: int, user: Text)
    ensures Verify(env, secret, token, now) == Accepted(user) <==>
      exists h: Text, p: Text, s: Text, c: Claims ::
        && token == h + [0x2E] + p + [0x2E] + s && 0x2E !in h && 0x2E !in p && secret != []
        && env.header(Decode(h)) == Hs256 && Decode(s) == env.hmac(secret, h + [0x2E] + p)
        && env.payload(Decode(p)) == Some(c) && Permits(c, now, user)
  {
    hide Decode, Verify, Permits;
    if Verify(env, secret, token, now) == Accepted(user) {
      var h, p, s := AcceptedIsCut(env, secret, token, now);
      CutTokenAccepted(env, secret, h, p, s, now, user);
      assert token == h + [0x2E] + p + [0x2E] + s && env.payload(Decode(p)) == Some(env.payload(Decode(p)).value);
    }
    if h: Text, p: Text, s: Text, c: Claims :|
      && token == h + [0x2E] + p + [0x2E] + s && 0x2E !in h && 0x2E !in p && secret != []
      && env.header(Decode(h)) == Hs256 && Decode(s) == env.hmac(secret, h + [0x2E] + p)
      && env.payload(Decode(p)) == Some(c) && Permits(c, now, user)
    {
      CutTokenAccepted(env, secret, h, p, s, now, user);
    }
  }

  /** The time claims are absent or hold now, and the user is the sub claim, or the user_id claim
      where there is no sub. */
  predicate Permits(c: Claims, now: int, user: Text) {
    && (c.exp == Absent || (c.exp.Is? && now <= c.exp.value)) && (c.nbf == Absent || (c.nbf.Is? && c.nbf.value <= now))
    && (c.sub == Is(user) || (c.sub == Absent && c.userId == Is(user)))
  }

  lemma PermitsIs(parsed: Option<Claims>, now: int, user: Text)
    ensures CheckClaims(parsed, now) == Accepted(user) <==> parsed.Some? && Permits(parsed.value, now, user)
  {
  }

  lemma Spelled(h: Text, p: Text, s: Text)
    ensures Compact(h, p, s) == h + [0x2E] + p + [0x2E] + s && SigningInput(h, p) == h + [0x2E] + p
  {
    assert h + [0x2E] + p + [0x2E] + s == h + [0x2E] + (p + [0x2E] + s);
  }

  /** Two tokens that differ in header or payload segment are verified over different data. */
  lemma SignedDataDiffers(h: Text, p: Text, h': Text, p': Text)
    requires 0x2E !in h && 0x2E !in h'
    ensures SigningInput(h, p) == SigningInput(h', p') ==> h == h' && p == p'
  {
    Spelled(h, p, []);
    Spelled(h', p', []);
    FirstAfter(h, DOT, p);
    FirstAfter(h', DOT, p');
    var t, t' := h + [DOT] + p, h' + [DOT] + p';
    assert t[..|h|] == h && t[|h| + 1..] == p && t'[..|h'|] == h' && t'[|h'| + 1..] == p';
  }

  /** What signJwt puts together, and over what it signs. */
  lemma SignedTokenIs(env: Env, secret: Text, headerJson: Text, payloadJson: Text)
    ensures var h, p := Encode(headerJson), Encode(payloadJson);
      SignJwt(env, secret, headerJson, payloadJson) == h + [0x2E] + p + [0x2E] + Encode(env.hmac(secret, h + [0x2E] + p))
  {
    hide Encode;
    var h, p := Encode(headerJson), Encode(payloadJson);
    Spelled(h, p, Encode(env.hmac(secret, h + [0x2E] + p)));
  }

  /** A wrong signature is found before the payload is looked at. */
  lemma WrongSignature(env: Env, secret: Text, h: Text, p: Text, s: Text, now: int)
    requires 0x2E !in h && 0x2E !in p && env.header(Decode(h)) == Hs256 && secret != []
    requires Decode(s) != env.hmac(secret, h + [0x2E] + p)
    ensures Verify(env, secret, h + [0x2E] + p + [0x2E] + s, now) == Refused(SignatureMismatch)
  {
    hide Decode, Cut;
    Spelled(h, p, s);
    CutCompact(h, p, s);
  }

  /** An expired or not yet valid token is never accepted. */
  lemma AcceptedInTime(env: Env, secret: Text, token: Text, now: int)
    requires Verify(env, secret, token, now).Accepted?
    ensures exists c: Claims :: (forall e :: c.exp == Is(e) ==> now <= e) && (forall n :: c.nbf == Is(n) ==> n <= now)
                        && Cut(token).Some? && env.payload(Decode(Cut(token).value.payload)) == Some(c)
  {
    hide Decode, Cut;
    var c := env.payload(Decode(Cut(token).value.payload)).value;
    assert env.payload(Decode(Cut(token).value.payload)) == Some(c);
  }
}
