/**
 The compact JWS tokens of internal/auth/jwt.go (section 7.1 of RFC 7515). JSON and
 Ed25519 are function parameters with their laws stated in Backend.Law.
 Instants are nanoseconds; Unix() is the floor to seconds.
 */
module Token {
  import opened Basics
  import opened Text
  import Base64

  const SECOND := 1_000_000_000
  const TOKEN_TTL := 3600 * SECOND

  function Unix(t: int): int { t / SECOND }

  datatype Claims = Claims(subject: string, issuedAt: int, expiresAt: int, issuer: string,
                           tenantId: string, handle: string, kind: string, sessionId: string)

  datatype TokenError = Expired | Invalid

  datatype Backend = Backend(marshal: Claims -> seq<Byte>,
                             unmarshal: seq<Byte> -> Option<Claims>,
                             sign: string -> seq<Byte>,
                             check: (string, seq<Byte>) -> bool)
  {
    ghost predicate Law() {
      && (forall c :: unmarshal(marshal(c)) == Some(c))
      && (forall m :: check(m, sign(m)))
    }
  }

  datatype Config = Config(ttl: int, issuer: string)

  /** The JSON of the header map, whose keys Go writes in sorted order. */
  const HEADER := "{\"alg\":\"EdDSA\",\"typ\":\"JWT\"}"

  function Ascii(s: string): seq<Byte> {
    if s == [] then [] else [s[0] as int % 256] + Ascii(s[1..])
  }

  /** The assignments Issue makes to the claims it is given. */
  function Stamp(c: Claims, sessionId: string, cfg: Config, now: int): Claims {
    c.(issuedAt := Unix(now), expiresAt := Unix(now + cfg.ttl), issuer := cfg.issuer, sessionId := sessionId)
  }

  function HeaderPart(): string { Base64.Encode(Base64.Url, Ascii(HEADER)) }

  function PayloadPart(b: Backend, c: Claims): string { Base64.Encode(Base64.Url, b.marshal(c)) }

  function SigningInput(b: Backend, c: Claims): string {
    HeaderPart() + "." + PayloadPart(b, c)
  }

  function Compact(b: Backend, c: Claims): string {
    var input := SigningInput(b, c);
    input + "." + Base64.Encode(Base64.Url, b.sign(input))
  }

  /** Claims.Valid at the given instant. */
  function Validate(c: Claims, now: int): Result<(), TokenError> {
    if Unix(now) > c.expiresAt then Err(Expired)
    else if c.subject == "" || c.tenantId == "" then Err(Invalid)
    else Ok(())
  }

  function Verify(b: Backend, token: string, now: int): Result<Claims, TokenError> {
    var parts := Split(token, '.');
    if |parts| != 3 then Err(Invalid)
    else match Base64.Decode(Base64.Url, parts[2])
      case None => Err(Invalid)
      case Some(sig) =>
        if !b.check(parts[0] + "." + parts[1], sig) then Err(Invalid)
        else match Base64.Decode(Base64.Url, parts[1])
          case None => Err(Invalid)
          case Some(payload) =>
            match b.unmarshal(payload)
            case None => Err(Invalid)
            case Some(c) =>
              match Validate(c, now)
              case Err(e) => Err(e)
              case Ok(_) => Ok(c)
  }

  /** The claims object a handler passes to Issue by reference. */
  class ClaimsBox {
    var value: Claims

    constructor (c: Claims)
      ensures value == c
    {
      value := c;
    }
  }

  class TokenService {
    const cfg: Config
    const backend: Backend

    constructor (cfg: Config, backend: Backend)
      ensures this.cfg == cfg && this.backend == backend
    {
      this.cfg := cfg;
      this.backend := backend;
    }

    /** Sets iat, exp, iss and sid of the claims; the other four stay as given. */
    method Issue(claims: ClaimsBox, sessionId: string, now: int) returns (token: string)
      modifies claims
      ensures claims.value.issuedAt == now / 1_000_000_000
      ensures claims.value.expiresAt == (now + cfg.ttl) / 1_000_000_000
      ensures claims.value.issuer == cfg.issuer && claims.value.sessionId == sessionId
      ensures claims.value.subject == old(claims.value).subject && claims.value.tenantId == old(claims.value).tenantId
      ensures claims.value.handle == old(claims.value).handle && claims.value.kind == old(claims.value).kind
      ensures token == Compact(backend, claims.value)
    {
      claims.value := claims.value.(issuedAt := Unix(now));
      claims.value := claims.value.(expiresAt := Unix(now + cfg.ttl));
      claims.value := claims.value.(issuer := cfg.issuer);
      claims.value := claims.value.(sessionId := sessionId);
      var header := HeaderPart();
      var payload := PayloadPart(backend, claims.value);
      var input := header + "." + payload;
      token := input + "." + Base64.Encode(Base64.Url, backend.sign(input));
    }
  }

  /** A compact token always splits into header, payload and signature. */
  lemma CompactParts(b: Backend, c: Claims)
    ensures Split(Compact(b, c), '.')
            == [HeaderPart(), PayloadPart(b, c), Base64.Encode(Base64.Url, b.sign(SigningInput(b, c)))]
  {
    hide HeaderPart, PayloadPart, Base64.Encode, Base64.DigitOf;
    var h, p, s := HeaderPart(), PayloadPart(b, c), Base64.Encode(Base64.Url, b.sign(SigningInput(b, c)));
    PartsFree(b, c);
    var parts := [h, p, s];
    assert Join(parts, '.') == Compact(b, c) by {
      assert parts[1..] == [p, s];
      assert [p, s][1..] == [s];
      assert Join([p, s], '.') == p + "." + s;
    }
    SplitJoin(parts, '.');
  }

  /** The first part of every token is the JOSE header of section 4.1 of RFC 7515, for EdDSA. */
  lemma TokenHeader(b: Backend, c: Claims)
    ensures var text := "{\"alg\":\"EdDSA\",\"typ\":\"JWT\"}";
            var bytes := Base64.Decode(Base64.Url, Split(Compact(b, c), '.')[0]);
            && bytes.Some? && |bytes.value| == |text|
            && forall i :: 0 <= i < |text| ==> bytes.value[i] == text[i] as int
  {
    hide Base64.Encode, Base64.Decode, Compact, Ascii, Split;
    CompactParts(b, c);
    Base64.DecodeEncode(Base64.Url, Ascii(HEADER));
    AsciiCodes(HEADER, 0);
    forall i | 0 <= i < |HEADER| ensures Ascii(HEADER)[i] == HEADER[i] as int { AsciiCodes(HEADER, i); }
  }

  lemma {:induction false} AsciiCodes(s: string, i: nat)
    requires i < |s| && forall k :: 0 <= k < |s| ==> s[k] as int < 128
    ensures |Ascii(s)| == |s| && Ascii(s)[i] == s[i] as int
  {
    assert s[0] as int % 256 == s[0] as int;
    if i > 0 {
      AsciiCodes(s[1..], i - 1);
    } else if |s| > 1 {
      AsciiCodes(s[1..], 0);
    }
  }

  lemma PartsFree(b: Backend, c: Claims)
    ensures Free(HeaderPart(), '.') && Free(PayloadPart(b, c), '.')
    ensures Free(Base64.Encode(Base64.Url, b.sign(SigningInput(b, c))), '.')
  {
    hide Ascii, Base64.Encode, SigningInput;
    Base64.EncodeFree(Base64.Url, Ascii(HEADER), '.');
    Base64.EncodeFree(Base64.Url, b.marshal(c), '.');
    Base64.EncodeFree(Base64.Url, b.sign(SigningInput(b, c)), '.');
  }

  /**
   Verify of Issue, for every claims, session and pair of instants: the claims with iat, exp, iss
   and sid set, up to and including the second of exp; Expired in every later second, and Invalid
   only for a blank subject or tenant.
   */
  lemma VerifyIssued(b: Backend, c: Claims, sessionId: string, cfg: Config, issued: int, now: int)
    requires b.Law()
    ensures var exp := (issued + cfg.ttl) / 1_000_000_000;
            var stamped := Claims(c.subject, issued / 1_000_000_000, exp, cfg.issuer, c.tenantId, c.handle, c.kind, sessionId);
            && stamped == Stamp(c, sessionId, cfg, issued)
            && Verify(b, Compact(b, stamped), now)
            == if now / 1_000_000_000 > exp then Err(Expired)
               else if c.subject == "" || c.tenantId == "" then Err(Invalid)
               else Ok(stamped)
  {
    hide Compact, HeaderPart, Base64.Encode, Base64.Decode, Split;
    var stamped := Stamp(c, sessionId, cfg, issued);
    CompactParts(b, stamped);
    Base64.DecodeEncode(Base64.Url, b.marshal(stamped));
    Base64.DecodeEncode(Base64.Url, b.sign(SigningInput(b, stamped)));
  }

  /** Section 4.1.4 of RFC 7519: the current time must be before exp. */
  predicate UnexpiredByRfc(c: Claims, now: int) { Unix(now) < c.expiresAt }

  /** The service and the standard disagree about an issued token exactly in the second of exp. */
  lemma ExpiryBoundary(b: Backend, c: Claims, sessionId: string, cfg: Config, issued: int, now: int)
    requires b.Law() && c.subject != "" && c.tenantId != ""
    ensures var stamped := Stamp(c, sessionId, cfg, issued);
            (Verify(b, Compact(b, stamped), now).Ok? <==> UnexpiredByRfc(stamped, now))
            <==> Unix(now) != stamped.expiresAt
  {
    hide Verify, Compact;
    VerifyIssued(b, c, sessionId, cfg, issued, now);
  }

  lemma DotCut(h: string, p: string, h': string, p': string)
    requires Free(h, '.') && Free(h', '.')
    requires h + "." + p == h' + "." + p'
    ensures h == h' && p == p'
  {
    IndexOfPrefix(h, '.', p);
    IndexOfPrefix(h', '.', p');
    assert h == (h + "." + p)[..|h|] && p == (h + "." + p)[|h| + 1..];
    assert h' == (h' + "." + p')[..|h'|] && p' == (h' + "." + p')[|h'| + 1..];
  }

  /** The only signing inputs with a valid signature that reach the service are those Issue produced. */
  ghost predicate Unforged(b: Backend, issued: set<Claims>, token: string) {
    var parts := Split(token, '.');
    |parts| == 3 && Base64.Decode(Base64.Url, parts[2]).Some?
    && b.check(parts[0] + "." + parts[1], Base64.Decode(Base64.Url, parts[2]).value)
    ==> exists c <- issued :: parts[0] + "." + parts[1] == SigningInput(b, c)
  }

  /** Every token that verifies yields claims that were issued. */
  lemma VerifyOnlyIssued(b: Backend, issued: set<Claims>, token: string, now: int)
    requires b.Law() && Unforged(b, issued, token)
    requires Verify(b, token, now).Ok?
    ensures Verify(b, token, now).value in issued
  {
    var parts := Split(token, '.');
    var c :| c in issued && parts[0] + "." + parts[1] == SigningInput(b, c);
    JoinSplit(token, '.');
    assert parts[0] in parts;
    PartsFree(b, c);
    DotCut(parts[0], parts[1], HeaderPart(), PayloadPart(b, c));
    Base64.DecodeEncode(Base64.Url, b.marshal(c));
  }
}
