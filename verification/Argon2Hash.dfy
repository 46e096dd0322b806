/**
 The Argon2id hash string of internal/crypto/hash.go: its printer, its parser and
 verification. Argon2id itself is a function parameter; its only law is that it
 returns the number of bytes it is asked for.
 */
module Argon2Hash {
  import opened Basics
  import opened Text
  import Base64

  type U32 = n: int | 0 <= n < 0x1_0000_0000
  type U8 = n: int | 0 <= n < 256

  /** argon2.Version, the version number of section 3.1 of RFC 9106. */
  const VERSION := 19

  datatype Config = Config(time: U32, memory: U32, threads: U8, keyLen: U32)

  datatype Params = Params(time: U32, memory: U32, threads: U8)

  datatype Parsed = Parsed(params: Params, salt: seq<Byte>, hash: seq<Byte>)

  datatype Error = SegmentCount(found: nat) | NotArgon2id | BadVersion | UnsupportedVersion(version: int)
                 | BadParams | BadSalt | BadHash

  /** argon2.IDKey(code, salt, time, memory, threads, keyLen). */
  type Kdf = (string, seq<Byte>, U32, U32, U8, U32) -> seq<Byte>

  ghost predicate KdfLaw(kdf: Kdf) {
    forall code, salt, t, m, p, n :: |kdf(code, salt, t, m, p, n)| == n
  }

  /** The six segments of the hash string; the first is empty because the string starts with a dollar. */
  function Segments(time: U32, memory: U32, threads: U32, salt: seq<Byte>, hash: seq<Byte>): (parts: seq<string>)
    ensures |parts| == 6
  {
    ["", "argon2id", "v=" + Print(VERSION),
     "m=" + Print(memory) + ",t=" + Print(time) + ",p=" + Print(threads),
     Base64.Encode(Base64.Std, salt), Base64.Encode(Base64.Std, hash)]
  }

  function Format(time: U32, memory: U32, threads: U32, salt: seq<Byte>, hash: seq<Byte>): string {
    Join(Segments(time, memory, threads, salt, hash), '$')
  }

  function Hash(kdf: Kdf, code: string, cfg: Config, salt: seq<Byte>): string {
    Format(cfg.time, cfg.memory, cfg.threads, salt,
           kdf(code, salt, cfg.time, cfg.memory, cfg.threads, cfg.keyLen))
  }

  /** Sscanf(s, "v=%d", &version): text after the number is ignored. */
  function ScanVersion(s: string): Option<int> {
    match ScanLiteral(s, "v=")
    case None => None
    case Some(rest) =>
      match ScanSigned(rest)
      case None => None
      case Some((v, _)) => Some(v)
  }

  /** One "<literal>%d" of the parameter format. */
  function ScanField(s: string, lit: string): Option<(nat, string)> {
    match ScanLiteral(s, lit)
    case None => None
    case Some(rest) => ScanUnsigned(rest, 0x1_0000_0000)
  }

  /** Sscanf(s, "m=%d,t=%d,p=%d", &mem, &t, &p), then p narrowed to eight bits. */
  function ScanParams(s: string): Option<Params> {
    match ScanField(s, "m=")
    case None => None
    case Some((mem, s1)) =>
      match ScanField(s1, ",t=")
      case None => None
      case Some((time, s2)) =>
        match ScanField(s2, ",p=")
        case None => None
        case Some((threads, _)) =>
          assert mem < 0x1_0000_0000 && time < 0x1_0000_0000;
          Some(Params(time, mem, threads % 256))
  }

  function Parse(encoded: string): Result<Parsed, Error> {
    var parts := Split(encoded, '$');
    if |parts| != 6 then Err(SegmentCount(|parts|))
    else if parts[1] != "argon2id" then Err(NotArgon2id)
    else match ScanVersion(parts[2])
      case None => Err(BadVersion)
      case Some(v) =>
        if v != VERSION then Err(UnsupportedVersion(v))
        else match ScanParams(parts[3])
          case None => Err(BadParams)
          case Some(params) =>
            match Base64.Decode(Base64.Std, parts[4])
            case None => Err(BadSalt)
            case Some(salt) =>
              match Base64.Decode(Base64.Std, parts[5])
              case None => Err(BadHash)
              case Some(hash) => Ok(Parsed(params, salt, hash))
  }

  function Verify(kdf: Kdf, code: string, hashStr: string): Result<bool, Error> {
    match Parse(hashStr)
    case Err(e) => Err(e)
    case Ok(Parsed(params, salt, hash)) =>
      Ok(kdf(code, salt, params.time, params.memory, params.threads, |hash| % 0x1_0000_0000) == hash)
  }

  lemma {:induction false} DigitsFree(s: string, c: char)
    requires AllDigits(s) && !IsDigit(c)
    ensures Free(s, c)
  {
  }

  lemma FieldOfPrint(lit: string, n: U32, rest: string)
    requires rest == [] || !IsDigit(rest[0])
    ensures ScanField(lit + Print(n) + rest, lit) == Some((n, rest))
  {
    var s := lit + Print(n) + rest;
    assert s[|lit|..] == Print(n) + rest;
    ScanOfPrint(n, rest);
  }

  lemma ParamsOfPrint(time: U32, memory: U32, threads: U32)
    ensures ScanParams("m=" + Print(memory) + ",t=" + Print(time) + ",p=" + Print(threads))
            == Some(Params(time, memory, threads % 256))
  {
    var s2 := ",p=" + Print(threads);
    var s1 := ",t=" + Print(time) + s2;
    assert "m=" + Print(memory) + ",t=" + Print(time) + ",p=" + Print(threads) == "m=" + Print(memory) + s1;
    FieldOfPrint("m=", memory, s1);
    FieldOfPrint(",t=", time, s2);
    FieldOfPrint(",p=", threads, "");
    assert s2 == s2 + "";
  }

  lemma VersionOfPrint()
    ensures ScanVersion("v=" + Print(VERSION)) == Some(VERSION)
  {
    ScanOfPrint(VERSION, "");
    assert Print(VERSION) + "" == Print(VERSION);
  }

  lemma SegmentsOfFormat(time: U32, memory: U32, threads: U32, salt: seq<Byte>, hash: seq<Byte>)
    ensures Split(Format(time, memory, threads, salt, hash), '$') == Segments(time, memory, threads, salt, hash)
  {
    var parts := Segments(time, memory, threads, salt, hash);
    DigitsFree(Print(VERSION), '$');
    DigitsFree(Print(memory), '$');
    DigitsFree(Print(time), '$');
    DigitsFree(Print(threads), '$');
    Base64.EncodeFree(Base64.Std, salt, '$');
    Base64.EncodeFree(Base64.Std, hash, '$');
    SplitJoin(parts, '$');
  }

  /** The text of a hash, as the comment on the printer gives it. */
  lemma FormatText(time: U32, memory: U32, threads: U32, salt: seq<Byte>, hash: seq<Byte>)
    ensures Format(time, memory, threads, salt, hash)
            == "$argon2id$v=19$" + ("m=" + Print(memory) + ",t=" + Print(time) + ",p=" + Print(threads))
               + "$" + Base64.Encode(Base64.Std, salt) + "$" + Base64.Encode(Base64.Std, hash)
  {
    hide Print, Base64.Encode;
    var params := "m=" + Print(memory) + ",t=" + Print(time) + ",p=" + Print(threads);
    var a, b := Base64.Encode(Base64.Std, salt), Base64.Encode(Base64.Std, hash);
    PrintVersion();
    JoinSix("", "argon2id", "v=" + Print(VERSION), params, a, b);
    Prefix(params, a, b);
    assert "m=" + Print(memory) + ",t=" + Print(time) + ",p=" + Print(threads) == params;
  }

  lemma PrintVersion()
    ensures "v=" + Print(VERSION) == "v=19"
  {
    assert Print(1) == "1" && Print(19) == Print(1) + "9";
  }

  lemma JoinSix(a: string, b: string, c: string, d: string, e: string, f: string)
    ensures Join([a, b, c, d, e, f], '$') == a + "$" + (b + "$" + (c + "$" + (d + "$" + (e + "$" + f))))
  {
    assert [e, f][1..] == [f] && [d, e, f][1..] == [e, f] && [c, d, e, f][1..] == [d, e, f];
    assert [b, c, d, e, f][1..] == [c, d, e, f] && [a, b, c, d, e, f][1..] == [b, c, d, e, f];
    assert Join([e, f], '$') == e + "$" + f;
    assert Join([d, e, f], '$') == d + "$" + (e + "$" + f);
    assert Join([c, d, e, f], '$') == c + "$" + (d + "$" + (e + "$" + f));
    assert Join([b, c, d, e, f], '$') == b + "$" + (c + "$" + (d + "$" + (e + "$" + f)));
  }

  lemma Prefix(params: string, a: string, b: string)
    ensures "" + "$" + ("argon2id" + "$" + ("v=19" + "$" + (params + "$" + (a + "$" + b))))
            == "$argon2id$v=19$" + params + "$" + a + "$" + b
  {
    var rest := params + "$" + (a + "$" + b);
    assert "argon2id" + "$" + ("v=19" + "$" + rest) == "argon2id$v=19$" + rest;
    assert "$argon2id$v=19$" + params + "$" + a + "$" + b == "$argon2id$v=19$" + rest;
  }

  /**
   What is refused: a text without six segments, one that is not argon2id, one of another version
   and one whose salt or hash is not base64, each with its own error; only the rest is accepted.
   */
  lemma ParseRefuses(encoded: string)
    ensures var parts := Split(encoded, '$');
            && (Parse(encoded) == Err(SegmentCount(|parts|)) <==> |parts| != 6)
            && (|parts| == 6 ==>
                  && (Parse(encoded) == Err(NotArgon2id) <==> parts[1] != "argon2id")
                  && (forall v :: Parse(encoded) == Err(UnsupportedVersion(v)) ==> v != 19)
                  && (Parse(encoded).Ok? ==>
                        && parts[1] == "argon2id" && "v=" <= parts[2] && ScanSigned(parts[2][2..]).Some?
                        && ScanSigned(parts[2][2..]).value.0 == 19 && "m=" <= parts[3]
                        && Base64.Decode(Base64.Std, parts[4]) == Some(Parse(encoded).value.salt)
                        && Base64.Decode(Base64.Std, parts[5]) == Some(Parse(encoded).value.hash)))
  {
    hide Split, ScanSigned, Base64.Decode;
  }

  /** Parsing what was printed gives back every field, with the thread count reduced modulo 256. */
  lemma ParseFormat(time: U32, memory: U32, threads: U32, salt: seq<Byte>, hash: seq<Byte>)
    ensures Parse(Format(time, memory, threads, salt, hash))
            == Ok(Parsed(Params(time, memory, threads % 256), salt, hash))
  {
    SegmentsOfFormat(time, memory, threads, salt, hash);
    VersionOfPrint();
    ParamsOfPrint(time, memory, threads);
    Base64.DecodeEncode(Base64.Std, salt);
    Base64.DecodeEncode(Base64.Std, hash);
  }

  /** For every configuration the narrowing loses nothing. */
  lemma ParseHash(kdf: Kdf, code: string, cfg: Config, salt: seq<Byte>)
    ensures Parse(Hash(kdf, code, cfg, salt))
            == Ok(Parsed(Params(cfg.time, cfg.memory, cfg.threads), salt,
                         kdf(code, salt, cfg.time, cfg.memory, cfg.threads, cfg.keyLen)))
  {
    hide Parse, Format;
    ParseFormat(cfg.time, cfg.memory, cfg.threads, salt,
                kdf(code, salt, cfg.time, cfg.memory, cfg.threads, cfg.keyLen));
  }

  /**
   A guess is accepted exactly when it derives the same bytes as the hashed code under the
   configuration the hash was made with; the verifier's current configuration plays no part.
   */
  lemma VerifyExact(kdf: Kdf, code: string, guess: string, cfg: Config, salt: seq<Byte>)
    requires KdfLaw(kdf)
    ensures Verify(kdf, guess, Hash(kdf, code, cfg, salt))
            == Ok(kdf(guess, salt, cfg.time, cfg.memory, cfg.threads, cfg.keyLen)
                  == kdf(code, salt, cfg.time, cfg.memory, cfg.threads, cfg.keyLen))
    ensures Verify(kdf, code, Hash(kdf, code, cfg, salt)) == Ok(true)
  {
    hide Parse, Hash;
    ParseHash(kdf, code, cfg, salt);
  }
}
