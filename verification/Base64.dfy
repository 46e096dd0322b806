/**
 Unpadded base64 as Go's encoding/base64 does it, in the standard alphabet
 (section 4 of RFC 4648) and the URL-safe one (section 5 of RFC 4648).
 The decoder skips carriage returns and newlines anywhere and ignores the unused
 low bits of a final partial group.
 */
module Base64 {
  import opened Basics
  import opened Text

  datatype Alphabet = Std | Url

  type Sextet = d: int | 0 <= d < 64

  function CharOf(a: Alphabet, d: Sextet): char {
    if d < 26 then 'A' + d as char
    else if d < 52 then 'a' + (d - 26) as char
    else if d < 62 then '0' + (d - 52) as char
    else if d == 62 then (if a.Std? then '+' else '-')
    else (if a.Std? then '/' else '_')
  }

  function DigitOf(a: Alphabet, c: char): Option<Sextet> {
    if 'A' <= c <= 'Z' then Some((c - 'A') as int)
    else if 'a' <= c <= 'z' then Some((c - 'a') as int + 26)
    else if '0' <= c <= '9' then Some((c - '0') as int + 52)
    else if c == (if a.Std? then '+' else '-') then Some(62)
    else if c == (if a.Std? then '/' else '_') then Some(63)
    else None
  }

  lemma DigitOfCharOf(a: Alphabet, d: Sextet)
    ensures DigitOf(a, CharOf(a, d)) == Some(d)
  {
  }

  lemma CharOfDigitOf(a: Alphabet, c: char)
    ensures DigitOf(a, c).Some? ==> CharOf(a, DigitOf(a, c).value) == c
  {
  }

  /** The tables of sections 4 and 5 of RFC 4648: three runs of consecutive characters and two more. */
  lemma AlphabetTable(a: Alphabet, d: Sextet)
    ensures CharOf(a, 0) == 'A' && CharOf(a, 25) == 'Z' && CharOf(a, 26) == 'a' && CharOf(a, 51) == 'z'
    ensures CharOf(a, 52) == '0' && CharOf(a, 61) == '9'
    ensures d < 25 || 26 <= d < 51 || 52 <= d < 61 ==> CharOf(a, d + 1) as int == CharOf(a, d) as int + 1
    ensures CharOf(Std, 62) == '+' && CharOf(Std, 63) == '/' && CharOf(Url, 62) == '-' && CharOf(Url, 63) == '_'
  {
  }

  // ---------- Octets and sextets ----------

  function Digit0(x: int): Sextet requires 0 <= x < 256 { x / 4 }
  function Digit1(x: int, y: int): Sextet requires 0 <= x < 256 && 0 <= y < 256 { x % 4 * 16 + y / 16 }
  function Digit2(y: int, z: int): Sextet requires 0 <= y < 256 && 0 <= z < 256 { y % 16 * 4 + z / 64 }
  function Digit3(z: int): Sextet requires 0 <= z < 256 { z % 64 }

  function Octet0(d: int, e: int): Byte requires 0 <= d < 64 && 0 <= e < 64 { d * 4 + e / 16 }
  function Octet1(e: int, f: int): Byte requires 0 <= e < 64 && 0 <= f < 64 { e % 16 * 16 + f / 4 }
  function Octet2(f: int, g: int): Byte requires 0 <= f < 64 && 0 <= g < 64 { f % 4 * 64 + g }

  function Sextets(b: seq<Byte>): (ds: seq<Sextet>) {
    if |b| == 0 then []
    else if |b| == 1 then [Digit0(b[0]), Digit1(b[0], 0)]
    else if |b| == 2 then [Digit0(b[0]), Digit1(b[0], b[1]), Digit2(b[1], 0)]
    else [Digit0(b[0]), Digit1(b[0], b[1]), Digit2(b[1], b[2]), Digit3(b[2])] + Sextets(b[3..])
  }

  function Octets(ds: seq<Sextet>): Option<seq<Byte>> {
    if |ds| == 0 then Some([])
    else if |ds| == 1 then None
    else if |ds| == 2 then Some([Octet0(ds[0], ds[1])])
    else if |ds| == 3 then Some([Octet0(ds[0], ds[1]), Octet1(ds[1], ds[2])])
    else match Octets(ds[4..])
      case None => None
      case Some(rest) => Some([Octet0(ds[0], ds[1]), Octet1(ds[1], ds[2]), Octet2(ds[2], ds[3])] + rest)
  }

  /** The bits of the last sextet that no octet uses are zero. */
  predicate CleanTail(ds: seq<Sextet>) {
    var n := |ds|;
    && (n % 4 == 2 ==> ds[n - 1] % 16 == 0)
    && (n % 4 == 3 ==> ds[n - 1] % 4 == 0)
  }

  lemma GroupOfBytes(x: Byte, y: Byte, z: Byte)
    ensures Octet0(Digit0(x), Digit1(x, y)) == x
    ensures Octet1(Digit1(x, y), Digit2(y, z)) == y
    ensures Octet2(Digit2(y, z), Digit3(z)) == z
    ensures Digit1(x, 0) % 16 == 0 && Digit2(y, 0) % 4 == 0
  {
  }

  lemma GroupOfDigits(d: Sextet, e: Sextet, f: Sextet, g: Sextet)
    ensures Digit0(Octet0(d, e)) == d
    ensures Digit1(Octet0(d, e), Octet1(e, f)) == e
    ensures Digit2(Octet1(e, f), Octet2(f, g)) == f
    ensures Digit3(Octet2(f, g)) == g
    ensures Digit1(Octet0(d, e), 0) == e <==> e % 16 == 0
    ensures Digit2(Octet1(e, f), 0) == f <==> f % 4 == 0
  {
  }

  lemma CleanTailStep(ds: seq<Sextet>)
    requires |ds| >= 4
    ensures CleanTail(ds) <==> CleanTail(ds[4..])
  {
    assert |ds| % 4 == |ds[4..]| % 4;
  }

  lemma OctetsOfGroup(b: seq<Byte>, tail: seq<Sextet>)
    requires |b| >= 3 && Octets(tail) == Some(b[3..])
    ensures Octets([Digit0(b[0]), Digit1(b[0], b[1]), Digit2(b[1], b[2]), Digit3(b[2])] + tail) == Some(b)
  {
    var ds := [Digit0(b[0]), Digit1(b[0], b[1]), Digit2(b[1], b[2]), Digit3(b[2])] + tail;
    GroupOfBytes(b[0], b[1], b[2]);
    assert ds[4..] == tail;
    assert b == [b[0], b[1], b[2]] + b[3..];
  }

  lemma OneByte(x: Byte)
    ensures Octets([Digit0(x), Digit1(x, 0)]) == Some([x])
    ensures CleanTail([Digit0(x), Digit1(x, 0)])
  {
    assert Octet0(Digit0(x), Digit1(x, 0)) == x;
  }

  lemma TwoBytes(x: Byte, y: Byte)
    ensures Octets([Digit0(x), Digit1(x, y), Digit2(y, 0)]) == Some([x, y])
    ensures CleanTail([Digit0(x), Digit1(x, y), Digit2(y, 0)])
  {
    GroupOfBytes(x, y, 0);
  }

  lemma {:induction false} OctetsOfSextets(b: seq<Byte>)
    ensures Octets(Sextets(b)) == Some(b)
    ensures CleanTail(Sextets(b))
  {
    if |b| >= 3 {
      OctetsOfSextets(b[3..]);
      OctetsOfGroup(b, Sextets(b[3..]));
      assert Sextets(b)[4..] == Sextets(b[3..]);
      CleanTailStep(Sextets(b));
    } else if |b| == 2 {
      TwoBytes(b[0], b[1]);
      assert b == [b[0], b[1]];
    } else if |b| == 1 {
      OneByte(b[0]);
      assert b == [b[0]];
    }
  }

  lemma SextetsOfGroup(ds: seq<Sextet>, rest: seq<Byte>)
    requires |ds| >= 4
    ensures Sextets([Octet0(ds[0], ds[1]), Octet1(ds[1], ds[2]), Octet2(ds[2], ds[3])] + rest) == ds[..4] + Sextets(rest)
  {
    var b := [Octet0(ds[0], ds[1]), Octet1(ds[1], ds[2]), Octet2(ds[2], ds[3])] + rest;
    GroupOfDigits(ds[0], ds[1], ds[2], ds[3]);
    assert b[3..] == rest;
    assert ds[..4] == [ds[0], ds[1], ds[2], ds[3]];
  }

  lemma {:induction false} SextetsOfOctets(ds: seq<Sextet>)
    requires Octets(ds).Some?
    ensures Sextets(Octets(ds).value) == ds <==> CleanTail(ds)
  {
    if |ds| >= 4 {
      var tail := ds[4..];
      var rest := Octets(tail).value;
      SextetsOfOctets(tail);
      CleanTailStep(ds);
      SextetsOfGroup(ds, rest);
      assert ds == ds[..4] + tail;
      assert (ds[..4] + Sextets(rest))[4..] == Sextets(rest);
    } else if |ds| == 3 {
      GroupOfDigits(ds[0], ds[1], ds[2], 0);
      assert ds == [ds[0], ds[1], ds[2]];
    } else if |ds| == 2 {
      GroupOfDigits(ds[0], ds[1], 0, 0);
      assert ds == [ds[0], ds[1]];
    }
  }

  // ---------- Text ----------

  function Chars(a: Alphabet, ds: seq<Sextet>): (s: string)
    ensures |s| == |ds|
    ensures forall i :: 0 <= i < |s| ==> s[i] == CharOf(a, ds[i])
  {
    seq(|ds|, i requires 0 <= i < |ds| => CharOf(a, ds[i]))
  }

  function Digits(a: Alphabet, s: string): Option<seq<Sextet>> {
    if s == [] then Some([]) else
      match (DigitOf(a, s[0]), Digits(a, s[1..]))
      case (Some(d), Some(rest)) => Some([d] + rest)
      case _ => None
  }

  function StripNewlines(s: string): string {
    if s == [] then []
    else if s[0] == '\r' || s[0] == '\n' then StripNewlines(s[1..])
    else [s[0]] + StripNewlines(s[1..])
  }

  /** EncodeToString of RawStdEncoding and RawURLEncoding. */
  function Encode(a: Alphabet, b: seq<Byte>): string {
    Chars(a, Sextets(b))
  }

  /** DecodeString of RawStdEncoding and RawURLEncoding. */
  function Decode(a: Alphabet, s: string): Option<seq<Byte>> {
    match Digits(a, StripNewlines(s))
    case None => None
    case Some(ds) => Octets(ds)
  }

  lemma {:induction false} DigitsOfChars(a: Alphabet, ds: seq<Sextet>)
    ensures Digits(a, Chars(a, ds)) == Some(ds)
    ensures StripNewlines(Chars(a, ds)) == Chars(a, ds)
  {
    if ds != [] {
      var s := Chars(a, ds);
      DigitOfCharOf(a, ds[0]);
      assert s[0] == CharOf(a, ds[0]);
      assert s[1..] == Chars(a, ds[1..]);
      DigitsOfChars(a, ds[1..]);
      assert [ds[0]] + ds[1..] == ds;
    }
  }

  lemma {:induction false} CharsOfDigits(a: Alphabet, s: string)
    requires Digits(a, s).Some?
    ensures Chars(a, Digits(a, s).value) == s
  {
    if s != [] {
      CharOfDigitOf(a, s[0]);
      CharsOfDigits(a, s[1..]);
    }
  }

  /** A byte of the input, or zero past its end. */
  function ByteAt(b: seq<Byte>, j: nat): Byte { if j < |b| then b[j] else 0 }

  /** The value of a character of the text, or zero past its end. */
  function ValueAt(a: Alphabet, text: string, j: nat): int {
    if j < |text| && DigitOf(a, text[j]).Some? then DigitOf(a, text[j]).value else 0
  }

  /**
   Section 4 of RFC 4648: every three bytes become four characters, most significant bits first, and a
   shorter last group is filled up with zero bits.
   */
  lemma EncodeGroups(a: Alphabet, b: seq<Byte>, k: nat)
    requires 3 * k < |b|
    ensures |Encode(a, b)| == (4 * |b| + 2) / 3
    ensures var text := Encode(a, b);
            ValueAt(a, text, 4 * k) * 262144 + ValueAt(a, text, 4 * k + 1) * 4096 + ValueAt(a, text, 4 * k + 2) * 64
            + ValueAt(a, text, 4 * k + 3)
            == ByteAt(b, 3 * k) * 65536 + ByteAt(b, 3 * k + 1) * 256 + ByteAt(b, 3 * k + 2)
  {
    hide Digit0, Digit1, Digit2, Digit3, Encode, ByteAt, ValueAt, SextetAt;
    EncodeLength(a, b);
    SextetsAt(b, k);
    CharValue(a, b, 4 * k);
    CharValue(a, b, 4 * k + 1);
    CharValue(a, b, 4 * k + 2);
    CharValue(a, b, 4 * k + 3);
    BitsKept(ByteAt(b, 3 * k), ByteAt(b, 3 * k + 1), ByteAt(b, 3 * k + 2));
  }

  lemma EncodeLength(a: Alphabet, b: seq<Byte>)
    ensures |Encode(a, b)| == (4 * |b| + 2) / 3
  {
    SextetsLength(b);
    hide Sextets;
  }

  lemma {:induction false} SextetsLength(b: seq<Byte>)
    ensures |Sextets(b)| == (4 * |b| + 2) / 3
    decreases |b|
  {
    hide Digit0, Digit1, Digit2, Digit3;
    if |b| >= 3 { SextetsLength(b[3..]); }
  }

  function SextetAt(b: seq<Byte>, j: nat): Sextet { if j < |Sextets(b)| then Sextets(b)[j] else 0 }

  lemma CharValue(a: Alphabet, b: seq<Byte>, j: nat)
    ensures ValueAt(a, Encode(a, b), j) == SextetAt(b, j)
  {
    if j < |Sextets(b)| { DigitOfCharOf(a, Sextets(b)[j]); }
    hide DigitOf, CharOf, Sextets;
  }

  lemma BitsKept(x: Byte, y: Byte, z: Byte)
    ensures Digit0(x) * 262144 + Digit1(x, y) * 4096 + Digit2(y, z) * 64 + Digit3(z) == x * 65536 + y * 256 + z
  {
  }

  lemma ZeroDigits()
    ensures Digit2(0, 0) == 0 && Digit3(0) == 0
  {
  }

  lemma SextetsHead(b: seq<Byte>)
    requires b != []
    ensures var x, y, z := ByteAt(b, 0), ByteAt(b, 1), ByteAt(b, 2);
            && SextetAt(b, 0) == Digit0(x) && SextetAt(b, 1) == Digit1(x, y)
            && SextetAt(b, 2) == Digit2(y, z) && SextetAt(b, 3) == Digit3(z)
  {
    hide Digit0, Digit1, Digit2, Digit3;
    ZeroDigits();
    if |b| > 2 { SextetsFull(b); }
  }

  lemma SextetsFull(b: seq<Byte>)
    requires |b| > 2
    ensures |Sextets(b)| >= 4 && Sextets(b)[0] == Digit0(b[0]) && Sextets(b)[1] == Digit1(b[0], b[1])
    ensures Sextets(b)[2] == Digit2(b[1], b[2]) && Sextets(b)[3] == Digit3(b[2])
  {
    hide Digit0, Digit1, Digit2, Digit3;
  }

  lemma {:induction false} SextetsAt(b: seq<Byte>, k: nat)
    requires 3 * k < |b|
    ensures var x, y, z := ByteAt(b, 3 * k), ByteAt(b, 3 * k + 1), ByteAt(b, 3 * k + 2);
            && SextetAt(b, 4 * k) == Digit0(x) && SextetAt(b, 4 * k + 1) == Digit1(x, y)
            && SextetAt(b, 4 * k + 2) == Digit2(y, z) && SextetAt(b, 4 * k + 3) == Digit3(z)
    decreases k
  {
    hide Digit0, Digit1, Digit2, Digit3, ByteAt, SextetAt;
    if k == 0 {
      SextetsHead(b);
    } else {
      SextetsAt(b[3..], k - 1);
      Shifted(b, 3 * k, 4 * k);
      Shifted(b, 3 * k + 1, 4 * k + 1);
      Shifted(b, 3 * k + 2, 4 * k + 2);
      Shifted(b, 3 * k, 4 * k + 3);
    }
  }

  lemma Shifted(b: seq<Byte>, i: nat, j: nat)
    requires |b| >= 3 && i >= 3 && j >= 4
    ensures ByteAt(b, i) == ByteAt(b[3..], i - 3) && SextetAt(b, j) == SextetAt(b[3..], j - 4)
  {
    hide Digit0, Digit1, Digit2, Digit3;
  }

  /** Round trip, for every byte string in either alphabet. */
  lemma DecodeEncode(a: Alphabet, b: seq<Byte>)
    ensures Decode(a, Encode(a, b)) == Some(b)
  {
    DigitsOfChars(a, Sextets(b));
    OctetsOfSextets(b);
  }

  predicate IsBreak(c: char) { c == '\r' || c == '\n' }

  /** How many characters are no line breaks. */
  function Kept(s: string): nat { if s == [] then 0 else Kept(s[1..]) + if IsBreak(s[0]) then 0 else 1 }

  lemma {:induction false} StripKeeps(s: string)
    ensures |StripNewlines(s)| == Kept(s)
    ensures forall c :: c in StripNewlines(s) <==> c in s && !IsBreak(c)
  {
    if s != [] {
      StripKeeps(s[1..]);
      assert s == [s[0]] + s[1..];
    }
  }

  lemma {:induction false} StripConcat(x: string, y: string)
    ensures StripNewlines(x + y) == StripNewlines(x) + StripNewlines(y)
  {
    if x == [] {
      assert x + y == y;
    } else {
      assert (x + y)[1..] == x[1..] + y;
      StripConcat(x[1..], y);
    }
  }

  lemma {:induction false} DigitsKnown(a: Alphabet, t: string)
    ensures Digits(a, t).Some? <==> forall c <- t :: DigitOf(a, c).Some?
    ensures Digits(a, t).Some? ==> |Digits(a, t).value| == |t|
  {
    hide DigitOf;
    if t != [] {
      DigitsKnown(a, t[1..]);
      assert t == [t[0]] + t[1..];
    }
  }

  lemma {:induction false} OctetsKnown(ds: seq<Sextet>)
    ensures Octets(ds).Some? <==> |ds| % 4 != 1
    decreases |ds|
  {
    hide Octet0, Octet1, Octet2;
    if |ds| >= 4 { OctetsKnown(ds[4..]); }
  }

  /**
   A text decodes exactly if all its characters but line breaks are in the alphabet and their number
   does not leave one over.
   */
  lemma DecodeExact(a: Alphabet, s: string)
    ensures Decode(a, s).Some? <==> (forall c <- s :: c == '\r' || c == '\n' || DigitOf(a, c).Some?) && Kept(s) % 4 != 1
  {
    hide DigitOf, Octets, Digits, StripNewlines, Kept;
    StripKeeps(s);
    DigitsKnown(a, StripNewlines(s));
    if Digits(a, StripNewlines(s)).Some? { OctetsKnown(Digits(a, StripNewlines(s)).value); }
  }

  /** A line break added anywhere changes nothing. */
  lemma BreaksIgnored(a: Alphabet, x: string, y: string, c: char)
    requires c == '\r' || c == '\n'
    ensures Decode(a, x + [c] + y) == Decode(a, x + y)
  {
    StripConcat(x + [c], y);
    StripConcat(x, [c]);
    StripConcat(x, y);
    StripBreak(c);
    assert StripNewlines(x + [c]) == StripNewlines(x);
    hide StripNewlines;
  }

  lemma StripBreak(c: char)
    requires IsBreak(c)
    ensures StripNewlines([c]) == []
  {
  }

  /** A string is the encoding of what it decodes to exactly when it has no line breaks and no stray tail bits. */
  predicate Canonical(a: Alphabet, s: string) {
    StripNewlines(s) == s && Digits(a, s).Some? && CleanTail(Digits(a, s).value)
  }

  lemma EncodeDecode(a: Alphabet, s: string)
    requires Decode(a, s).Some?
    ensures Encode(a, Decode(a, s).value) == s <==> Canonical(a, s)
  {
    var t := StripNewlines(s);
    var ds := Digits(a, t).value;
    var b := Octets(ds).value;
    CharsOfDigits(a, t);
    SextetsOfOctets(ds);
    DigitsOfChars(a, Sextets(b));
  }

  /** Encoded text never contains a character outside the alphabet. */
  lemma EncodeFree(a: Alphabet, b: seq<Byte>, c: char)
    requires DigitOf(a, c).None?
    ensures Free(Encode(a, b), c)
  {
  }
}
