/**
 Text primitives the codecs are built from: splitting at a separator, decimal
 printing, and the integer scanning done by Go's fmt.Sscanf.
 */
module Text {
  import opened Basics

  // ---------- Splitting and joining ----------

  /** Position of the first c in s, or |s| when there is none. */
  function IndexOf(s: string, c: char): (i: nat)
    ensures i <= |s|
    ensures c !in s[..i]
    ensures i < |s| ==> s[i] == c
  {
    if s == [] || s[0] == c then 0 else
      var i := 1 + IndexOf(s[1..], c);
      assert s[..i] == [s[0]] + s[1..][..i - 1];
      i
  }

  /** strings.Split with a one-character separator. */
  function Split(s: string, sep: char): (parts: seq<string>)
    ensures |parts| >= 1
    decreases |s|
  {
    var i := IndexOf(s, sep);
    if i == |s| then [s] else [s[..i]] + Split(s[i + 1..], sep)
  }

  function Join(parts: seq<string>, sep: char): string
    requires |parts| >= 1
  {
    if |parts| == 1 then parts[0] else parts[0] + [sep] + Join(parts[1..], sep)
  }

  ghost predicate Free(s: string, c: char) {
    c !in s
  }

  lemma {:induction false} IndexOfPrefix(a: string, c: char, rest: string)
    requires Free(a, c)
    ensures IndexOf(a + [c] + rest, c) == |a|
  {
    if a != [] {
      assert (a + [c] + rest)[1..] == a[1..] + [c] + rest;
      IndexOfPrefix(a[1..], c, rest);
    }
  }

  lemma {:induction false} SplitJoin(parts: seq<string>, sep: char)
    requires |parts| >= 1
    requires forall p <- parts :: Free(p, sep)
    ensures Split(Join(parts, sep), sep) == parts
    decreases |parts|
  {
    var s := Join(parts, sep);
    if |parts| == 1 {
      var i := IndexOf(s, sep);
      assert Free(parts[0], sep);
    } else {
      var rest := Join(parts[1..], sep);
      assert Free(parts[0], sep);
      IndexOfPrefix(parts[0], sep, rest);
      assert s[..|parts[0]|] == parts[0];
      assert s[|parts[0]| + 1..] == rest;
      SplitJoin(parts[1..], sep);
    }
  }

  lemma {:induction false} JoinSplit(s: string, sep: char)
    ensures Join(Split(s, sep), sep) == s
    ensures forall p <- Split(s, sep) :: Free(p, sep)
    decreases |s|
  {
    var i := IndexOf(s, sep);
    if i == |s| {
      assert s[..i] == s;
    } else {
      JoinSplit(s[i + 1..], sep);
      assert s == s[..i] + [sep] + s[i + 1..];
      assert Split(s, sep)[1..] == Split(s[i + 1..], sep);
    }
  }

  // ---------- Decimal numbers ----------

  predicate IsDigit(c: char) {
    '0' <= c <= '9'
  }

  predicate AllDigits(s: string) {
    forall c <- s :: IsDigit(c)
  }

  function DigitChar(d: nat): (c: char)
    requires d < 10
    ensures IsDigit(c)
  {
    '0' + d as char
  }

  /** The verb %d on a non-negative integer. */
  function Print(n: nat): (s: string)
    ensures |s| >= 1
    ensures AllDigits(s)
  {
    if n < 10 then [DigitChar(n)] else Print(n / 10) + [DigitChar(n % 10)]
  }

  /** The number a digit string denotes. */
  function Value(s: string): nat
    requires AllDigits(s)
  {
    if s == [] then 0 else
      var last := s[|s| - 1];
      assert last in s;
      10 * Value(s[..|s| - 1]) + (last - '0') as nat
  }

  lemma {:induction false} ValueOfPrint(n: nat)
    ensures Value(Print(n)) == n
  {
    var s := Print(n);
    var front, last := s[..|s| - 1], s[|s| - 1];
    if n < 10 {
      assert front == [];
    } else {
      assert front == Print(n / 10);
      ValueOfPrint(n / 10);
    }
  }

  // ---------- fmt.Sscanf ----------

  /** unicode.IsSpace as the fmt scanner tabulates it. */
  predicate IsSpace(c: char) {
    var n := c as int;
    || 0x09 <= n <= 0x0d || n == 0x20 || n == 0x85 || n == 0xa0 || n == 0x1680
    || 0x2000 <= n <= 0x200a || n == 0x2028 || n == 0x2029 || n == 0x202f || n == 0x205f || n == 0x3000
  }

  /** Drops leading blanks; a newline among them is an error. */
  function SkipSpace(s: string): Option<string> {
    if s == [] || !IsSpace(s[0]) then Some(s)
    else if s[0] == '\n' then None
    else SkipSpace(s[1..])
  }

  /** Length of the longest digit prefix. */
  function DigitRun(s: string): (n: nat)
    ensures n <= |s| && AllDigits(s[..n])
    ensures n < |s| ==> !IsDigit(s[n])
  {
    if s == [] || !IsDigit(s[0]) then 0 else
      var n := 1 + DigitRun(s[1..]);
      assert s[..n] == [s[0]] + s[1..][..n - 1];
      n
  }

  /** The verb %d into an unsigned integer below the bound: blanks, then at least one digit. */
  function ScanUnsigned(s: string, bound: nat): Option<(nat, string)> {
    match SkipSpace(s)
    case None => None
    case Some(t) =>
      var n := DigitRun(t);
      if n == 0 || Value(t[..n]) >= bound then None else Some((Value(t[..n]), t[n..]))
  }

  const INT_MAX := 0x7fff_ffff_ffff_ffff

  /** The verb %d into an int: as above, with an optional sign. */
  function ScanSigned(s: string): Option<(int, string)> {
    match SkipSpace(s)
    case None => None
    case Some(t) =>
      var negative := t != [] && t[0] == '-';
      var u := if negative || (t != [] && t[0] == '+') then t[1..] else t;
      var n := DigitRun(u);
      if n == 0 then None else
        var v := if negative then -(Value(u[..n]) as int) else Value(u[..n]);
        if -INT_MAX - 1 <= v <= INT_MAX then Some((v, u[n..])) else None
  }

  /** A literal stretch of the format string. */
  function ScanLiteral(s: string, lit: string): Option<string> {
    if lit <= s then Some(s[|lit|..]) else None
  }

  lemma {:induction false} DigitRunOf(p: string, rest: string)
    requires AllDigits(p)
    requires rest == [] || !IsDigit(rest[0])
    ensures DigitRun(p + rest) == |p|
  {
    if p == [] {
      assert p + rest == rest;
    } else {
      assert p[0] in p;
      assert (p + rest)[1..] == p[1..] + rest;
      DigitRunOf(p[1..], rest);
    }
  }

  lemma ScanOfPrint(n: nat, rest: string)
    requires rest == [] || !IsDigit(rest[0])
    ensures forall bound: nat :: n < bound ==> ScanUnsigned(Print(n) + rest, bound) == Some((n, rest))
    ensures n <= INT_MAX ==> ScanSigned(Print(n) + rest) == Some((n, rest))
  {
    var p := Print(n);
    var s := p + rest;
    DigitRunOf(p, rest);
    ValueOfPrint(n);
    assert s[0] == p[0] && p[0] in p;
    assert s[..|p|] == p && s[|p|..] == rest;
  }
}
