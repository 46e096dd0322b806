/**
 The P-256 coordinates of a JWK (internal/crypto/keys.go, section 6.2.1.2 of RFC 7518):
 the minimal big-endian bytes of the coordinate, zero-padded to the curve's width.
 */
module Jwk {
  import opened Basics
  import Base64

  /** big.Int.Bytes: the shortest big-endian representation. */
  function BigEndian(x: nat): (b: seq<Byte>) {
    if x == 0 then [] else BigEndian(x / 256) + [x % 256]
  }

  function ValueOf(b: seq<Byte>): nat {
    if b == [] then 0 else 256 * ValueOf(b[..|b| - 1]) + b[|b| - 1]
  }

  function Pow256(n: nat): (p: nat)
    ensures p >= 1
  {
    if n == 0 then 1 else 256 * Pow256(n - 1)
  }

  function Zeros(n: nat): (z: seq<Byte>)
    ensures |z| == n
  {
    seq(n, _ => 0)
  }

  function ZeroPad(b: seq<Byte>, n: nat): seq<Byte> {
    if |b| >= n then b else Zeros(n - |b|) + b
  }

  /** zeroPad on buffers: a long enough input is returned as it is, otherwise the copy is fresh. */
  method PadBuffer(b: array<Byte>, n: nat) returns (padded: array<Byte>)
    ensures padded[..] == ZeroPad(b[..], n)
    ensures if b.Length >= n then padded == b else fresh(padded)
  {
    if b.Length >= n {
      return b;
    }
    padded := new Byte[n](_ => 0);
    var gap := n - b.Length;
    for i := 0 to b.Length
      invariant padded[..gap] == Zeros(gap)
      invariant padded[gap..gap + i] == b[..i]
    {
      padded[gap + i] := b[i];
    }
    assert padded[..] == padded[..gap] + padded[gap..];
  }

  lemma {:induction false} ValueOfZeros(n: nat)
    ensures ValueOf(Zeros(n)) == 0
  {
    if n > 0 {
      assert Zeros(n)[..n - 1] == Zeros(n - 1);
      ValueOfZeros(n - 1);
    }
  }

  lemma {:induction false} ValueBound(b: seq<Byte>)
    ensures ValueOf(b) < Pow256(|b|)
  {
    if b != [] { ValueBound(b[..|b| - 1]); }
  }

  lemma {:induction false} BigEndianLength(x: nat, n: nat)
    ensures |BigEndian(x)| <= n <==> x < Pow256(n)
    decreases x
  {
    if x != 0 && n != 0 {
      BigEndianLength(x / 256, n - 1);
    }
  }

  lemma {:induction false} ValueOfPadded(x: nat, gap: nat)
    ensures ValueOf(Zeros(gap) + BigEndian(x)) == x
    decreases x
  {
    var b := Zeros(gap) + BigEndian(x);
    if x == 0 {
      assert b == Zeros(gap);
      ValueOfZeros(gap);
    } else {
      assert b[..|b| - 1] == Zeros(gap) + BigEndian(x / 256);
      ValueOfPadded(x / 256, gap);
    }
  }

  /** The padded bytes always denote x, and have the wanted width exactly when x fits it. */
  lemma PaddedCoordinate(x: nat, n: nat)
    ensures ValueOf(ZeroPad(BigEndian(x), n)) == x
    ensures |ZeroPad(BigEndian(x), n)| == n <==> x < Pow256(n)
    ensures n > 0 ==> ZeroPad(BigEndian(x), n)[|ZeroPad(BigEndian(x), n)| - 1] == x % 256
  {
    var b := BigEndian(x);
    BigEndianLength(x, n);
    ValueOfPadded(x, if |b| >= n then 0 else n - |b|);
    assert Zeros(0) + b == b;
  }

  lemma BigEndianShift(v: nat, last: Byte)
    requires 256 * v + last != 0
    ensures BigEndian(256 * v + last) == BigEndian(v) + [last]
  {
    assert (256 * v + last) / 256 == v && (256 * v + last) % 256 == last;
  }

  /** Padding commutes with appending the lowest byte. */
  lemma PadShift(v: nat, last: Byte, n: nat)
    requires |BigEndian(v)| <= n
    ensures ZeroPad(BigEndian(256 * v + last), n + 1) == ZeroPad(BigEndian(v), n) + [last]
  {
    hide BigEndian;
    if 256 * v + last == 0 {
      assert BigEndian(0) == [] by { BigEndianLength(0, 0); }
      assert ZeroPad([], n + 1) == ZeroPad([], n) + [0];
    } else {
      BigEndianShift(v, last);
      var k := n - |BigEndian(v)|;
      assert Zeros(k) + (BigEndian(v) + [last]) == (Zeros(k) + BigEndian(v)) + [last];
      assert ZeroPad(BigEndian(v), n) == Zeros(k) + BigEndian(v);
    }
  }

  /** They are the only n bytes that do. */
  lemma {:induction false} PaddedUnique(b: seq<Byte>)
    ensures ZeroPad(BigEndian(ValueOf(b)), |b|) == b
  {
    hide BigEndian, ZeroPad;
    if b == [] {
      PaddedCoordinate(0, 0);
    } else {
      var front, last := b[..|b| - 1], b[|b| - 1];
      PaddedUnique(front);
      ValueBound(front);
      BigEndianLength(ValueOf(front), |front|);
      PadShift(ValueOf(front), last, |front|);
      assert b == front + [last];
    }
  }

  /** The x and y members: base64url of the padded coordinate. */
  function CoordinateField(x: nat, width: nat): string {
    Base64.Encode(Base64.Url, ZeroPad(BigEndian(x), width))
  }

  /** A reader of the JWK recovers the coordinate, from exactly the width the standard asks for. */
  lemma CoordinateRoundTrip(x: nat, width: nat)
    requires x < Pow256(width)
    ensures var field := Base64.Decode(Base64.Url, CoordinateField(x, width));
            field.Some? && |field.value| == width && ValueOf(field.value) == x
  {
    PaddedCoordinate(x, width);
    Base64.DecodeEncode(Base64.Url, ZeroPad(BigEndian(x), width));
  }
}
