/** Octets and big-endian natural numbers. */
module Bytes {

  type Byte = x: int | 0 <= x < 256

  function Pow256(k: nat): (p: nat)
    ensures p > 0
  {
    if k == 0 then 1 else 256 * Pow256(k - 1)
  }

  /** The number written big-endian in `b`; leading zeros do not matter. */
  function Value(b: seq<Byte>): nat {
    if b == [] then 0 else Value(b[..|b| - 1]) * 256 + b[|b| - 1]
  }

  /** The shortest big-endian writing of `n`; zero is the empty sequence. */
  function Magnitude(n: nat): (b: seq<Byte>)
    ensures b == [] <==> n == 0
    ensures n > 0 ==> b[0] != 0
  {
    if n == 0 then [] else Magnitude(n / 256) + [n % 256]
  }

  function Zeros(k: nat): (z: seq<Byte>)
    ensures |z| == k
  {
    seq(k, _ => 0)
  }

  /** Left padding with zero octets to a fixed width. */
  function PadLeft(b: seq<Byte>, width: nat): (p: seq<Byte>)
    requires |b| <= width
    ensures |p| == width
  {
    Zeros(width - |b|) + b
  }

  lemma ValueOfOne(a: Byte)
    ensures Value([a]) == a
  {
    assert [a][..0] == [];
  }

  lemma ValueOfTwo(a: Byte, b: Byte)
    ensures Value([a, b]) == 256 * (a as int) + b as int
  {
    assert [a, b][..1] == [a];
    ValueOfOne(a);
  }

  lemma {:induction false} ValueOfMagnitude(n: nat)
    ensures Value(Magnitude(n)) == n
  {
    if n > 0 {
      ValueOfMagnitude(n / 256);
      var b := Magnitude(n);
      assert b[..|b| - 1] == Magnitude(n / 256);
    }
  }

  lemma {:induction false} MagnitudeOfValue(b: seq<Byte>)
    requires b != [] ==> b[0] != 0
    ensures Magnitude(Value(b)) == b
  {
    if b != [] {
      var front := b[..|b| - 1];
      MagnitudeOfValue(front);
      assert Value(b) / 256 == Value(front) && Value(b) % 256 == b[|b| - 1];
      if front == [] {
        assert b == [b[0]];
      } else {
        assert Magnitude(Value(b)) == Magnitude(Value(front)) + [b[|b| - 1]];
      }
    }
  }

  lemma {:induction false} ValueIgnoresLeadingZeros(k: nat, b: seq<Byte>)
    ensures Value(Zeros(k) + b) == Value(b)
  {
    if b != [] {
      var p := Zeros(k) + b;
      assert p[..|p| - 1] == Zeros(k) + b[..|b| - 1];
      ValueIgnoresLeadingZeros(k, b[..|b| - 1]);
    } else if k > 0 {
      var p := Zeros(k) + b;
      assert p[..|p| - 1] == Zeros(k - 1) + b;
      ValueIgnoresLeadingZeros(k - 1, b);
    } else {
      assert Zeros(k) + b == b;
    }
  }

  /** A number fits in `k` octets exactly when its shortest writing does. */
  lemma {:induction false} MagnitudeWidth(n: nat, k: nat)
    ensures n < Pow256(k) <==> |Magnitude(n)| <= k
  {
    if n > 0 && k > 0 {
      MagnitudeWidth(n / 256, k - 1);
      assert n < 256 * Pow256(k - 1) <==> n / 256 < Pow256(k - 1);
    }
  }

  /** Fixed-width writing and reading are inverse, in both directions. */
  lemma FixedWidthRoundTrip(n: nat, width: nat)
    requires n < Pow256(width)
    ensures |Magnitude(n)| <= width
    ensures Value(PadLeft(Magnitude(n), width)) == n
  {
    MagnitudeWidth(n, width);
    ValueIgnoresLeadingZeros(width - |Magnitude(n)|, Magnitude(n));
    ValueOfMagnitude(n);
  }
}
