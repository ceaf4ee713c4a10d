/** The number a byte string denotes, most significant byte first, and its length in bits. */
module Magnitude {
  import opened Bytes
  import opened Hex

  function Pow2(n: nat): (p: nat)
    ensures p > 0
  {
    if n == 0 then 1 else 2 * Pow2(n - 1)
  }

  function Value(s: seq<byte>): nat {
    if s == [] then 0 else s[0] as nat * Pow2(8 * |s[1..]|) + Value(s[1..])
  }

  lemma MulLe(a: nat, b: nat, p: nat)
    requires a <= b
    ensures a * p <= b * p
  {
  }

  lemma {:induction false} Pow2Sum(m: nat, n: nat)
    ensures Pow2(m + n) == Pow2(m) * Pow2(n)
  {
    if m > 0 {
      Pow2Sum(m - 1, n);
      assert Pow2(m + n) == 2 * Pow2(m + n - 1);
      assert 2 * (Pow2(m - 1) * Pow2(n)) == (2 * Pow2(m - 1)) * Pow2(n);
    }
  }

  lemma Pow2Byte(n: nat)
    ensures Pow2(n + 8) == 256 * Pow2(n)
  {
    Pow2Sum(n, 8);
    assert Pow2(8) == 2 * Pow2(7) == 4 * Pow2(6) == 8 * Pow2(5) == 16 * Pow2(4);
    assert Pow2(4) == 2 * Pow2(3) == 4 * Pow2(2) == 8 * Pow2(1) == 16;
  }

  /** Powers of two up to a byte. */
  lemma SmallPowers()
    ensures Pow2(0) == 1 && Pow2(1) == 2 && Pow2(2) == 4 && Pow2(3) == 8 && Pow2(4) == 16
    ensures Pow2(5) == 32 && Pow2(6) == 64 && Pow2(7) == 128 && Pow2(8) == 256
  {
    assert Pow2(4) == 2 * Pow2(3) == 4 * Pow2(2);
    assert Pow2(8) == 2 * Pow2(7) == 4 * Pow2(6) == 8 * Pow2(5) == 16 * Pow2(4);
  }

  lemma {:induction false} ValueBound(s: seq<byte>)
    ensures Value(s) < Pow2(8 * |s|)
  {
    if s != [] {
      ValueBound(s[1..]);
      Pow2Byte(8 * |s[1..]|);
      MulLe(s[0] as nat, 255, Pow2(8 * |s[1..]|));
    }
  }

  /** Leading zero bytes do not count. */
  lemma {:induction false} LeadingZeros(s: seq<byte>, i: nat)
    requires i <= |s| && forall k | 0 <= k < i :: s[k] == 0
    ensures Value(s) == Value(s[i..])
  {
    if i > 0 {
      LeadingZeros(s[1..], i - 1);
      assert s[1..][i - 1..] == s[i..];
    }
  }

  /** The leading byte fixes the magnitude: with `b` between 2^(k-1) and 2^k the whole string
      lies between the same powers, shifted by the bytes that follow. */
  lemma LeadingByte(s: seq<byte>, k: nat)
    requires s != [] && 0 < k <= 8 && Pow2(k - 1) <= s[0] as nat < Pow2(k)
    ensures Pow2(8 * (|s| - 1) + k - 1) <= Value(s) < Pow2(8 * (|s| - 1) + k)
  {
    var r := 8 * |s[1..]|;
    ValueBound(s[1..]);
    Pow2Sum(k - 1, r);
    Pow2Sum(k, r);
    LeadingProduct(s[0] as nat, Pow2(k - 1), Pow2(k), Pow2(r), Value(s[1..]));
  }

  lemma LeadingProduct(b: nat, low: nat, high: nat, p: nat, v: nat)
    requires low <= b < high && v < p
    ensures low * p <= b * p + v < high * p
  {
    MulLe(low, b, p);
    MulLe(b + 1, high, p);
  }

  /** On strings of one length the byte order, and hence the registry's order, is the order of
      the numbers; and the number determines the string. */
  lemma {:induction false} OrderIsNumeric(a: seq<byte>, b: seq<byte>)
    requires |a| == |b|
    ensures BytesLess(a, b) <==> Value(a) < Value(b)
    ensures a == b <==> Value(a) == Value(b)
  {
    if a != [] {
      var p := Pow2(8 * |a[1..]|);
      OrderIsNumeric(a[1..], b[1..]);
      ValueBound(a[1..]);
      ValueBound(b[1..]);
      assert a == [a[0]] + a[1..] && b == [b[0]] + b[1..];
      if a[0] < b[0] {
        LeadingProduct(a[0] as nat, 0, b[0] as nat, p, Value(a[1..]));
      } else if b[0] < a[0] {
        LeadingProduct(b[0] as nat, 0, a[0] as nat, p, Value(b[1..]));
      }
    }
  }

  // ----- Length in bits ----------------------------------------------------------------------

  function BitLength(v: nat): nat {
    if v == 0 then 0 else 1 + BitLength(v / 2)
  }

  /** The powers of two around a number tell its length. */
  lemma {:induction false} LengthBetween(v: nat, k: nat)
    requires k > 0 && Pow2(k - 1) <= v < Pow2(k)
    ensures BitLength(v) == k
  {
    if k > 1 {
      LengthBetween(v / 2, k - 1);
    } else {
      assert Pow2(0) == 1 && v == 1 && BitLength(0) == 0;
    }
  }
}
