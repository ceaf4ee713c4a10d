/** The byte string class (edna_bytestring.cpp).  Its vector is the field `byteString`. */
module ByteString {
  import opened Bytes
  import opened Hex
  import opened Magnitude

  /** The bitwise exclusive or of two numbers of `n` bits. */
  function XorBits(a: nat, b: nat, n: nat): (r: nat)
    ensures r < Pow2(n)
  {
    if n == 0 then 0 else 2 * XorBits(a / 2, b / 2, n - 1) + if a % 2 == b % 2 then 0 else 1
  }

  function XorByte(a: byte, b: byte): byte {
    SmallPowers();
    XorBits(a as nat, b as nat, 8) as byte
  }

  /** Bit `k` of a number. */
  function Bit(v: nat, k: nat): nat {
    if k == 0 then v % 2 else Bit(v / 2, k - 1)
  }

  lemma {:induction false} XorBitsAt(a: nat, b: nat, n: nat, k: nat)
    requires k < n
    ensures Bit(XorBits(a, b, n), k) == (Bit(a, k) + Bit(b, k)) % 2
  {
    var high, bit := XorBits(a / 2, b / 2, n - 1), if a % 2 == b % 2 then 0 else 1;
    assert (2 * high + bit) / 2 == high && (2 * high + bit) % 2 == bit;
    if k > 0 {
      XorBitsAt(a / 2, b / 2, n - 1, k - 1);
    }
  }

  /** Bit by bit, `a ^ b` is one exactly where one of the two is. */
  lemma XorByteBits(a: byte, b: byte, bit: nat)
    requires bit in {1, 2, 4, 8, 16, 32, 64, 128}
    ensures XorByte(a, b) as nat / bit % 2 == if a as nat / bit % 2 == b as nat / bit % 2 then 0 else 1
  {
    SmallPowers();
    var k := if bit == 1 then 0 else if bit == 2 then 1 else if bit == 4 then 2 else if bit == 8 then 3
             else if bit == 16 then 4 else if bit == 32 then 5 else if bit == 64 then 6 else 7;
    XorBitsAt(a as nat, b as nat, 8, k);
    BitOf(a as nat, bit, k);
    BitOf(b as nat, bit, k);
    BitOf(XorByte(a, b) as nat, bit, k);
  }

  lemma {:induction false} BitOf(v: nat, bit: nat, k: nat)
    requires bit == Pow2(k)
    ensures Bit(v, k) == v / bit % 2
  {
    if k > 0 {
      BitOf(v / 2, bit / 2, k - 1);
      Halves(v, bit / 2);
    }
  }

  lemma Halves(v: nat, p: nat)
    requires p > 0
    ensures v / 2 / p == v / (2 * p)
  {
    var q := v / 2 / p;
    var m := p * q;
    assert v / 2 == m + v / 2 % p;
    Doubled(p, q);
    QuotientIs(v, 2 * p, q, v - 2 * m);
  }

  lemma Doubled(p: nat, q: nat)
    ensures (2 * p) * q == 2 * (p * q)
  {
  }

  lemma QuotientIs(n: nat, p: nat, q: nat, r: nat)
    requires p > 0 && n == p * q + r && r < p
    ensures n / p == q
  {
    var d := n / p;
    assert n == p * d + n % p;
    if d < q {
      MulLe(d + 1, q, p);
    } else if d > q {
      MulLe(q + 1, d, p);
    }
  }

  /** The bytes `operator^` returns: as many as both operands have. */
  function Xor(a: seq<byte>, b: seq<byte>): seq<byte> {
    seq(Min(|a|, |b|), (i: nat) requires i < |a| && i < |b| => XorByte(a[i], b[i]))
  }

  /** What is cut off, and what remains, when `split(len)` is applied. */
  function Cut(s: seq<byte>, len: nat): (seq<byte>, seq<byte>) {
    if |s| > len then (s[..len], s[len..]) else (s, [])
  }

  /** The chunks of repeated `split` calls with these lengths, and the remainder. */
  function Chunks(s: seq<byte>, lens: seq<nat>): (seq<seq<byte>>, seq<byte>)
    decreases |lens|
  {
    if lens == [] then ([], s)
    else
      var (chunk, rest) := Cut(s, lens[0]);
      var (chunks, left) := Chunks(rest, lens[1..]);
      ([chunk] + chunks, left)
  }

  /** Splitting loses and reorders nothing, whatever the lengths. */
  lemma {:induction false} ChunksConserve(s: seq<byte>, lens: seq<nat>)
    ensures Concat(Chunks(s, lens).0) + Chunks(s, lens).1 == s
    ensures |Chunks(s, lens).0| == |lens|
    decreases |lens|
  {
    if lens != [] {
      var (chunk, rest) := Cut(s, lens[0]);
      ChunksConserve(rest, lens[1..]);
      var (chunks, left) := Chunks(rest, lens[1..]);
      assert ([chunk] + chunks)[1..] == chunks;
      assert chunk + (Concat(chunks) + left) == s;
    }
  }

  /** Xor with itself wipes a string; xor with the same string twice restores it. */
  lemma XorTwice(a: seq<byte>, b: seq<byte>)
    requires |a| <= |b|
    ensures Xor(a, a) == seq(|a|, (i: nat) => 0)
    ensures Xor(Xor(a, b), b) == a
  {
    forall i | 0 <= i < |a|
      ensures XorByte(a[i], a[i]) == 0 && XorByte(XorByte(a[i], b[i]), b[i]) == a[i]
    {
      XorByteTwice(a[i], b[i]);
    }
  }

  lemma XorByteTwice(a: byte, b: byte)
    ensures XorByte(a, a) == 0 && XorByte(XorByte(a, b), b) == a
  {
    SmallPowers();
    XorBitsTwice(a as nat, b as nat, 8);
  }

  lemma {:induction false} XorBitsTwice(a: nat, b: nat, n: nat)
    requires a < Pow2(n)
    ensures XorBits(a, a, n) == 0
    ensures XorBits(XorBits(a, b, n), b, n) == a
  {
    if n > 0 {
      XorBitsTwice(a / 2, b / 2, n - 1);
      var high, bit := XorBits(a / 2, b / 2, n - 1), if a % 2 == b % 2 then 0 else 1;
      assert (2 * high + bit) / 2 == high && (2 * high + bit) % 2 == bit;
    }
  }

  /** Clearing the bits of a byte below each mask of the loop in `bits`. */
  lemma MaskTests(b: byte)
    ensures (b as bv8) & 0x80 == 0 <==> b < 128
    ensures b < 128 ==> ((b as bv8) & 0x40 == 0 <==> b < 64)
    ensures b < 64 ==> ((b as bv8) & 0x20 == 0 <==> b < 32)
    ensures b < 32 ==> ((b as bv8) & 0x10 == 0 <==> b < 16)
    ensures b < 16 ==> ((b as bv8) & 0x08 == 0 <==> b < 8)
    ensures b < 8 ==> ((b as bv8) & 0x04 == 0 <==> b < 4)
    ensures b < 4 ==> ((b as bv8) & 0x02 == 0 <==> b < 2)
    ensures b < 2 ==> ((b as bv8) & 0x01 == 0 <==> b < 1)
  {
  }

  class ByteString {
    var byteString: seq<byte>

    constructor ()
      ensures byteString == []
    {
      byteString := [];
    }

    constructor FromBytes(bytes: seq<byte>)
      ensures byteString == bytes
    {
      byteString := bytes;
    }

    /** The constructor from text, which is hexadecimal if the caller is careful. */
    constructor FromHex(hexString: string)
      ensures byteString == ParseHex(hexString)
    {
      byteString := [];
      new;
      var hex := Padded(hexString);
      assert hex[0..] == hex;
      var i := 0;
      while i < |hex|
        invariant 0 <= i <= |hex| && (|hex| - i) % 2 == 0
        invariant byteString + ParsePairs(hex[i..]) == ParseHex(hexString)
      {
        ParseMore(byteString, hex, i);
        AppendByte(ByteOf(hex[i], hex[i + 1]));
        i := i + 2;
      }
    }

    /** The constructor from a 64-bit integer: eight bytes, most significant first. */
    constructor FromLong(longValue: nat)
      requires longValue <= SIZE_T_MAX
      ensures |byteString| == 8 && Value(byteString) == longValue
    {
      var setValue: nat := longValue;
      var byteStrIn := new byte[8];
      var i := 0;
      assert Pow2(8 * 0) == 1;
      while i < 8
        invariant 0 <= i <= 8
        invariant longValue == setValue * Pow2(8 * i) + Value(byteStrIn[8 - i..])
      {
        ghost var low := byteStrIn[8 - i..];
        byteStrIn[7 - i] := (setValue % 256) as byte;
        assert byteStrIn[7 - i..] == [(setValue % 256) as byte] + low;
        assert setValue == (setValue / 256) * 256 + setValue % 256;
        ShiftByte(longValue, setValue / 256, (setValue % 256) as byte, low);
        setValue := setValue / 256;
        i := i + 1;
      }
      assert byteStrIn[0..] == byteStrIn[..];
      Pow2Of64();
      NothingAbove(longValue, setValue, Pow2(64), Value(byteStrIn[..]));
      byteString := byteStrIn[..];
    }

    method Resize(newSize: nat)
      modifies this
      ensures byteString == if newSize <= old(|byteString|) then old(byteString[..newSize])
                            else old(byteString) + seq(newSize - old(|byteString|), (i: nat) => 0)
    {
      byteString := if newSize <= |byteString| then byteString[..newSize]
                    else byteString + seq(newSize - |byteString|, (i: nat) => 0);
    }

    /** `wipe`: a string of `newSize` zero bytes. */
    method Wipe(newSize: nat)
      modifies this
      ensures byteString == seq(newSize, (i: nat) => 0)
    {
      Resize(newSize);
      byteString := seq(|byteString|, (i: nat) => 0);
    }

    method AppendByte(b: byte)
      modifies this
      ensures byteString == old(byteString) + [b]
    {
      byteString := byteString + [b];
    }

    method AppendShort(value: uint16)
      modifies this
      ensures byteString == old(byteString) + [(value / 256) as byte, (value % 256) as byte]
    {
      AppendByte((value / 256) as byte);
      AppendByte((value % 256) as byte);
    }

    /** `operator+=`, also when a string is appended to itself: the string is enlarged first and
        the operand, perhaps enlarged with it, is then copied. */
    method Append(append: ByteString)
      modifies this
      ensures byteString == old(byteString) + old(append.byteString)
    {
      var curLen := |byteString|;
      var toAdd := |append.byteString|;
      Resize(curLen + toAdd);
      var i := 0;
      while i < toAdd
        invariant 0 <= i <= toAdd && |byteString| == curLen + toAdd && |append.byteString| >= toAdd
        invariant byteString[..curLen] == old(byteString)
        invariant append.byteString[..toAdd] == old(append.byteString)
        invariant byteString[curLen..curLen + i] == old(append.byteString)[..i]
      {
        var b := append.byteString[i];
        assert b == append.byteString[..toAdd][i];
        Placed(byteString, curLen, i, b, toAdd);
        byteString := byteString[curLen + i := b];
        i := i + 1;
      }
      assert byteString == byteString[..curLen] + byteString[curLen..];
    }

    /** `operator^=`, also on itself: the common prefix is combined, the rest stays. */
    method XorAssign(rhs: ByteString)
      modifies this
      ensures byteString == Xor(old(byteString), old(rhs.byteString))
                          + old(byteString)[Min(old(|byteString|), old(|rhs.byteString|))..]
    {
      var xorLen := Min(|byteString|, |rhs.byteString|);
      var i := 0;
      while i < xorLen
        invariant 0 <= i <= xorLen && |byteString| == old(|byteString|) && |rhs.byteString| == old(|rhs.byteString|)
        invariant forall k | 0 <= k < i :: byteString[k] == XorByte(old(byteString)[k], old(rhs.byteString)[k])
        invariant byteString[i..] == old(byteString)[i..]
        invariant rhs.byteString[i..] == old(rhs.byteString)[i..]
      {
        assert byteString[i..][0] == old(byteString)[i] && rhs.byteString[i..][0] == old(rhs.byteString)[i];
        byteString := byteString[i := XorByte(byteString[i], rhs.byteString[i])];
        i := i + 1;
      }
      assert byteString == byteString[..xorLen] + byteString[xorLen..];
    }

    /** `substr` does not change the string. */
    method SubString(start: nat, len: nat) returns (r: ByteString)
      ensures fresh(r) && r.byteString == Substr(byteString, start, len)
    {
      r := new ByteString.FromBytes(Substr(byteString, start, len));
    }

    /** `split`: the cut-off part is returned and the rest moved down in place. */
    method Split(len: nat) returns (rv: ByteString)
      requires |byteString| <= SIZE_T_MAX
      modifies this
      ensures fresh(rv) && (rv.byteString, byteString) == Cut(old(byteString), len)
      ensures rv.byteString + byteString == old(byteString) && |rv.byteString| == Min(len, old(|byteString|))
    {
      rv := new ByteString.FromBytes(Substr(byteString, 0, len));
      assert rv.byteString == Cut(old(byteString), len).0;
      var newSize := if |byteString| > len then |byteString| - len else 0;
      var i := 0;
      while i < newSize
        invariant 0 <= i <= newSize && |byteString| == old(|byteString|)
        invariant forall k | 0 <= k < i :: byteString[k] == old(byteString)[k + len]
        invariant byteString[i..] == old(byteString)[i..]
        invariant rv.byteString == Cut(old(byteString), len).0
      {
        assert byteString[i..][len] == old(byteString)[i + len];
        byteString := byteString[i := byteString[i + len]];
        i := i + 1;
      }
      Resize(newSize);
      assert byteString == Cut(old(byteString), len).1;
    }

    method ToHex() returns (rv: string)
      ensures rv == HexStr(byteString)
    {
      rv := "";
      var i := 0;
      while i < |byteString|
        invariant 0 <= i <= |byteString| && rv + HexStr(byteString[i..]) == HexStr(byteString)
      {
        assert byteString[i..][1..] == byteString[i + 1..];
        rv := rv + [HexDigit(byteString[i] as nat / 16), HexDigit(byteString[i] as nat % 16)];
        i := i + 1;
      }
    }

    /** `operator<`: through the text, yet exactly the order of the bytes. */
    method LessThan(compareTo: ByteString) returns (less: bool)
      ensures less <==> BytesLess(byteString, compareTo.byteString)
    {
      var s := ToHex();
      var t := compareTo.ToHex();
      less := TextLess(s, t);
      TextOrderIsByteOrder(byteString, compareTo.byteString);
    }

    /** `bits`: the length in bits of the number the string denotes. */
    method Bits() returns (bits: nat)
      ensures bits == BitLength(Value(byteString))
      ensures bits > 0 ==> Pow2(bits - 1) <= Value(byteString) < Pow2(bits)
    {
      bits := |byteString| * 8;
      if bits == 0 {
        return;
      }
      var i := 0;
      while i < |byteString|
        invariant 0 <= i <= |byteString| && bits == 8 * (|byteString| - i)
        invariant forall k | 0 <= k < i :: byteString[k] == 0
      {
        var hit;
        bits, hit := ScanByte(byteString[i], bits);
        if hit {
          LeadingZeros(byteString, i);
          LeadingByte(byteString[i..], bits - 8 * (|byteString| - i - 1));
          LengthBetween(Value(byteString), bits);
          return;
        }
        i := i + 1;
      }
      LeadingZeros(byteString, |byteString|);
    }

    /** The inner loop of `bits`: one bit less for every leading zero of `b`. */
    static method ScanByte(b: byte, bits0: nat) returns (bits: nat, hit: bool)
      requires bits0 >= 8
      ensures !hit ==> b == 0 && bits == bits0 - 8
      ensures hit ==> bits0 - 8 < bits <= bits0 && Pow2(bits - (bits0 - 8) - 1) <= b as nat < Pow2(bits - (bits0 - 8))
    {
      bits := bits0;
      MaskTests(b);
      SmallPowers();
      var mask: bv8 := 0x80;
      while mask > 0
        invariant
          || (mask == 0x80 && bits == bits0)
          || (mask == 0x40 && bits == bits0 - 1 && b < 128)
          || (mask == 0x20 && bits == bits0 - 2 && b < 64)
          || (mask == 0x10 && bits == bits0 - 3 && b < 32)
          || (mask == 0x08 && bits == bits0 - 4 && b < 16)
          || (mask == 0x04 && bits == bits0 - 5 && b < 8)
          || (mask == 0x02 && bits == bits0 - 6 && b < 4)
          || (mask == 0x01 && bits == bits0 - 7 && b < 2)
          || (mask == 0x00 && bits == bits0 - 8 && b < 1)
        decreases mask
      {
        if (b as bv8) & mask == 0 {
          bits := bits - 1;
        } else {
          return bits, true;
        }
        mask := mask >> 1;
      }
      hit := false;
    }
  }

  /** The next two characters of a text are its next byte. */
  lemma ParseMore(done: seq<byte>, hex: string, i: nat)
    requires i < |hex| && (|hex| - i) % 2 == 0
    ensures i + 2 <= |hex|
    ensures (done + [ByteOf(hex[i], hex[i + 1])]) + ParsePairs(hex[i + 2..]) == done + ParsePairs(hex[i..])
  {
    assert hex[i..][2..] == hex[i + 2..];
    Assoc(done, [ByteOf(hex[i], hex[i + 1])], ParsePairs(hex[i + 2..]));
  }

  /** A byte is placed behind the `i` that have been placed after `start`. */
  lemma Placed(s: seq<byte>, start: nat, i: nat, b: byte, len: nat)
    requires start + i < |s| && len <= |s|
    ensures var t := s[start + i := b];
      && t[..start] == s[..start] && t[start..start + i + 1] == s[start..start + i] + [b]
      && (len <= start ==> t[..len] == s[..len])
  {
  }

  /** One round of the conversion moves a byte from the value to the string. */
  lemma ShiftByte(longValue: nat, q: nat, r: byte, low: seq<byte>)
    requires longValue == (q * 256 + r as nat) * Pow2(8 * |low|) + Value(low)
    ensures longValue == q * Pow2(8 * (|low| + 1)) + Value([r] + low)
  {
    Pow2Next(|low|);
    ValuePrepend(r, low);
    Regroup(longValue, q, r as nat, Pow2(8 * |low|), Pow2(8 * (|low| + 1)), Value(low), Value([r] + low));
  }

  lemma Pow2Next(k: nat)
    ensures Pow2(8 * (k + 1)) == 256 * Pow2(8 * k)
  {
    Pow2Byte(8 * k);
  }

  lemma ValuePrepend(b: byte, low: seq<byte>)
    ensures Value([b] + low) == b as nat * Pow2(8 * |low|) + Value(low)
  {
    assert ([b] + low)[1..] == low;
  }

  lemma Regroup(x: nat, q: nat, r: nat, p: nat, p256: nat, v: nat, w: nat)
    requires x == (q * 256 + r) * p + v && p256 == 256 * p && w == r * p + v
    ensures x == q * p256 + w
  {
    Distribute(q, r, p);
  }

  lemma Distribute(q: nat, r: nat, p: nat)
    ensures (q * 256 + r) * p == q * (256 * p) + r * p
  {
  }

  /** After eight rounds nothing is left of a 64-bit value. */
  lemma NothingAbove(x: nat, q: nat, p: nat, v: nat)
    requires x < p && x == q * p + v
    ensures q == 0
  {
  }

  lemma Pow2Of64()
    ensures Pow2(64) == 0x1_0000_0000_0000_0000
  {
    Pow2Of16();
    Pow2Sum(16, 16);
    Pow2Sum(32, 32);
  }

  lemma Pow2Of16()
    ensures Pow2(16) == 65536
  {
    SmallPowers();
    Pow2Sum(8, 8);
  }

  /** Strings made from integers compare as the integers do, and have their lengths in bits. */
  method CompareLongs(n: nat, m: nat) returns (less: bool, bits: nat)
    requires n <= SIZE_T_MAX && m <= SIZE_T_MAX
    ensures less <==> n < m
    ensures bits == BitLength(n)
  {
    var a := new ByteString.FromLong(n);
    var b := new ByteString.FromLong(m);
    less := a.LessThan(b);
    OrderIsNumeric(a.byteString, b.byteString);
    bits := a.Bits();
  }

  /** `operator^` combines as many bytes as both operands have and leaves them alone. */
  method XorOf(lhs: ByteString, rhs: ByteString) returns (rv: ByteString)
    ensures fresh(rv) && rv.byteString == Xor(lhs.byteString, rhs.byteString)
  {
    var xorLen := Min(|lhs.byteString|, |rhs.byteString|);
    rv := new ByteString();
    var i := 0;
    while i < xorLen
      invariant 0 <= i <= xorLen && fresh(rv) && rv.byteString == Xor(lhs.byteString, rhs.byteString)[..i]
    {
      rv.AppendByte(XorByte(lhs.byteString[i], rhs.byteString[i]));
      i := i + 1;
    }
  }

  /** The test before the delay: with a `size_t` that wraps below two bytes, it holds exactly of
      responses that end in 9000. */
  lemma DelayTest(r: seq<byte>)
    requires |r| < SIZE_T_MAX - 1
    ensures Substr(r, (|r| - 2) % (SIZE_T_MAX + 1), SIZE_T_MAX) == [0x90, 0x00]
      <==> |r| >= 2 && r[|r| - 2..] == [0x90, 0x00]
  {
    if |r| >= 2 {
      SubstrIsTail(r, |r| - 2);
    }
  }
}
