/** Hexadecimal text of byte strings: the codec, and the order it induces on registry keys. */
module Hex {
  import opened Bytes

  function HexDigit(n: nat): char
    requires n < 16
  {
    if n < 10 then '0' + n as char else 'A' + (n - 10) as char
  }

  predicate IsHexDigit(c: char) {
    '0' <= c <= '9' || 'a' <= c <= 'f' || 'A' <= c <= 'F'
  }

  function DigitValue(c: char): (n: nat)
    requires IsHexDigit(c)
    ensures n < 16
  {
    if c <= '9' then (c - '0') as nat
    else if c <= 'F' then (c - 'A') as nat + 10
    else (c - 'a') as nat + 10
  }

  predicate IsHex(s: string) {
    forall c | c in s :: IsHexDigit(c)
  }

  function Upper(s: string): string {
    seq(|s|, (i: nat) requires i < |s| => if 'a' <= s[i] <= 'f' then s[i] - 'a' + 'A' else s[i])
  }

  /** "%02X" of every byte. */
  function HexStr(s: seq<byte>): string {
    if s == [] then ""
    else [HexDigit(s[0] as nat / 16), HexDigit(s[0] as nat % 16)] + HexStr(s[1..])
  }

  /** Text of odd length is read as if it started with a zero. */
  function Padded(s: string): string {
    if |s| % 2 != 0 then "0" + s else s
  }

  predicate IsSpace(c: char) {
    c in {' ', '\t', '\n', '\U{000B}', '\U{000C}', '\r'}
  }

  /** `strtoul` of two characters, base 16, cut to a byte: white space or a sign may come first,
      the number ends at the first character that is no digit, and without digits it is 0.  (The
      prefix 0x leaves no room for a digit and counts as the digit 0.) */
  function ByteOf(hi: char, lo: char): byte {
    if IsHexDigit(hi) then
      if IsHexDigit(lo) then (DigitValue(hi) * 16 + DigitValue(lo)) as byte else DigitValue(hi) as byte
    else if !IsHexDigit(lo) || !(IsSpace(hi) || hi == '+' || hi == '-') then 0
    else if hi == '-' then ((256 - DigitValue(lo)) % 256) as byte
    else DigitValue(lo) as byte
  }

  function ParsePairs(s: string): seq<byte>
    requires |s| % 2 == 0
  {
    if s == "" then [] else [ByteOf(s[0], s[1])] + ParsePairs(s[2..])
  }

  function ParseHex(s: string): seq<byte> {
    ParsePairs(Padded(s))
  }

  // ----- `strtoul` ---------------------------------------------------------------------------

  function SkipSpaces(s: string): string {
    if s != "" && IsSpace(s[0]) then SkipSpaces(s[1..]) else s
  }

  /** The number a text begins with, behind the digits that make up `n`. */
  function Number(s: string, n: nat): nat {
    if s == "" || !IsHexDigit(s[0]) then n else Number(s[1..], 16 * n + DigitValue(s[0]))
  }

  /** White space, a sign, 0x if a digit follows, and then as many digits as there are; a negative
      number wraps around. */
  function Strtoul(s: string): nat {
    var text := SkipSpaces(s);
    var digits := if text != "" && text[0] in {'+', '-'} then text[1..] else text;
    var hex := |digits| > 2 && digits[0] == '0' && digits[1] in {'x', 'X'} && IsHexDigit(digits[2]);
    var n := Number(if hex then digits[2..] else digits, 0);
    if text != "" && text[0] == '-' then (SIZE_T_MAX + 1 - n) % (SIZE_T_MAX + 1) else n % (SIZE_T_MAX + 1)
  }

  /** What the constructor makes of any two characters is what `strtoul` does, cut to a byte. */
  lemma ByteOfIsStrtoul(hi: char, lo: char)
    ensures ByteOf(hi, lo) as nat == Strtoul([hi, lo]) % 256
  {
    Tails(hi, lo);
    if IsSpace(hi) {
      AfterSpace(hi, lo);
    } else if hi in {'+', '-'} {
      AfterSign(hi, lo);
    } else {
      AtOnce(hi, lo);
    }
  }

  lemma AfterSign(hi: char, lo: char)
    requires hi in {'+', '-'}
    ensures ByteOf(hi, lo) as nat == Strtoul([hi, lo]) % 256
  {
    var n := if IsHexDigit(lo) then DigitValue(lo) else 0;
    SignedDigit(hi, lo);
    Negated(n);
  }

  lemma SignedDigit(hi: char, lo: char)
    requires hi in {'+', '-'}
    ensures var n := if IsHexDigit(lo) then DigitValue(lo) else 0;
      Strtoul([hi, lo]) == if hi == '-' then (SIZE_T_MAX + 1 - n) % (SIZE_T_MAX + 1) else n
  {
    assert SkipSpaces([hi, lo]) == [hi, lo];
    assert [hi, lo][1..] == [lo];
    OneDigit(lo, 0);
  }

  lemma Negated(n: nat)
    requires n < 16
    ensures (SIZE_T_MAX + 1 - n) % (SIZE_T_MAX + 1) % 256 == (256 - n) % 256
  {
  }

  lemma AtOnce(hi: char, lo: char)
    requires !IsSpace(hi) && hi !in {'+', '-'}
    ensures ByteOf(hi, lo) as nat == Strtoul([hi, lo]) % 256
  {
    ShortNumbers(hi, lo);
    assert SkipSpaces([hi, lo]) == [hi, lo];
    assert Strtoul([hi, lo]) == Number([hi, lo], 0) % (SIZE_T_MAX + 1);
  }

  lemma Tails(hi: char, lo: char)
    ensures [hi, lo][1..] == [lo] && [lo][1..] == ""
  {
  }

  lemma AfterSpace(hi: char, lo: char)
    requires IsSpace(hi) && SkipSpaces([hi, lo]) == SkipSpaces([lo])
    ensures ByteOf(hi, lo) as nat == Strtoul([hi, lo]) % 256
  {
    ShortNumbers(hi, lo);
    Tails(hi, lo);
    assert SkipSpaces("") == "" && Number("", 0) == 0;
    assert SkipSpaces([lo]) == if IsSpace(lo) then SkipSpaces("") else [lo];
  }

  lemma ShortNumbers(hi: char, lo: char)
    ensures Number([lo], 0) == if IsHexDigit(lo) then DigitValue(lo) else 0
    ensures Number([hi, lo], 0) ==
      if !IsHexDigit(hi) then 0
      else if IsHexDigit(lo) then 16 * DigitValue(hi) + DigitValue(lo)
      else DigitValue(hi)
  {
    Tails(hi, lo);
    assert Number("", 0) == 0;
    OneDigit(lo, 0);
    if IsHexDigit(hi) {
      OneDigit(lo, DigitValue(hi));
      assert Number([hi, lo], 0) == Number([hi, lo][1..], DigitValue(hi));
    }
  }

  lemma OneDigit(c: char, n: nat)
    ensures Number([c], n) == if IsHexDigit(c) then 16 * n + DigitValue(c) else n
  {
    assert [c][1..] == "";
    if IsHexDigit(c) {
      assert Number([c], n) == Number("", 16 * n + DigitValue(c));
    }
  }

  lemma {:induction false} HexStrShape(s: seq<byte>)
    ensures |HexStr(s)| == 2 * |s| && IsHex(HexStr(s))
    ensures forall c | c in HexStr(s) :: '0' <= c <= '9' || 'A' <= c <= 'F'
  {
    if s != [] {
      HexStrShape(s[1..]);
    }
  }

  /** Parsing what was printed gives the bytes back. */
  lemma {:induction false} ParseInvertsPrint(s: seq<byte>)
    ensures IsHex(HexStr(s)) && ParseHex(HexStr(s)) == s
  {
    HexStrShape(s);
    if s != [] {
      ParseInvertsPrint(s[1..]);
      HexStrShape(s[1..]);
      assert HexStr(s)[2..] == HexStr(s[1..]);
      ByteOfDigits(s[0]);
    }
  }

  lemma ByteOfDigits(b: byte)
    ensures ByteOf(HexDigit(b as nat / 16), HexDigit(b as nat % 16)) == b
  {
  }

  /** Printing what was parsed gives the text back in upper case, behind a zero if its length is
      odd. */
  lemma PrintInvertsParse(s: string)
    requires IsHex(s)
    ensures |HexStr(ParseHex(s))| == |s| + |s| % 2
    ensures |s| % 2 == 1 ==> HexStr(ParseHex(s))[0] == '0'
    ensures forall i | 0 <= i < |s| ::
      HexStr(ParseHex(s))[i + |s| % 2] == if 'a' <= s[i] <= 'f' then s[i] - 'a' + 'A' else s[i]
  {
    PaddedIsHex(s);
    PrintPairs(Padded(s));
    UpperPadded(s);
  }

  lemma PaddedIsHex(s: string)
    requires IsHex(s)
    ensures IsHex(Padded(s)) && |Padded(s)| == |s| + |s| % 2
  {
    assert forall c | c in Padded(s) :: c == '0' || c in s;
  }

  lemma UpperPadded(s: string)
    ensures var t := Upper(Padded(s));
      && |t| == |s| + |s| % 2 && (|s| % 2 == 1 ==> t[0] == '0')
      && forall i | 0 <= i < |s| :: t[i + |s| % 2] == if 'a' <= s[i] <= 'f' then s[i] - 'a' + 'A' else s[i]
  {
  }

  lemma {:induction false} PrintPairs(s: string)
    requires IsHex(s) && |s| % 2 == 0
    ensures HexStr(ParsePairs(s)) == Upper(s)
  {
    if s != "" {
      assert s[0] in s && s[1] in s;
      assert forall c | c in s[2..] :: c in s;
      PrintPairs(s[2..]);
      PrintDigits(s[0], s[1]);
      PrintOne(ByteOf(s[0], s[1]), ParsePairs(s[2..]));
      UpperSplit(s);
    }
  }

  lemma UpperSplit(s: string)
    requires |s| >= 2
    ensures Upper(s) == Upper([s[0], s[1]]) + Upper(s[2..])
  {
  }

  lemma PrintOne(b: byte, rest: seq<byte>)
    ensures HexStr([b] + rest) == [HexDigit(b as nat / 16), HexDigit(b as nat % 16)] + HexStr(rest)
  {
    assert ([b] + rest)[1..] == rest;
  }

  lemma PrintDigits(hi: char, lo: char)
    requires IsHexDigit(hi) && IsHexDigit(lo)
    ensures var b := ByteOf(hi, lo) as nat; [HexDigit(b / 16), HexDigit(b % 16)] == Upper([hi, lo])
  {
    PrintDigit(hi);
    PrintDigit(lo);
  }

  lemma PrintDigit(c: char)
    requires IsHexDigit(c)
    ensures HexDigit(DigitValue(c)) == if 'a' <= c <= 'f' then c - 'a' + 'A' else c
  {
  }

  // ----- Order -------------------------------------------------------------------------------

  /** `std::string::operator<`. */
  predicate TextLess(s: string, t: string) {
    t != "" && (s == "" || s[0] < t[0] || (s[0] == t[0] && TextLess(s[1..], t[1..])))
  }

  /** Lexicographic order by byte value. */
  predicate BytesLess(a: seq<byte>, b: seq<byte>) {
    b != [] && (a == [] || a[0] < b[0] || (a[0] == b[0] && BytesLess(a[1..], b[1..])))
  }

  /** `bytestring::operator<` compares hexadecimal text. */
  predicate Less(a: seq<byte>, b: seq<byte>) {
    TextLess(HexStr(a), HexStr(b))
  }

  /** Comparing the text is comparing the bytes. */
  lemma {:induction false} TextOrderIsByteOrder(a: seq<byte>, b: seq<byte>)
    ensures Less(a, b) <==> BytesLess(a, b)
  {
    if a != [] && b != [] {
      TextOrderIsByteOrder(a[1..], b[1..]);
      var s, t := HexStr(a), HexStr(b);
      TextLessTwo(s[0], s[1], HexStr(a[1..]), t[0], t[1], HexStr(b[1..]));
      DigitOrder(a[0] as nat / 16, b[0] as nat / 16);
      DigitOrder(a[0] as nat % 16, b[0] as nat % 16);
    }
  }

  lemma TextLessTwo(c1: char, c2: char, s: string, d1: char, d2: char, t: string)
    ensures TextLess([c1, c2] + s, [d1, d2] + t) <==>
      c1 < d1 || (c1 == d1 && (c2 < d2 || (c2 == d2 && TextLess(s, t))))
  {
    assert ([c1, c2] + s)[1..] == [c2] + s && ([d1, d2] + t)[1..] == [d2] + t;
    assert ([c2] + s)[1..] == s && ([d2] + t)[1..] == t;
  }

  lemma DigitOrder(m: nat, n: nat)
    requires m < 16 && n < 16
    ensures HexDigit(m) < HexDigit(n) <==> m < n
    ensures HexDigit(m) == HexDigit(n) <==> m == n
  {
  }

  /** The order is a strict total order, and two keys are equivalent under it exactly if they
      are the same bytes. */
  lemma {:induction false} LessTotal(a: seq<byte>, b: seq<byte>)
    ensures !(Less(a, b) && Less(b, a))
    ensures !Less(a, b) && !Less(b, a) <==> a == b
  {
    TextOrderIsByteOrder(a, b);
    TextOrderIsByteOrder(b, a);
    if a != [] && b != [] {
      LessTotal(a[1..], b[1..]);
      TextOrderIsByteOrder(a[1..], b[1..]);
      TextOrderIsByteOrder(b[1..], a[1..]);
      assert a[0] == b[0] && a[1..] == b[1..] ==> a == b by {
        assert a == [a[0]] + a[1..] && b == [b[0]] + b[1..];
      }
    }
  }

  /** The first position at which two strings differ, and `a` has the smaller byte there. */
  predicate SmallerAt(a: seq<byte>, b: seq<byte>, k: int) {
    0 <= k < |a| && k < |b| && a[..k] == b[..k] && a[k] < b[k]
  }

  /** The order is the lexicographic one: a string comes before its extensions, and otherwise the
      first byte that differs decides. */
  lemma LessIsLexicographic(a: seq<byte>, b: seq<byte>)
    ensures Less(a, b) <==> (|a| < |b| && a == b[..|a|]) || exists k :: SmallerAt(a, b, k)
  {
    TextOrderIsByteOrder(a, b);
    BytesLessAt(a, b);
  }

  lemma {:induction false} BytesLessAt(a: seq<byte>, b: seq<byte>)
    ensures BytesLess(a, b) <==> (|a| < |b| && a == b[..|a|]) || exists k :: SmallerAt(a, b, k)
  {
    if a != [] && b != [] {
      if a[0] == b[0] {
        BytesLessAt(a[1..], b[1..]);
        forall k | SmallerAt(a[1..], b[1..], k)
          ensures SmallerAt(a, b, k + 1)
        {
          assert a[..k + 1] == [a[0]] + a[1..][..k] && b[..k + 1] == [b[0]] + b[1..][..k];
        }
        forall k | SmallerAt(a, b, k)
          ensures k > 0 && SmallerAt(a[1..], b[1..], k - 1)
        {
          assert a[1..][..k - 1] == a[..k][1..] && b[1..][..k - 1] == b[..k][1..];
        }
        assert a == [a[0]] + a[1..];
        assert |a| <= |b| ==> b[..|a|] == [b[0]] + b[1..][..|a| - 1];
      } else {
        assert a[0] < b[0] ==> SmallerAt(a, b, 0);
        assert forall k | SmallerAt(a, b, k) :: k > 0 ==> a[..k][0] == b[..k][0];
      }
    }
  }

  lemma {:induction false} BytesLessTransitive(a: seq<byte>, b: seq<byte>, c: seq<byte>)
    requires BytesLess(a, b) && BytesLess(b, c)
    ensures BytesLess(a, c)
  {
    if a != [] && a[0] == b[0] == c[0] {
      BytesLessTransitive(a[1..], b[1..], c[1..]);
    }
  }

  lemma LessTransitive(a: seq<byte>, b: seq<byte>, c: seq<byte>)
    requires Less(a, b) && Less(b, c)
    ensures Less(a, c)
  {
    TextOrderIsByteOrder(a, b);
    TextOrderIsByteOrder(b, c);
    TextOrderIsByteOrder(a, c);
    BytesLessTransitive(a, b, c);
  }
}
