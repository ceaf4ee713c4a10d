/** Bytes, the option type, and the `size_t` arithmetic every other module relies on. */
module Bytes {

  newtype byte = x: int | 0 <= x < 256

  /** `unsigned short`: arithmetic on it is checked not to leave 16 bits. */
  newtype uint16 = x: int | 0 <= x < 65536

  datatype Option<+T> = None | Some(value: T)

  /** The largest value of a 64-bit `size_t`, also the default length of `substr`. */
  const SIZE_T_MAX: nat := 0xffff_ffff_ffff_ffff

  function Min(a: nat, b: nat): nat {
    if a <= b then a else b
  }

  /** `bytestring::substr`: the length is computed with wrap-around before the start is tested. */
  function Substr(s: seq<byte>, start: nat, len: nat): (r: seq<byte>)
    ensures |r| <= |s|
  {
    var retLen := Min(len, (|s| - start) % (SIZE_T_MAX + 1));
    if start >= |s| then [] else s[start..start + retLen]
  }

  /** A range inside the string is returned whole. */
  lemma SubstrWithin(s: seq<byte>, start: nat, len: nat)
    requires start + len <= |s| <= SIZE_T_MAX
    ensures Substr(s, start, len) == s[start..start + len]
  {
  }

  /** With the default length, `substr(start)` is the tail of any string a `size_t` can measure. */
  lemma SubstrIsTail(s: seq<byte>, start: nat)
    requires |s| <= SIZE_T_MAX
    ensures Substr(s, start, SIZE_T_MAX) == if start >= |s| then [] else s[start..]
  {
  }

  function Concat(chunks: seq<seq<byte>>): seq<byte> {
    if chunks == [] then [] else chunks[0] + Concat(chunks[1..])
  }

  lemma Assoc<T>(a: seq<T>, b: seq<T>, c: seq<T>)
    ensures (a + b) + c == a + (b + c)
  {
  }
}
