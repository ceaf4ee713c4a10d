/** The length-prefixed framing that both ends of a connection use, on byte streams. */
module Framing {
  import opened Bytes
  import opened Protocol

  const READ_SIZE: nat := 512

  /** A message as it travels: a 16-bit big-endian length, then the payload. */
  function Frame(m: Msg): (f: seq<byte>)
    ensures |f| == |m| + 2
  {
    [(|m| / 256) as byte, (|m| % 256) as byte] + m
  }

  function Length(hi: byte, lo: byte): nat {
    hi as nat * 256 + lo as nat
  }

  /** The first message of a stream and what follows it, once the stream holds all of it. */
  function Unframe(s: seq<byte>): Option<(Msg, seq<byte>)> {
    if |s| < 2 || |s| < 2 + Length(s[0], s[1]) then None
    else Some((s[2..2 + Length(s[0], s[1])], s[2 + Length(s[0], s[1])..]))
  }

  /** A queue of messages as bytes. */
  function Wire(ms: seq<Msg>): seq<byte> {
    if ms == [] then [] else Frame(ms[0]) + Wire(ms[1..])
  }

  /** All complete messages of a stream, and the bytes left over. */
  function DecodeAll(s: seq<byte>): (seq<Msg>, seq<byte>)
    decreases |s|
  {
    match Unframe(s)
    case None => ([], s)
    case Some((m, rest)) => var (ms, left) := DecodeAll(rest); ([m] + ms, left)
  }

  lemma UnframeFrame(m: Msg, rest: seq<byte>)
    ensures Unframe(Frame(m) + rest) == Some((m, rest))
  {
    var s := Frame(m) + rest;
    assert Length(s[0], s[1]) == |m|;
    assert s[2..2 + |m|] == m;
    assert s[2 + |m|..] == rest;
  }

  /** Decoding a complete message loses nothing: framing it again gives the stream back. */
  lemma FrameUnframe(s: seq<byte>)
    requires Unframe(s).Some?
    ensures Frame(Unframe(s).value.0) + Unframe(s).value.1 == s
  {
    var n := Length(s[0], s[1]);
    assert n / 256 == s[0] as nat && n % 256 == s[1] as nat;
    assert s == s[..2] + s[2..2 + n] + s[2 + n..];
  }

  /** Any sequence of messages, framed and concatenated, decodes to the same sequence with no
      byte left over. */
  lemma {:induction false} WireRoundTrip(ms: seq<Msg>)
    ensures DecodeAll(Wire(ms)) == (ms, [])
  {
    if ms != [] {
      WireRoundTrip(ms[1..]);
      UnframeFrame(ms[0], Wire(ms[1..]));
      assert ms == [ms[0]] + ms[1..];
    }
  }

  /** And the other way round, for every stream. */
  lemma {:induction false} DecodeAllRoundTrip(s: seq<byte>)
    ensures var (ms, left) := DecodeAll(s); Wire(ms) + left == s && Unframe(left).None?
    decreases |s|
  {
    if Unframe(s).Some? {
      var (m, rest) := Unframe(s).value;
      DecodeAllRoundTrip(rest);
      FrameUnframe(s);
      var (ms, left) := DecodeAll(rest);
      assert ([m] + ms)[1..] == ms;
      assert Wire([m] + ms) + left == Frame(m) + (Wire(ms) + left);
    }
  }

  // A byte channel behaves as the queue of messages it carries.

  lemma {:induction false} SendAppends(ms: seq<Msg>, m: Msg)
    ensures Wire(ms + [m]) == Wire(ms) + Frame(m)
  {
    var all := ms + [m];
    if ms == [] {
      assert all[1..] == [];
      assert Frame(m) + Wire([]) == Frame(m) == Wire(ms) + Frame(m);
    } else {
      SendAppends(ms[1..], m);
      assert all[1..] == ms[1..] + [m];
      Assoc(Frame(ms[0]), Wire(ms[1..]), Frame(m));
    }
  }

  lemma ReceiveTakesHead(ms: seq<Msg>)
    ensures ms == [] <==> Unframe(Wire(ms)).None?
    ensures ms != [] ==> Unframe(Wire(ms)) == Some((ms[0], Wire(ms[1..])))
  {
    if ms != [] {
      UnframeFrame(ms[0], Wire(ms[1..]));
    }
  }

  // ----- The receive loop --------------------------------------------------------------------

  /** The variables of the receive loop: the buffer sized to the declared length, how much of it
      is filled, and how much is missing (a 16-bit counter). */
  datatype Receiving = Receiving(buffer: seq<byte>, index: nat, missing: nat)

  function Start(declared: nat): Receiving {
    Receiving(seq(declared, (i: nat) => 0), 0, declared)
  }

  /** What one call of `read` may deliver: nothing, or up to a buffer of what is missing. */
  predicate Deliverable(r: Receiving, chunk: seq<byte>) {
    |chunk| <= Min(r.missing, READ_SIZE)
  }

  function Fill(r: Receiving, chunk: seq<byte>): Receiving
    requires r.index + |chunk| <= |r.buffer| && |chunk| <= r.missing
  {
    Receiving(r.buffer[..r.index] + chunk + r.buffer[r.index + |chunk|..], r.index + |chunk|, r.missing - |chunk|)
  }

  ghost predicate Delivered(r: Receiving, chunks: seq<seq<byte>>)
    requires r.index + r.missing == |r.buffer|
    decreases |chunks|
  {
    chunks == [] || (Deliverable(r, chunks[0]) && Delivered(Fill(r, chunks[0]), chunks[1..]))
  }

  ghost function FillAll(r: Receiving, chunks: seq<seq<byte>>): Receiving
    requires r.index + r.missing == |r.buffer| && Delivered(r, chunks)
    decreases |chunks|
  {
    if chunks == [] then r else FillAll(Fill(r, chunks[0]), chunks[1..])
  }

  /** However the reads are cut up, empty reads included: filled and missing add up to the
      declared length, which never leaves 16 bits, and the filled part is what was read. */
  lemma {:induction false} FillAllIsConcat(r: Receiving, chunks: seq<seq<byte>>)
    requires r.index + r.missing == |r.buffer| <= MAX_FRAME && Delivered(r, chunks)
    ensures var t := FillAll(r, chunks);
      && |t.buffer| == |r.buffer|
      && t.index == r.index + |Concat(chunks)| && t.index + t.missing == |r.buffer| <= MAX_FRAME
      && t.buffer[..t.index] == r.buffer[..r.index] + Concat(chunks)
    decreases |chunks|
  {
    if chunks != [] {
      var u := Fill(r, chunks[0]);
      FillAllIsConcat(u, chunks[1..]);
      assert u.buffer[..u.index] == r.buffer[..r.index] + chunks[0];
      assert r.buffer[..r.index] + chunks[0] + Concat(chunks[1..]) == r.buffer[..r.index] + Concat(chunks);
    }
  }

  /** The loop ends exactly when the reads have delivered the declared number of bytes: empty
      reads, as at an end of file inside a payload, make no progress at all. */
  lemma LoopEndsIff(declared: nat, chunks: seq<seq<byte>>)
    requires declared <= MAX_FRAME && Delivered(Start(declared), chunks)
    ensures FillAll(Start(declared), chunks).missing == 0 <==> |Concat(chunks)| == declared
    ensures FillAll(Start(declared), chunks).missing == 0 ==>
      FillAll(Start(declared), chunks).buffer == Concat(chunks)
    ensures (forall c | c in chunks :: c == []) ==> FillAll(Start(declared), chunks).missing == declared
  {
    FillAllIsConcat(Start(declared), chunks);
    var t := FillAll(Start(declared), chunks);
    assert t.missing == 0 ==> t.buffer[..t.index] == t.buffer;
    if forall c | c in chunks :: c == [] {
      ConcatOfEmpty(chunks);
    }
  }

  lemma {:induction false} ConcatOfEmpty(chunks: seq<seq<byte>>)
    requires forall c | c in chunks :: c == []
    ensures Concat(chunks) == []
  {
    if chunks != [] {
      assert chunks[0] in chunks;
      assert forall c | c in chunks[1..] :: c in chunks;
      ConcatOfEmpty(chunks[1..]);
    }
  }
}
