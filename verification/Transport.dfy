/** Sending and receiving one frame.  The daemon and the library hold the same loops. */
module Transport {
  import opened Bytes
  import opened Protocol
  import opened Framing
  import opened Net

  /** Nothing but the stream of `fd` differs from `before`. */
  predicate OnlyAt(before: map<int, seq<byte>>, after: map<int, seq<byte>>, fd: int) {
    after.Keys == before.Keys && forall k | k in before && k != fd :: after[k] == before[k]
  }

  /** Bytes are only ever added, and only at the end of the stream of `fd`. */
  predicate Appends(before: map<int, seq<byte>>, after: map<int, seq<byte>>, fd: int) {
    OnlyAt(before, after, fd) && (fd in before ==> before[fd] <= after[fd])
  }

  /** Of `data` a first part has been written to `fd`, perhaps nothing and perhaps all of it. */
  predicate WrotePart(before: map<int, seq<byte>>, after: map<int, seq<byte>>, fd: int, data: seq<byte>) {
    OnlyAt(before, after, fd) && (fd in before ==> before[fd] <= after[fd] <= before[fd] + data)
  }

  /** The body of `recv_from_client` and `recv_from_daemon`.  However the stream is cut into
      reads, success means that exactly the first message of the stream was consumed; on a
      reliable network a complete message is always received. */
  method ReceiveFrame(net: Net, fd: int) returns (ok: bool, msg: Msg)
    requires net.Valid()
    modifies net
    ensures net.Valid() && net.open == old(net.open) && net.tx == old(net.tx) && net.stray == old(net.stray)
    ensures OnlyAt(old(net.rx), net.rx, fd) && net.patience <= old(net.patience)
    ensures ok ==> fd in net.open && Unframe(old(net.rx[fd])) == Some((msg, net.rx[fd]))
    ensures net.reliable && fd in net.open && Unframe(old(net.rx[fd])).Some? ==> ok
  {
    ok, msg := false, [];
    var n, hi := net.Read(fd, 1);
    if n != 1 {
      return;
    }
    var lo;
    n, lo := net.Read(fd, 1);
    if n != 1 {
      return;
    }
    ghost var rest := net.rx[fd];
    assert old(net.rx[fd]) == [hi[0], lo[0]] + rest;
    ok, msg := ReceivePayload(net, fd, hi[0] as uint16 * 256 + lo[0] as uint16);
    if ok {
      UnframeSplit(old(net.rx[fd]), hi[0], lo[0], msg, net.rx[fd]);
    }
  }

  /** The payload loop: `missing` counts down, without wrapping, as the buffer fills. */
  method ReceivePayload(net: Net, fd: int, size: uint16) returns (ok: bool, msg: Msg)
    requires net.Valid() && fd in net.open
    modifies net
    ensures net.Valid() && net.open == old(net.open) && net.tx == old(net.tx) && net.stray == old(net.stray)
    ensures OnlyAt(old(net.rx), net.rx, fd) && net.patience <= old(net.patience)
    ensures ok ==> |msg| == size as nat && old(net.rx[fd]) == msg + net.rx[fd]
    ensures net.reliable && |old(net.rx[fd])| >= size as nat ==> ok
  {
    var missing := size;
    var index := 0;
    var buffer := new byte[size as nat](_ => 0);
    ghost var stream := net.rx[fd];
    while missing > 0
      invariant index + missing as nat == buffer.Length == size as nat
      invariant net.Valid() && net.open == old(net.open) && net.tx == old(net.tx) && net.stray == old(net.stray)
      invariant OnlyAt(old(net.rx), net.rx, fd) && net.patience <= old(net.patience)
      invariant stream == buffer[..index] + net.rx[fd]
      decreases missing, net.patience
    {
      var received, data := net.Read(fd, if missing < 512 then missing as nat else READ_SIZE);
      if received < 0 {
        return false, [];
      }
      ghost var filled, unread := buffer[..index], net.rx[fd];
      Store(buffer, index, data);
      Assoc(filled, data, unread);
      index := index + received;
      missing := missing - received as uint16;
    }
    ok, msg := true, buffer[..];
  }

  method Store(buffer: array<byte>, index: nat, data: seq<byte>)
    requires index + |data| <= buffer.Length
    modifies buffer
    ensures buffer[..index + |data|] == old(buffer[..index]) + data
  {
    forall k | 0 <= k < |data| {
      buffer[index + k] := data[k];
    }
  }

  lemma UnframeSplit(stream: seq<byte>, hi: byte, lo: byte, payload: seq<byte>, rest: seq<byte>)
    requires stream == [hi, lo] + payload + rest && |payload| == Length(hi, lo)
    ensures |payload| <= MAX_FRAME && Unframe(stream) == Some((payload, rest))
  {
    assert stream[2..2 + |payload|] == payload;
    assert stream[2 + |payload|..] == rest;
  }

  /** The body of `send_to_client` and `send_to_daemon` for a message that fits a frame. */
  method SendFrame(net: Net, fd: int, msg: Msg) returns (ok: bool)
    requires net.Valid()
    modifies net
    ensures net.Valid() && net.open == old(net.open) && net.rx == old(net.rx) && net.stray == old(net.stray)
    ensures net.patience == old(net.patience) && WrotePart(old(net.tx), net.tx, fd, Frame(msg))
    ensures ok ==> fd in net.open && net.tx == old(net.tx)[fd := old(net.tx[fd]) + Frame(msg)]
    ensures fd !in net.open ==> !ok && net.tx == old(net.tx)
    ensures net.reliable && fd in net.open ==> ok
  {
    var size := |msg| as uint16;
    var buffer := [(size / 256) as byte, (size % 256) as byte] + msg;
    assert buffer == Frame(msg);
    var sent := net.Write(fd, buffer);
    ok := sent == |buffer|;
    assert buffer[..|buffer|] == buffer;
  }
}
