/** The bytes on the sockets, with the numbers of edna_proto.h and ISO/IEC 7816-4 written out: what
    the daemon's and the library's contracts say to somebody who knows only those. */
module WireFormat {
  import opened Bytes
  import opened Protocol
  import opened Framing
  import opened Transport
  import opened CommThread
  import L = EdnaLib

  // ----- Frames ------------------------------------------------------------------------------

  /** A frame is the length in network order and the payload, and nothing else is one. */
  lemma FrameBytes(s: seq<byte>, m: Msg, rest: seq<byte>)
    ensures Unframe(s) == Some((m, rest)) <==>
      |s| >= 2 && s[0] as nat * 256 + s[1] as nat == |m| && s[2..] == m + rest
    ensures Frame(m)[0] as nat * 256 + Frame(m)[1] as nat == |m| && Frame(m)[2..] == m
  {
    if |s| >= 2 && s[0] as nat * 256 + s[1] as nat == |m| && s[2..] == m + rest {
      assert s[2..2 + |m|] == s[2..][..|m|] && s[2 + |m|..] == s[2..][|m|..];
    }
    if Unframe(s) == Some((m, rest)) {
      assert s[2..] == s[2..2 + |m|] + s[2 + |m|..];
    }
  }

  /** A stream holds a complete frame once it has as many bytes as that announces. */
  lemma CompleteFrame(s: seq<byte>)
    ensures Unframe(s).Some? <==> |s| >= 2 && |s| >= 2 + s[0] as nat * 256 + s[1] as nat
  {
  }

  /** A frame of one byte. */
  lemma ByteFrame(s: seq<byte>, b: byte)
    ensures Frame([b]) == [0x00, 0x01, b]
    ensures [0x00, 0x01, b] <= s <==> Unframe(s).Some? && Unframe(s).value.0 == [b]
    ensures [0x00, 0x01, b] <= s ==> Unframe(s).value.1 == s[3..]
  {
    assert |s| >= 3 && s[0] == 0x00 && s[1] == 0x01 ==> s[2..3] == [s[2]];
  }

  lemma LongFrame(b: byte, data: seq<byte>)
    requires |data| < MAX_FRAME
    ensures Frame([b] + data) == [((|data| + 1) / 256) as byte, ((|data| + 1) % 256) as byte, b] + data
  {
  }

  // ----- Command APDUs -----------------------------------------------------------------------

  /** Which APDUs are a SELECT by AID: those that begin with 00 A4 04.  Of these the ones that end
      before the length byte are malformed; from the others as much of the AID is taken as is
      there. */
  lemma SelectBytes(apdu: seq<byte>)
    requires |apdu| <= SIZE_T_MAX
    ensures var select := |apdu| >= 3 && apdu[0] == 0x00 && apdu[1] == 0xa4 && apdu[2] == 0x04;
      && (ParseSelect(apdu).NotSelect? <==> !select)
      && (ParseSelect(apdu).Malformed? <==> select && |apdu| < 5)
      && (select && |apdu| >= 5 ==> ParseSelect(apdu) == Select(apdu[5..Min(5 + apdu[4] as nat, |apdu|)]))
  {
    assert Substr(apdu, 0, 3) == apdu[..Min(3, |apdu|)];
    if |apdu| >= 3 {
      assert apdu[..3] == [apdu[0], apdu[1], apdu[2]];
    }
  }

  /** Where an APDU goes: a SELECT of a registered AID to that application, and everything else,
      SELECTs of other AIDs included, to the one selected before. */
  lemma RouteBytes(registry: map<seq<byte>, int>, selected: int, apdu: seq<byte>)
    requires |apdu| <= SIZE_T_MAX
    ensures
      if |apdu| >= 5 && apdu[..3] == [0x00, 0xa4, 0x04] && apdu[5..Min(5 + apdu[4] as nat, |apdu|)] in registry then
        Route(registry, selected, apdu) == registry[apdu[5..Min(5 + apdu[4] as nat, |apdu|)]]
      else
        Route(registry, selected, apdu) == selected
  {
    SelectBytes(apdu);
  }

  /** A call of `transceive` on the wire: the application routed to is sent a frame with 03 and the
      unchanged APDU, and what it answers behind 00 is the result; nobody else is sent anything. */
  lemma TransceiveBytes(reliable: bool, before: Daemon, after: Daemon, apdu: seq<byte>, ok: bool, rdata: seq<byte>)
    requires Transceived(reliable, before, after, apdu, ok, rdata) && |apdu| < 0xffff
    ensures |apdu| in {3, 4} && apdu[..3] == [0x00, 0xa4, 0x04] ==> ok && rdata == [0x6f, 0x00] && after == before
    ensures var fd := Route(before.registry, before.selected, apdu);
      !(|apdu| in {3, 4} && apdu[..3] == [0x00, 0xa4, 0x04]) ==>
        if fd == -1 then
          ok && rdata == [0x6d, 0x00] && after == before.(selected := -1)
        else
          && OnlyAt(before.streams.tx, after.streams.tx, fd) && OnlyAt(before.streams.rx, after.streams.rx, fd)
          && (ok ==>
                && after.registry == before.registry && after.selected == fd
                && Sends(before.streams, after.streams, fd, apdu) && Answers(before.streams, after.streams, fd, rdata))
          && (!ok ==> after.selected == -1 && fd !in after.registry.Values && fd !in after.open)
          && (reliable && fd in before.open && fd in before.streams.tx ==>
                Sends(before.streams, after.streams, fd, apdu))
          && (reliable && fd in before.open && fd in before.streams.rx && Unframe(before.streams.rx[fd]).Some? ==>
                var rsp := Unframe(before.streams.rx[fd]).value.0; ok <==> rsp != [] && rsp[0] == 0x00)
  {
    var fd := Route(before.registry, before.selected, apdu);
    SelectBytes(apdu);
    assert |apdu| >= 3 ==> apdu[..3] == [apdu[0], apdu[1], apdu[2]];
    LongFrame(0x03, apdu);
    if !ParseSelect(apdu).Malformed? && fd != -1 {
      if ok {
        var rsp := Unframe(before.streams.rx[fd]).value.0;
        SubstrIsTail(rsp, 1);
        assert rsp == [0x00] + rdata;
        FrameUnframe(before.streams.rx[fd]);
        LongFrame(0x00, rdata);
      } else {
        WithoutValues(before.registry, fd);
      }
    }
  }

  /** The frame with the APDU has been written to `fd`. */
  predicate Sends(before: Streams, after: Streams, fd: int, apdu: seq<byte>)
    requires |apdu| < 0xffff
  {
    && fd in before.tx && fd in after.tx
    && after.tx[fd] ==
         before.tx[fd] + ([((|apdu| + 1) / 256) as byte, ((|apdu| + 1) % 256) as byte, 0x03] + apdu)
  }

  /** A frame with the response has been read from `fd`. */
  predicate Answers(before: Streams, after: Streams, fd: int, rdata: seq<byte>) {
    && fd in before.rx && fd in after.rx && |rdata| < 0xffff
    && before.rx[fd] ==
         [((|rdata| + 1) / 256) as byte, ((|rdata| + 1) % 256) as byte, 0x00] + rdata + after.rx[fd]
  }

  /** Every APDU that is not a SELECT by AID goes unchanged to the application selected before. */
  lemma OthersForwarded(before: Daemon, after: Daemon, apdu: seq<byte>, ok: bool, rdata: seq<byte>)
    requires Transceived(true, before, after, apdu, ok, rdata) && |apdu| < 0xffff
    requires !(|apdu| >= 3 && apdu[0] == 0x00 && apdu[1] == 0xa4 && apdu[2] == 0x04)
    requires before.selected in before.open && before.selected in before.streams.tx && before.selected != -1
    ensures Sends(before.streams, after.streams, before.selected, apdu)
    ensures after.selected == if ok then before.selected else -1
  {
    SelectBytes(apdu);
    TransceiveBytes(true, before, after, apdu, ok, rdata);
  }

  // ----- Registration ------------------------------------------------------------------------

  /** What a client sends to be registered: 01 in one frame, then 02 and the AID in another. */
  function Registration(aid: seq<byte>): seq<byte>
    requires |aid| < 0xffff
  {
    [0x00, 0x01, 0x01, ((|aid| + 1) / 256) as byte, ((|aid| + 1) % 256) as byte, 0x02] + aid
  }

  lemma OfferBytes(stream: seq<byte>, aid: seq<byte>, rest: seq<byte>)
    ensures Offer(stream) == Some((aid, rest)) <==> 0 < |aid| < 0xffff && stream == Registration(aid) + rest
  {
    ByteFrame(stream, 0x01);
    if [0x00, 0x01, 0x01] <= stream {
      assert stream == [0x00, 0x01, 0x01] + stream[3..];
      RequestBytes(stream[3..], aid, rest);
      if 0 < |aid| < 0xffff {
        var request := [((|aid| + 1) / 256) as byte, ((|aid| + 1) % 256) as byte, 0x02] + aid;
        assert Registration(aid) + rest == [0x00, 0x01, 0x01] + (request + rest);
      }
    } else if 0 < |aid| < 0xffff {
      assert [0x00, 0x01, 0x01] <= Registration(aid) + rest;
    }
  }

  lemma RequestBytes(stream: seq<byte>, aid: seq<byte>, rest: seq<byte>)
    ensures
      Unframe(stream).Some? && RequestedAid(Unframe(stream).value.0) == Some(aid) && Unframe(stream).value.1 == rest
      <==>
      && 0 < |aid| < 0xffff
      && stream == [((|aid| + 1) / 256) as byte, ((|aid| + 1) % 256) as byte, 0x02] + aid + rest
  {
    if Unframe(stream).Some? && RequestedAid(Unframe(stream).value.0) == Some(aid) && Unframe(stream).value.1 == rest {
      var req := Unframe(stream).value.0;
      SubstrIsTail(req, 1);
      assert req == [0x02] + aid;
      FrameUnframe(stream);
      LongFrame(0x02, aid);
    }
    if 0 < |aid| < 0xffff && stream == [((|aid| + 1) / 256) as byte, ((|aid| + 1) % 256) as byte, 0x02] + aid + rest {
      LongFrame(0x02, aid);
      UnframeFrame([0x02] + aid, rest);
      RequestedAidOf(aid);
    }
  }

  /** What the daemon answers: nothing to a client that does not begin with 01; 01 alone to one
      that does not go on with a registration; and then 01 for a taken AID and 00 for a free one. */
  lemma GreetingBytes(registry: map<seq<byte>, int>, stream: seq<byte>)
    ensures !([0x00, 0x01, 0x01] <= stream) ==> Greeting(registry, stream) == []
    ensures [0x00, 0x01, 0x01] <= stream && Offer(stream).None? ==> Greeting(registry, stream) == [0x00, 0x01, 0x01]
    ensures Offer(stream).Some? ==>
      Greeting(registry, stream) ==
        [0x00, 0x01, 0x01, 0x00, 0x01, if Offer(stream).value.0 in registry then 0x01 else 0x00]
  {
    ByteFrame(stream, 0x01);
    ByteFrame([], 0x01);
    ByteFrame([], 0x00);
    ByteFrame([], EDNA_OK);
    ByteFrame([], AID_EXISTS);
    ByteFrame([], API_VERSION);
  }

  /** A handshake on the wire: a client is registered only if its stream begins with the
      registration of an AID that is free, and then it has been sent 01 and 00. */
  lemma NewClientBytes(reliable: bool, before: Daemon, after: Daemon, fd: int)
    requires fd in before.streams.rx && fd in before.streams.tx && NewClientDone(reliable, before, after, fd)
    ensures fd in after.open ==>
      exists aid, rest ::
        && 0 < |aid| < 0xffff && before.streams.rx[fd] == Registration(aid) + rest && aid !in before.registry
        && after.registry == before.registry[aid := fd] && after.streams.rx[fd] == rest
        && after.streams.tx[fd] == before.streams.tx[fd] + [0x00, 0x01, 0x01, 0x00, 0x01, 0x00]
    ensures fd !in after.open ==> after.registry == before.registry && after.open == before.open - {fd}
  {
    if fd in after.open {
      var (aid, rest) := Offer(before.streams.rx[fd]).value;
      OfferBytes(before.streams.rx[fd], aid, rest);
      ByteFrame([], 0x01);
      ByteFrame([], 0x00);
      var written := before.streams.tx[fd];
      assert written + Frame([0x01]) + Frame([0x00]) == written + [0x00, 0x01, 0x01, 0x00, 0x01, 0x00];
    }
  }

  /** And a client that sends a registration is registered, on a reliable network, if the AID is
      free, and told so, and otherwise told that it is taken. */
  lemma RegistrationBytes(before: Daemon, after: Daemon, fd: int, aid: seq<byte>, rest: seq<byte>)
    requires fd in before.streams.rx && fd in before.streams.tx && NewClientDone(true, before, after, fd)
    requires 0 < |aid| < 0xffff && before.streams.rx[fd] == Registration(aid) + rest
    ensures fd in after.open <==> aid !in before.registry
    ensures after.streams.tx[fd] ==
      before.streams.tx[fd] + [0x00, 0x01, 0x01, 0x00, 0x01, if aid in before.registry then 0x01 else 0x00]
  {
    OfferBytes(before.streams.rx[fd], aid, rest);
    GreetingBytes(before.registry, before.streams.rx[fd]);
  }

  /** A registered connection that is read: it is dropped when its next frame begins with 03 or
      there is none, and on a reliable network only then. */
  lemma ServedBytes(reliable: bool, before: Daemon, after: Daemon, fd: int)
    requires Served(reliable, before, after, fd)
    ensures var stream := before.streams.rx[fd];
      && (Unframe(stream).None? ==> after.registry == Without(before.registry, fd))
      && (Unframe(stream).Some? && |stream| > 2 && stream[..2] != [0x00, 0x00] && stream[2] == 0x03 ==>
            after.registry == Without(before.registry, fd))
      && (reliable && Unframe(stream).Some? && !(|stream| > 2 && stream[..2] != [0x00, 0x00] && stream[2] == 0x03) ==>
            after.registry == before.registry && after.streams.rx[fd] == Unframe(stream).value.1)
  {
    var stream := before.streams.rx[fd];
    if Unframe(stream).Some? {
      var (m, rest) := Unframe(stream).value;
      FrameBytes(stream, m, rest);
      assert stream[..2] == [stream[0], stream[1]];
      assert m != [] ==> m[0] == stream[2];
    }
  }

  // ----- The library -------------------------------------------------------------------------

  /** What `edna_lib_connect` makes of the daemon's bytes: ERV_OK exactly for the frames 01 and 00,
      and a version mismatch exactly for any other first frame. */
  lemma ConnectBytes(stream: seq<byte>, aid: seq<byte>)
    ensures L.ConnectResult(stream, aid) == L.ERV_VERSION_MISMATCH <==>
      Unframe(stream).Some? && !([0x00, 0x01, 0x01] <= stream)
    ensures L.ConnectResult(stream, aid) == L.ERV_OK <==>
      |aid| < 0xffff && [0x00, 0x01, 0x01, 0x00, 0x01, 0x00] <= stream
    ensures L.ConnectResult(stream, aid) == L.ERV_ALREADY_REGISTERED <==>
      && |aid| < 0xffff && [0x00, 0x01, 0x01] <= stream
      && Unframe(stream[3..]).Some? && !([0x00, 0x01, 0x00] <= stream[3..])
    ensures L.ConnectResult(stream, aid) == L.ERV_DISCONNECTED <==>
      || Unframe(stream).None?
      || ([0x00, 0x01, 0x01] <= stream && (|aid| >= 0xffff || Unframe(stream[3..]).None?))
  {
    ByteFrame(stream, 0x01);
    if [0x00, 0x01, 0x01] <= stream {
      assert stream == [0x00, 0x01, 0x01] + stream[3..];
      ByteFrame(stream[3..], 0x00);
      assert [0x00, 0x01, 0x01, 0x00, 0x01, 0x00] <= stream <==> [0x00, 0x01, 0x00] <= stream[3..];
    }
  }
}
