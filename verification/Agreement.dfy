/** The two ends of a connection agree: what one writes, the other understands. */
module Agreement {
  import opened Bytes
  import opened Protocol
  import opened Framing
  import opened CommThread
  import opened EdnaLib

  /** The bytes `edna_lib_connect` writes, if the daemon keeps answering. */
  function ClientHandshake(aid: seq<byte>): seq<byte>
    requires |aid| < MAX_FRAME
  {
    Frame([GET_API_VERSION]) + Frame([REGISTER_AID] + aid)
  }

  lemma OfferOfHandshake(aid: seq<byte>, rest: seq<byte>)
    requires |aid| < MAX_FRAME
    ensures Offer(ClientHandshake(aid) + rest) == if aid == [] then None else Some((aid, rest))
  {
    UnframeFrame([GET_API_VERSION], Frame([REGISTER_AID] + aid) + rest);
    assert ClientHandshake(aid) + rest == Frame([GET_API_VERSION]) + (Frame([REGISTER_AID] + aid) + rest);
    UnframeFrame([REGISTER_AID] + aid, rest);
    RequestedAidOf(aid);
  }

  /** `edna_lib_connect` against `new_client`: ERV_OK for a non-empty absent AID,
      ERV_ALREADY_REGISTERED for one that is present, ERV_DISCONNECTED for an empty one. */
  lemma HandshakeAgrees(registry: map<seq<byte>, int>, aid: seq<byte>, rest: seq<byte>)
    requires |aid| < MAX_FRAME
    ensures ConnectResult(Greeting(registry, ClientHandshake(aid) + rest), aid) ==
      if aid == [] then ERV_DISCONNECTED
      else if aid in registry then ERV_ALREADY_REGISTERED
      else ERV_OK
  {
    var request := Frame([REGISTER_AID] + aid) + rest;
    assert ClientHandshake(aid) + rest == Frame([GET_API_VERSION]) + request;
    UnframeFrame([GET_API_VERSION], request);
    UnframeFrame([REGISTER_AID] + aid, rest);
    RequestedAidOf(aid);
    UnframeFrame([API_VERSION], Verdict(registry, request));
    UnframeFrame([AID_EXISTS], []);
    UnframeFrame([EDNA_OK], []);
    assert Frame([AID_EXISTS]) + [] == Frame([AID_EXISTS]);
    assert Frame([EDNA_OK]) + [] == Frame([EDNA_OK]);
  }

  /** An oversize AID is never sent: the library gives up after the version check. */
  lemma OversizeAidDisconnects(stream: seq<byte>, aid: seq<byte>)
    requires |aid| >= MAX_FRAME && Unframe(stream).Some? && Unframe(stream).value.0 == [API_VERSION]
    ensures ConnectResult(stream, aid) == ERV_DISCONNECTED
  {
  }

  /** A power event, or an APDU that fits a frame. */
  type Order = o: Input | o.Received? ==> |o.apdu| < MAX_FRAME witness PoweredUp

  /** The command the daemon sends for it. */
  function CommandFor(order: Order): Msg {
    match order
    case PoweredUp => [0x01]
    case PoweredDown => [0x02]
    case Received(apdu) => [0x03] + apdu
  }

  function Commands(orders: seq<Order>): seq<Msg> {
    if orders == [] then [] else [CommandFor(orders[0])] + Commands(orders[1..])
  }

  /** A whole session over the wire: the daemon frames any sequence of power events and APDUs, the
      client's loop decodes and answers them, and the i-th frame the daemon decodes is 00 and, for
      an APDU, the application's response to it, given all power events and APDUs up to it.
      Nothing is left over on either side, and the application has processed exactly these. */
  lemma SessionAgrees(process: seq<Input> -> Rapdu, hist: seq<Input>, orders: seq<Order>, i: nat)
    requires i < |orders|
    ensures DecodeAll(Wire(Commands(orders))) == (Commands(orders), [])
    ensures Processed(hist, Commands(orders)) == hist + orders
    ensures var (rsps, left) := DecodeAll(Wire(Replies(process, hist, Commands(orders))));
      && left == [] && |rsps| == |orders|
      && rsps[i] == if orders[i].Received? then [0x00] + process(hist + orders[..i + 1]) else [0x00]
  {
    WireRoundTrip(Commands(orders));
    WireRoundTrip(Replies(process, hist, Commands(orders)));
    CommandsAt(orders, i);
    ReplyAt(process, hist, orders, i);
    ProcessedOrders(hist, orders, |orders|);
    assert Commands(orders)[..|orders|] == Commands(orders) && orders[..|orders|] == orders;
  }

  /** The client takes the command of an order for that order. */
  lemma OrderTaken(process: seq<Input> -> Rapdu, hist: seq<Input>, order: Order)
    ensures HistoryAfter(hist, CommandFor(order)) == hist + [order]
    ensures ReplyTo(process, hist, CommandFor(order)) ==
      if order.Received? then [0x00] + process(hist + [order]) else [0x00]
  {
    if order.Received? {
      assert ([0x03] + order.apdu)[1..] == order.apdu;
    }
  }

  lemma ReplyAt(process: seq<Input> -> Rapdu, hist: seq<Input>, orders: seq<Order>, i: nat)
    requires i < |orders|
    ensures |Replies(process, hist, Commands(orders))| == |orders|
    ensures Replies(process, hist, Commands(orders))[i] ==
      if orders[i].Received? then [0x00] + process(hist + orders[..i + 1]) else [0x00]
  {
    CommandsAt(orders, i);
    RepliesOneToOne(process, hist, Commands(orders), i);
    ProcessedOrders(hist, orders, i);
    OrderTaken(process, hist + orders[..i], orders[i]);
    assert hist + orders[..i] + [orders[i]] == hist + orders[..i + 1];
  }

  lemma {:induction false} CommandsAt(orders: seq<Order>, i: nat)
    requires i < |orders|
    ensures |Commands(orders)| == |orders| && Commands(orders)[i] == CommandFor(orders[i])
  {
    if |orders| > 1 {
      CommandsAt(orders[1..], if i > 0 then i - 1 else 0);
    }
  }

  lemma {:induction false} ProcessedOrders(hist: seq<Input>, orders: seq<Order>, i: nat)
    requires i <= |orders|
    ensures i <= |Commands(orders)| && Processed(hist, Commands(orders)[..i]) == hist + orders[..i]
    decreases i
  {
    if i == 0 {
      assert Commands(orders)[..0] == [] && orders[..0] == [];
    } else {
      var none: seq<Input> -> Rapdu := _ => [];
      OrderTaken(none, hist, orders[0]);
      ProcessedOrders(hist + [orders[0]], orders[1..], i - 1);
      assert Commands(orders)[..i][1..] == Commands(orders[1..])[..i - 1];
      assert hist + [orders[0]] + orders[1..][..i - 1] == hist + orders[..i];
    }
  }
}
