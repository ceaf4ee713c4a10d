/** The daemon/client protocol of edna_proto.h: command codes, the SELECT-by-AID parser, the
    decisions of the registration handshake, and the reply a client owes to each command. */
module Protocol {
  import opened Bytes

  const API_VERSION: byte := 0x01

  const GET_API_VERSION: byte := 0x01
  const REGISTER_AID: byte := 0x02
  const DISCONNECT: byte := 0x03

  const POWER_UP: byte := 0x01
  const POWER_DOWN: byte := 0x02
  const TRANSCEIVE_APDU: byte := 0x03

  const EDNA_OK: byte := 0x00
  const AID_EXISTS: byte := 0x01
  const UNKNOWN_COMMAND: byte := 0x02

  const NO_APP_SELECTED: int := -1
  const MAX_FRAME: nat := 0xffff
  const RDATA_BUFFER: nat := 512

  const SW_INS_NOT_SUPPORTED: seq<byte> := [0x6d, 0x00]
  const SW_NO_DIAGNOSIS: seq<byte> := [0x6f, 0x00]

  /** A message that fits one length-prefixed frame. */
  type Msg = m: seq<byte> | |m| <= MAX_FRAME

  /** The response of a callback that honours the buffer it was given. */
  type Rapdu = r: seq<byte> | |r| <= RDATA_BUFFER

  /** A command APDU that fits a frame together with the TRANSCEIVE_APDU byte. */
  type Capdu = a: seq<byte> | |a| < MAX_FRAME

  datatype Parsed = NotSelect | Malformed | Select(aid: seq<byte>)

  /** How `transceive` reads an APDU: only a full AID is looked for. */
  function ParseSelect(apdu: seq<byte>): Parsed {
    if Substr(apdu, 0, 3) == [0x00, 0xa4, 0x04] then
      if |apdu| < 5 then Malformed else Select(Substr(apdu, 5, apdu[4] as nat))
    else
      NotSelect
  }

  /** A SELECT command by AID as a terminal builds it. */
  function BuildSelect(p2: byte, aid: seq<byte>, trailing: seq<byte>): seq<byte>
    requires |aid| <= 255
  {
    [0x00, 0xa4, 0x04, p2, |aid| as byte] + aid + trailing
  }

  /** Parsing inverts building, whatever P2 is and whatever follows the AID. */
  lemma ParseInvertsBuild(p2: byte, aid: seq<byte>, trailing: seq<byte>)
    requires |aid| <= 255 && 5 + |aid| + |trailing| <= SIZE_T_MAX
    ensures ParseSelect(BuildSelect(p2, aid, trailing)) == Select(aid)
  {
    var apdu := BuildSelect(p2, aid, trailing);
    assert apdu[..3] == [0x00, 0xa4, 0x04];
    SubstrWithin(apdu, 5, |aid|);
    assert apdu[5..5 + |aid|] == aid;
  }

  /** Exactly the AIDs of at most 255 bytes can be the target of some APDU. */
  lemma SelectableAids(aid: seq<byte>)
    ensures (exists apdu :: ParseSelect(apdu) == Select(aid)) <==> |aid| <= 255
  {
    if |aid| <= 255 {
      ParseInvertsBuild(0, aid, []);
    }
    forall apdu | ParseSelect(apdu) == Select(aid)
      ensures |aid| <= 255
    {
      assert |Substr(apdu, 5, apdu[4] as nat)| <= apdu[4] as nat;
    }
  }

  /** The descriptor `selected_application` holds after the SELECT part of `transceive`. */
  function Route(registry: map<seq<byte>, int>, selected: int, apdu: seq<byte>): int {
    match ParseSelect(apdu)
    case Select(aid) => if aid in registry then registry[aid] else selected
    case _ => selected
  }

  /** A SELECT of a registered AID of at most 255 bytes selects its application. */
  lemma BuiltSelectRoutes(registry: map<seq<byte>, int>, selected: int, p2: byte, aid: seq<byte>, trailing: seq<byte>)
    requires aid in registry && |aid| <= 255 && |trailing| <= SIZE_T_MAX - 260
    ensures Route(registry, selected, BuildSelect(p2, aid, trailing)) == registry[aid]
  {
    ParseInvertsBuild(p2, aid, trailing);
  }

  /** An application registered under an AID of more than 255 bytes is never newly selected. */
  lemma LongAidsUnselectable(registry: map<seq<byte>, int>, selected: int, aid: seq<byte>, apdu: seq<byte>)
    requires aid in registry && |aid| > 255 && Injective(registry) && selected != registry[aid]
    ensures Route(registry, selected, apdu) != registry[aid]
  {
    if ParseSelect(apdu).Select? {
      SelectableAids(ParseSelect(apdu).aid);
    }
  }

  /** The registry after `unregister_by_socket`, when no descriptor is registered twice. */
  function Without(registry: map<seq<byte>, int>, fd: int): map<seq<byte>, int> {
    map aid | aid in registry && registry[aid] != fd :: registry[aid]
  }

  predicate Injective(registry: map<seq<byte>, int>) {
    forall a, b | a in registry && b in registry && registry[a] == registry[b] :: a == b
  }

  lemma WithoutValues(registry: map<seq<byte>, int>, fd: int)
    ensures Without(registry, fd).Values == registry.Values - {fd}
  {
    var after := Without(registry, fd);
    forall v | v in registry.Values - {fd}
      ensures v in after.Values
    {
      var aid :| aid in registry && registry[aid] == v;
      assert after[aid] == v;
    }
  }

  lemma InsertValues(registry: map<seq<byte>, int>, aid: seq<byte>, fd: int)
    requires aid !in registry
    ensures registry[aid := fd].Values == registry.Values + {fd}
  {
    var after := registry[aid := fd];
    forall v | v in registry.Values + {fd}
      ensures v in after.Values
    {
      var a :| a in after && (if v == fd then a == aid else a in registry && registry[a] == v);
      assert after[a] == v;
    }
  }

  /** What a card application has been given so far: power events and command APDUs. */
  datatype Input = PoweredUp | PoweredDown | Received(apdu: seq<byte>)

  function InputOf(cmd: seq<byte>): Option<Input> {
    if |cmd| == 0 then None
    else if cmd[0] == POWER_UP then Some(PoweredUp)
    else if cmd[0] == POWER_DOWN then Some(PoweredDown)
    else if cmd[0] == TRANSCEIVE_APDU then Some(Received(cmd[1..]))
    else None
  }

  /** The frame the client's event loop sends back for a command, given all it has processed. */
  function ReplyTo(process: seq<Input> -> Rapdu, hist: seq<Input>, cmd: seq<byte>): Msg {
    match InputOf(cmd)
    case None => [UNKNOWN_COMMAND]
    case Some(Received(apdu)) => [EDNA_OK] + process(hist + [Received(apdu)])
    case Some(_) => [EDNA_OK]
  }

  function HistoryAfter(hist: seq<Input>, cmd: seq<byte>): seq<Input> {
    match InputOf(cmd)
    case None => hist
    case Some(input) => hist + [input]
  }

  /** What `transceive` makes of a response frame: R-APDU, or a failed exchange. */
  function ReadResponse(rsp: seq<byte>): Option<seq<byte>> {
    if |rsp| >= 1 && rsp[0] == EDNA_OK then Some(Substr(rsp, 1, SIZE_T_MAX)) else None
  }

  /** The AID in a registration request, when the daemon accepts the request's form. */
  function RequestedAid(req: seq<byte>): Option<seq<byte>> {
    if |req| < 2 || req[0] != REGISTER_AID then None else Some(Substr(req, 1, SIZE_T_MAX))
  }

  lemma RequestedAidOf(aid: seq<byte>)
    requires |aid| < MAX_FRAME
    ensures RequestedAid([REGISTER_AID] + aid) == if aid == [] then None else Some(aid)
  {
    SubstrIsTail([REGISTER_AID] + aid, 1);
    assert ([REGISTER_AID] + aid)[1..] == aid;
  }

  /** What a callback answers to an APDU is what the daemon hands to the reader. */
  lemma ExchangeRoundTrip(process: seq<Input> -> Rapdu, hist: seq<Input>, apdu: Capdu)
    ensures ReadResponse(ReplyTo(process, hist, [TRANSCEIVE_APDU] + apdu))
         == Some(process(hist + [Received(apdu)]))
  {
    assert ([TRANSCEIVE_APDU] + apdu)[1..] == apdu;
    var rsp := ReplyTo(process, hist, [TRANSCEIVE_APDU] + apdu);
    SubstrIsTail(rsp, 1);
    assert rsp[1..] == process(hist + [Received(apdu)]);
  }
}
