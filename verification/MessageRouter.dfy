/**
 Explicit messages: a message router request inside a common packet inside a SendRRData
 encapsulation packet, and the reply on the way back.
 */
module MessageRouter {
  import opened Wire
  import Cpf = CommonPacket
  import Encaps = Encapsulation

  // ---------------------------------------------------------------- logical paths

  const CLASS_8: byte := 0x20
  const CLASS_16: byte := 0x21
  const INSTANCE_8: byte := 0x24
  const INSTANCE_16: byte := 0x25
  const ATTRIBUTE_8: byte := 0x30
  const ATTRIBUTE_16: byte := 0x31

  datatype SegmentSize = Bits16 | Bits8

  datatype EPath = EPath(classId: u16, instanceId: Option<u16>, attributeId: Option<u16>)

  function SegmentBytes(seg8: byte, seg16: byte, value: u16, size: SegmentSize): bytes {
    if size == Bits8 && value <= 0xFF then [seg8, value] else [seg16, 0] + Put16(value)
  }

  function OptionalSegment(seg8: byte, seg16: byte, value: Option<u16>, size: SegmentSize): bytes {
    if value.Some? then SegmentBytes(seg8, seg16, value.value, size) else []
  }

  function PathBytes(path: EPath, size: SegmentSize): bytes {
    SegmentBytes(CLASS_8, CLASS_16, path.classId, size) +
    OptionalSegment(INSTANCE_8, INSTANCE_16, path.instanceId, size) +
    OptionalSegment(ATTRIBUTE_8, ATTRIBUTE_16, path.attributeId, size)
  }

  predicate Is8(segment: byte) {
    segment == CLASS_8 || segment == INSTANCE_8 || segment == ATTRIBUTE_8
  }

  predicate Is16(segment: byte) {
    segment == CLASS_16 || segment == INSTANCE_16 || segment == ATTRIBUTE_16
  }

  function SetPart(path: EPath, segment: byte, value: u16): EPath {
    if segment == CLASS_8 || segment == CLASS_16 then path.(classId := value)
    else if segment == INSTANCE_8 || segment == INSTANCE_16 then path.(instanceId := Some(value))
    else path.(attributeId := Some(value))
  }

  /** The path a segment list denotes, on top of what was read before it. */
  function PathFrom(path: EPath, data: bytes): Result<EPath>
    decreases |data|
  {
    if data == [] then Ok(path)
    else if Is8(data[0]) then
      if |data| < 2 then Err(Truncated) else PathFrom(SetPart(path, data[0], data[1]), data[2..])
    else if Is16(data[0]) then
      if |data| < 4 then Err(Truncated) else PathFrom(SetPart(path, data[0], Get16(data[2..])), data[4..])
    else Err(InvalidPacket)
  }

  function PathDecoded(data: bytes): Result<EPath> {
    PathFrom(EPath(0, None, None), data)
  }

  /** EPath::decode. */
  method DecodePath(bs: bytes) returns (r: Result<EPath>)
    ensures r == PathDecoded(bs)
  {
    var data := bs;
    var path := EPath(0, None, None);
    while data != []
      invariant PathFrom(path, data) == PathDecoded(bs)
      decreases |data|
    {
      var segment := data[0];
      data := data[1..];
      var value: u16;
      if Is8(segment) {
        if |data| < 1 { return Err(Truncated); }
        value := data[0];
        data := data[1..];
      } else if Is16(segment) {
        if |data| < 1 { return Err(Truncated); }
        data := data[1..];
        if |data| < 2 { return Err(Truncated); }
        value := Get16(data);
        data := data[2..];
      } else {
        return Err(InvalidPacket);
      }
      path := SetPart(path, segment, value);
    }
    return Ok(path);
  }

  lemma PathFromSegment(path: EPath, seg8: byte, seg16: byte, value: u16, size: SegmentSize, rest: bytes)
    requires (seg8, seg16) in {(CLASS_8, CLASS_16), (INSTANCE_8, INSTANCE_16), (ATTRIBUTE_8, ATTRIBUTE_16)}
    ensures PathFrom(path, SegmentBytes(seg8, seg16, value, size) + rest) == PathFrom(SetPart(path, seg8, value), rest)
  {
    var data := SegmentBytes(seg8, seg16, value, size) + rest;
    if size == Bits8 && value <= 0xFF {
      assert data[2..] == rest;
    } else {
      assert data[2..] == Put16(value) + rest;
      GetPut16(value, rest);
      assert data[4..] == rest;
    }
  }

  lemma PathFromOptional(path: EPath, seg8: byte, seg16: byte, value: Option<u16>, size: SegmentSize, rest: bytes)
    requires (seg8, seg16) in {(INSTANCE_8, INSTANCE_16), (ATTRIBUTE_8, ATTRIBUTE_16)}
    ensures PathFrom(path, OptionalSegment(seg8, seg16, value, size) + rest) ==
            PathFrom(if value.Some? then SetPart(path, seg8, value.value) else path, rest)
  {
    if value.Some? {
      PathFromSegment(path, seg8, seg16, value.value, size, rest);
    } else {
      assert [] + rest == rest;
    }
  }

  lemma PathLength(path: EPath, size: SegmentSize)
    ensures |PathBytes(path, size)| % 2 == 0 && |PathBytes(path, size)| <= 12
  {
  }

  lemma PathFromParts(path: EPath, size: SegmentSize, c: bytes, i: bytes, a: bytes)
    requires c == SegmentBytes(CLASS_8, CLASS_16, path.classId, size)
    requires i == OptionalSegment(INSTANCE_8, INSTANCE_16, path.instanceId, size)
    requires a == OptionalSegment(ATTRIBUTE_8, ATTRIBUTE_16, path.attributeId, size)
    ensures PathFrom(EPath(0, None, None), c + (i + (a + []))) == PathFrom(path, [])
  {
    var p0 := EPath(path.classId, None, None);
    PathFromSegment(EPath(0, None, None), CLASS_8, CLASS_16, path.classId, size, i + (a + []));
    PathFromOptional(p0, INSTANCE_8, INSTANCE_16, path.instanceId, size, a + []);
    PathFromOptional(p0.(instanceId := path.instanceId), ATTRIBUTE_8, ATTRIBUTE_16, path.attributeId, size, []);
  }

  /** Every path survives, in both segment sizes, including paths with an attribute and
      no instance; its length is even and at most 12, so the word count is exact. */
  lemma PathRoundTrip(path: EPath, size: SegmentSize)
    ensures PathDecoded(PathBytes(path, size)) == Ok(path)
    ensures |PathBytes(path, size)| % 2 == 0 && |PathBytes(path, size)| <= 12
  {
    var c := SegmentBytes(CLASS_8, CLASS_16, path.classId, size);
    var i := OptionalSegment(INSTANCE_8, INSTANCE_16, path.instanceId, size);
    var a := OptionalSegment(ATTRIBUTE_8, ATTRIBUTE_16, path.attributeId, size);
    PathFromParts(path, size, c, i, a);
    assert c + i + a == c + (i + (a + []));
    PathLength(path, size);
  }

  // ---------------------------------------------------------------- requests

  function RequestBytes(service: byte, path: EPath, data: bytes, size: SegmentSize): bytes {
    var p := PathBytes(path, size);
    [service, |p| / 2 % 0x100] + p + data
  }

  /** The items of a request: null address, the router request, any extra items. */
  function RequestItems(request: bytes, extras: seq<Cpf.Item>): seq<Cpf.Item> {
    [Cpf.NullAddress(), Cpf.UnconnectedData(request)] + extras
  }

  /** send_request_with_items up to the send: encode_request, the item list, SendRRData. */
  method BuildRequest(session: u32, size: SegmentSize, service: byte, path: EPath, data: bytes, extras: seq<Cpf.Item>)
    returns (packet: Encaps.EncapsPacket)
    ensures packet == Encaps.SendRrData(session, 0, Cpf.PacketBytes(RequestItems(RequestBytes(service, path, data, size), extras)))
  {
    var p := PathBytes(path, size);
    var request := [service];
    request := request + [|p| / 2 % 0x100];
    request := request + p;
    request := request + data;
    assert request == RequestBytes(service, path, data, size);
    var items := [Cpf.NullAddress()];
    items := items + [Cpf.UnconnectedData(request)];
    items := items + extras;
    assert items == RequestItems(request, extras);
    var cpf := Cpf.Encode(items);
    packet := Encaps.SendRrData(session, 0, cpf);
  }

  datatype Request = Request(service: byte, path: EPath, data: bytes, extras: seq<Cpf.Item>)

  /** What a device reads from the item list of a request. */
  function RouterRequest(items: seq<Cpf.Item>): Result<Request> {
    if |items| < 2 then Err(InvalidPacket)
    else
      var mr := items[1].data;
      var pathLen: nat := if |mr| < 2 then 0 else mr[1] as int * 2;
      if |mr| < 2 + pathLen then Err(Truncated)
      else
        var path :- PathDecoded(mr[2..2 + pathLen]);
        Ok(Request(mr[0], path, mr[2 + pathLen..], items[2..]))
  }

  /** What a device reads from the bytes of a request, layer by layer. */
  function Unwrapped(wire: bytes): Result<Request> {
    var packet :- Encaps.Decoded(wire);
    if |packet.data| < 6 then Err(Truncated)
    else
      var items :- Cpf.Decoded(packet.data[6..]);
      RouterRequest(items)
  }

  lemma RouterRequestOfItems(service: byte, path: EPath, data: bytes, size: SegmentSize, extras: seq<Cpf.Item>)
    ensures RouterRequest(RequestItems(RequestBytes(service, path, data, size), extras))
            == Ok(Request(service, path, data, extras))
  {
    var mr := RequestBytes(service, path, data, size);
    var p := PathBytes(path, size);
    PathRoundTrip(path, size);
    assert mr[1] as int * 2 == |p|;
    assert mr[2..2 + |p|] == p;
    assert mr[2 + |p|..] == data;
    assert RequestItems(mr, extras)[2..] == extras;
  }

  lemma {:induction false} SmallItemsFit(items: seq<Cpf.Item>)
    ensures |Cpf.ItemsBytes(items)| >= 4 * |items|
    ensures forall i | 0 <= i < |items| :: |items[i].data| <= |Cpf.ItemsBytes(items)|
  {
    if items != [] {
      SmallItemsFit(items[1..]);
      forall i | 0 <= i < |items| ensures |items[i].data| <= |Cpf.ItemsBytes(items)| {
        if i > 0 {
          assert items[i] == items[1..][i - 1];
        }
      }
    }
  }

  lemma CpfInsideRrData(session: u32, timeout: u16, items: seq<Cpf.Item>)
    requires 6 + |Cpf.PacketBytes(items)| < 0x1_0000
    ensures var packet := Encaps.SendRrData(session, timeout, Cpf.PacketBytes(items));
            && Encaps.Decoded(Encaps.PacketBytes(packet)) == Ok(packet)
            && Cpf.Decoded(packet.data[6..]) == Ok(items)
  {
    var cpf := Cpf.PacketBytes(items);
    var packet := Encaps.SendRrData(session, timeout, cpf);
    Encaps.DecodeOfEncode(packet);
    SmallItemsFit(items);
    Cpf.DecodeOfEncode(items, []);
    assert packet.data[6..] == cpf == cpf + [];
  }

  /** The whole explicit-message stack is inverted by unwrapping its layers, for every
      service, path, segment size, data and list of extra items, exactly when the
      SendRRData body fits the 16-bit length of the encapsulation header. */
  lemma RequestStackIsInvertible(session: u32, size: SegmentSize, service: byte, path: EPath, data: bytes,
                                 extras: seq<Cpf.Item>)
    ensures var items := RequestItems(RequestBytes(service, path, data, size), extras);
            var packet := Encaps.SendRrData(session, 0, Cpf.PacketBytes(items));
            Unwrapped(Encaps.PacketBytes(packet)) == Ok(Request(service, path, data, extras))
            <==> 6 + |Cpf.PacketBytes(items)| < 0x1_0000
  {
    var items := RequestItems(RequestBytes(service, path, data, size), extras);
    var packet := Encaps.SendRrData(session, 0, Cpf.PacketBytes(items));
    if 6 + |Cpf.PacketBytes(items)| < 0x1_0000 {
      CpfInsideRrData(session, 0, items);
      RouterRequestOfItems(service, path, data, size, extras);
    } else {
      OversizedIsRejected(packet);
    }
  }

  lemma OversizedIsRejected(packet: Encaps.EncapsPacket)
    requires |packet.data| >= 0x1_0000
    ensures Encaps.Decoded(Encaps.PacketBytes(packet)).Err?
  {
    Encaps.HeaderFields(packet, packet.data);
  }

  // ---------------------------------------------------------------- replies

  datatype Response = Response(
    service: byte,
    generalStatus: byte,
    additionalStatus: seq<u16>,
    data: bytes,
    extras: seq<Cpf.Item>)

  function Words(buf: bytes, n: nat): seq<u16>
    requires |buf| >= 2 * n
  {
    if n == 0 then [] else [Get16(buf)] + Words(buf[2..], n - 1)
  }

  function ResponseDecoded(data: bytes): Result<Response> {
    if |data| < 4 || data[3] as int * 2 > |data| - 4 then Err(InvalidPacket)
    else Ok(Response(data[0], data[2], Words(data[4..], data[3]), data[4 + data[3] as int * 2..], []))
  }

  lemma {:induction false} WordsSnoc(buf: bytes, n: nat)
    requires |buf| >= 2 * n + 2
    ensures Words(buf, n + 1) == Words(buf, n) + [Get16(buf[2 * n..])]
    decreases n
  {
    if n == 0 {
      assert buf[0..] == buf;
      assert Words(buf, 1) == [Get16(buf)] + Words(buf[2..], 0);
    } else {
      var tail := buf[2..];
      WordsSnoc(tail, n - 1);
      assert tail[2 * (n - 1)..] == buf[2 * n..];
      var last := [Get16(buf[2 * n..])];
      assert Words(buf, n + 1) == [Get16(buf)] + Words(tail, n);
      assert [Get16(buf)] + (Words(tail, n - 1) + last) == [Get16(buf)] + Words(tail, n - 1) + last;
    }
  }

  /** MessageRouterResponse::decode. */
  method DecodeResponse(data: bytes) returns (r: Result<Response>)
    ensures r == ResponseDecoded(data)
  {
    if |data| < 4 {
      return Err(InvalidPacket);
    }
    var service, generalStatus, size := data[0], data[2], data[3];
    var buf := data[4..];
    if size * 2 > |buf| {
      return Err(InvalidPacket);
    }
    var additional: seq<u16> := [];
    for i := 0 to size
      invariant buf == data[4 + 2 * i..]
      invariant additional == Words(data[4..], i)
    {
      WordsSnoc(data[4..], i);
      assert data[4..][2 * i..] == buf;
      additional := additional + [Get16(buf)];
      buf := buf[2..];
    }
    return Ok(Response(service, generalStatus, additional, buf, []));
  }

  function ReplyDecoded(data: bytes): Result<Response> {
    if |data| < 6 then Err(Truncated)
    else
      var items :- Cpf.Decoded(data[6..]);
      if |items| < 2 then Err(InvalidPacket)
      else
        var response :- ResponseDecoded(items[1].data);
        Ok(response.(extras := items[2..]))
  }

  /** send_request_with_items after the exchange. */
  method ReadReply(reply: Encaps.EncapsPacket) returns (r: Result<Response>)
    ensures r == ReplyDecoded(reply.data)
  {
    if |reply.data| < 6 {
      return Err(Truncated);
    }
    var decoded := Cpf.Decode(reply.data[6..]);
    if decoded.Err? {
      return Err(decoded.error);
    }
    var items := decoded.value;
    if |items| < 2 {
      return Err(InvalidPacket);
    }
    var response := DecodeResponse(items[1].data);
    if response.Err? {
      return Err(response.error);
    }
    return Ok(response.value.(extras := items[2..]));
  }

  function WordsBytes(words: seq<u16>): bytes {
    if words == [] then [] else Put16(words[0]) + WordsBytes(words[1..])
  }

  /** What a device writes in reply. */
  function ResponseBytes(r: Response): bytes {
    [r.service, 0, r.generalStatus, |r.additionalStatus| % 0x100] + WordsBytes(r.additionalStatus) + r.data
  }

  lemma {:induction false} WordsOfBytes(words: seq<u16>, rest: bytes)
    ensures |WordsBytes(words)| == 2 * |words|
    ensures Words(WordsBytes(words) + rest, |words|) == words
  {
    if words != [] {
      WordsOfBytes(words[1..], rest);
      assert WordsBytes(words) + rest == Put16(words[0]) + (WordsBytes(words[1..]) + rest);
      GetPut16(words[0], WordsBytes(words[1..]) + rest);
      assert words == [words[0]] + words[1..];
    }
  }

  lemma ResponseOfBytes(r: Response)
    requires |r.additionalStatus| < 0x100
    ensures ResponseDecoded(ResponseBytes(r)) == Ok(r.(extras := []))
  {
    var b := ResponseBytes(r);
    var w := WordsBytes(r.additionalStatus);
    WordsOfBytes(r.additionalStatus, r.data);
    assert b[4..] == w + r.data;
    assert b[4 + |w|..] == r.data;
  }

  lemma LongStatusIsMisread(r: Response)
    requires |r.additionalStatus| >= 0x100
    ensures var d := ResponseDecoded(ResponseBytes(r)); d.Err? || d.value.additionalStatus != r.additionalStatus
  {
    var b := ResponseBytes(r);
    assert b[3] < 0x100;
    if b[3] as int * 2 <= |b| - 4 {
      WordsLength(b[4..], b[3]);
    }
  }

  lemma {:induction false} WordsLength(buf: bytes, n: nat)
    requires |buf| >= 2 * n
    ensures |Words(buf, n)| == n
  {
    if n > 0 {
      WordsLength(buf[2..], n - 1);
    }
  }

  /** What the caller of send_request_with_items gets from the bytes of a reply. */
  function Received(bs: bytes): Result<Response> {
    var packet :- Encaps.Decoded(bs);
    ReplyDecoded(packet.data)
  }

  /** Whatever a device replies comes back to the caller of send_request_with_items
      field for field, with the items behind the data item, exactly when the additional
      status has fewer than 256 words and the SendRRData body fits its 16-bit length. */
  lemma ReplyStackIsInvertible(session: u32, timeout: u16, address: Cpf.Item, r: Response)
    ensures var items := [address, Cpf.UnconnectedData(ResponseBytes(r))] + r.extras;
            var packet := Encaps.SendRrData(session, timeout, Cpf.PacketBytes(items));
            Received(Encaps.PacketBytes(packet)) == Ok(r)
            <==> |r.additionalStatus| < 0x100 && 6 + |Cpf.PacketBytes(items)| < 0x1_0000
  {
    var items := [address, Cpf.UnconnectedData(ResponseBytes(r))] + r.extras;
    if 6 + |Cpf.PacketBytes(items)| >= 0x1_0000 {
      OversizedIsRejected(Encaps.SendRrData(session, timeout, Cpf.PacketBytes(items)));
    } else {
      CpfInsideRrData(session, timeout, items);
      if |r.additionalStatus| < 0x100 {
        ResponseOfBytes(r);
        assert items[2..] == r.extras;
      } else {
        LongStatusIsMisread(r);
      }
    }
  }
}
