/**
 The common packet format: a counted list of typed, length-prefixed items, and the
 allocation-free form used for implicit (class 0 and 1) packets.
 */
module CommonPacket {
  import opened Wire

  const NULL_ADDRESS: u16 := 0x0000
  const CONNECTED_TRANSPORT_PACKET: u16 := 0x00B1
  const UNCONNECTED_MESSAGE: u16 := 0x00B2
  const SEQUENCED_ADDRESS: u16 := 0x8002

  datatype Item = Item(typeId: u16, data: bytes)

  function NullAddress(): Item {
    Item(NULL_ADDRESS, [])
  }

  function UnconnectedData(data: bytes): Item {
    Item(UNCONNECTED_MESSAGE, data)
  }

  function ConnectedData(data: bytes): Item {
    Item(CONNECTED_TRANSPORT_PACKET, data)
  }

  function SequencedAddress(connectionId: u32, sequenceNumber: u32): Item {
    Item(SEQUENCED_ADDRESS, Put32(connectionId) + Put32(sequenceNumber))
  }

  // ---------------------------------------------------------------- encoding

  function ItemBytes(item: Item): bytes {
    Put16(item.typeId) + Put16(|item.data|) + item.data
  }

  function ItemsBytes(items: seq<Item>): bytes {
    if items == [] then [] else ItemBytes(items[0]) + ItemsBytes(items[1..])
  }

  /** The bytes of an item list. Count and lengths are cut to 16 bits, as the casts do. */
  function PacketBytes(items: seq<Item>): bytes {
    Put16(|items|) + ItemsBytes(items)
  }

  lemma {:induction false} ItemsBytesOfConcat(a: seq<Item>, b: seq<Item>)
    ensures ItemsBytes(a + b) == ItemsBytes(a) + ItemsBytes(b)
  {
    if a == [] {
      assert a + b == b;
    } else {
      assert (a + b)[0] == a[0] && (a + b)[1..] == a[1..] + b;
      ItemsBytesOfConcat(a[1..], b);
    }
  }

  /** CommonPacket::encode. */
  method Encode(items: seq<Item>) returns (out: bytes)
    ensures out == PacketBytes(items)
  {
    out := Put16(|items|);
    for i := 0 to |items|
      invariant out == Put16(|items|) + ItemsBytes(items[..i])
    {
      out := out + Put16(items[i].typeId);
      out := out + Put16(|items[i].data|);
      out := out + items[i].data;
      assert items[..i + 1] == items[..i] + [items[i]];
      ItemsBytesOfConcat(items[..i], [items[i]]);
      assert ItemsBytes([items[i]]) == ItemBytes(items[i]) + ItemsBytes([]);
    }
    assert items[..|items|] == items;
  }

  // ---------------------------------------------------------------- decoding

  /** One item and the bytes behind it. */
  function ReadItem(buf: bytes): Result<(Item, bytes)> {
    if |buf| < 4 then Err(Truncated)
    else if |buf| - 4 < Get16(buf[2..]) then Err(InvalidPacket)
    else Ok((Item(Get16(buf), buf[4..4 + Get16(buf[2..])]), buf[4 + Get16(buf[2..])..]))
  }

  /** Up to count items; a buffer that ends on an item boundary ends the list early. */
  function ReadItems(count: nat, buf: bytes): Result<seq<Item>> {
    if count == 0 || buf == [] then Ok([])
    else
      var (item, rest) :- ReadItem(buf);
      var items :- ReadItems(count - 1, rest);
      Ok([item] + items)
  }

  function Decoded(buf: bytes): Result<seq<Item>> {
    if |buf| < 2 then Err(Truncated) else ReadItems(Get16(buf), buf[2..])
  }

  /** Items collected so far, in front of what is still to be read. */
  function Prepend(items: seq<Item>, rest: Result<seq<Item>>): Result<seq<Item>> {
    match rest
    case Ok(more) => Ok(items + more)
    case Err(e) => Err(e)
  }

  lemma PrependIsAssociative(items: seq<Item>, item: Item, rest: Result<seq<Item>>)
    ensures Prepend(items, Prepend([item], rest)) == Prepend(items + [item], rest)
  {
    if rest.Ok? {
      assert items + ([item] + rest.value) == (items + [item]) + rest.value;
    }
  }

  /** CommonPacket::decode. */
  method Decode(data: bytes) returns (r: Result<seq<Item>>)
    ensures r == Decoded(data)
  {
    var buf := data;
    if |buf| < 2 {
      return Err(Truncated);
    }
    var count := Get16(buf);
    buf := buf[2..];
    var items: seq<Item> := [];
    var i := 0;
    assert ReadItems(count, buf).Ok? ==> [] + ReadItems(count, buf).value == ReadItems(count, buf).value;
    while i < count && buf != []
      invariant 0 <= i <= count
      invariant Decoded(data) == Prepend(items, ReadItems(count - i, buf))
    {
      if |buf| < 4 {
        return Err(Truncated);
      }
      var typeId := Get16(buf);
      var len := Get16(buf[2..]);
      if |buf| - 4 < len {
        return Err(InvalidPacket);
      }
      var item := Item(typeId, buf[4..4 + len]);
      assert ReadItem(buf) == Ok((item, buf[4 + len..]));
      PrependIsAssociative(items, item, ReadItems(count - i - 1, buf[4 + len..]));
      items := items + [item];
      buf := buf[4 + len..];
      i := i + 1;
    }
    assert items + [] == items;
    return Ok(items);
  }

  // ---------------------------------------------------------------- the generic round trip

  /** Every length and the count fit their 16-bit fields. */
  predicate Fits(items: seq<Item>) {
    |items| < 0x1_0000 && forall i | 0 <= i < |items| :: |items[i].data| < 0x1_0000
  }

  lemma ReadItemOfBytes(item: Item, rest: bytes)
    requires |item.data| < 0x1_0000
    ensures ReadItem(ItemBytes(item) + rest) == Ok((item, rest))
  {
    var buf := ItemBytes(item) + rest;
    assert buf == Put16(item.typeId) + (Put16(|item.data|) + (item.data + rest));
    GetPut16(item.typeId, Put16(|item.data|) + (item.data + rest));
    GetPut16(|item.data|, item.data + rest);
    assert buf[4..] == item.data + rest;
    assert buf[4..4 + |item.data|] == item.data;
    assert buf[4 + |item.data|..] == rest;
  }

  lemma {:induction false} ReadItemsOfBytes(items: seq<Item>, tail: bytes)
    requires forall i | 0 <= i < |items| :: |items[i].data| < 0x1_0000
    ensures ReadItems(|items|, ItemsBytes(items) + tail) == Ok(items)
  {
    if items != [] {
      var rest := ItemsBytes(items[1..]) + tail;
      assert ItemsBytes(items) + tail == ItemBytes(items[0]) + rest;
      ReadItemOfBytes(items[0], rest);
      ReadItemsOfBytes(items[1..], tail);
      assert items == [items[0]] + items[1..];
    }
  }

  lemma {:induction false} ReadItemsFit(count: nat, buf: bytes)
    requires ReadItems(count, buf).Ok?
    ensures |ReadItems(count, buf).value| <= count
    ensures forall i | 0 <= i < |ReadItems(count, buf).value| :: |ReadItems(count, buf).value[i].data| < 0x1_0000
    decreases count
  {
    if count != 0 && buf != [] {
      var (item, rest) := ReadItem(buf).value;
      ReadItemsFit(count - 1, rest);
    }
  }

  lemma DecodedFits(buf: bytes)
    requires Decoded(buf).Ok?
    ensures Fits(Decoded(buf).value)
  {
    ReadItemsFit(Get16(buf), buf[2..]);
  }

  lemma DecodeOfFitting(items: seq<Item>, tail: bytes)
    requires Fits(items)
    ensures Decoded(PacketBytes(items) + tail) == Ok(items)
  {
    assert PacketBytes(items) + tail == Put16(|items|) + (ItemsBytes(items) + tail);
    GetPut16(|items|, ItemsBytes(items) + tail);
    ReadItemsOfBytes(items, tail);
  }

  /** Decoding an encoded list gives the list back, whatever bytes follow it, exactly
      when its count and all its lengths fit 16 bits. */
  lemma DecodeOfEncode(items: seq<Item>, tail: bytes)
    ensures Decoded(PacketBytes(items) + tail) == Ok(items) <==> Fits(items)
  {
    if Fits(items) {
      DecodeOfFitting(items, tail);
    } else if Decoded(PacketBytes(items) + tail).Ok? {
      DecodedFits(PacketBytes(items) + tail);
    }
  }

  // ---------------------------------------------------------------- implicit packets

  datatype ConnectedPacket = ConnectedPacket(connectionId: u32, sequenceNumber: u32, data: bytes)

  function Concat(parts: seq<bytes>): bytes {
    if parts == [] then [] else parts[0] + Concat(parts[1..])
  }

  lemma {:induction false} ConcatSnoc(parts: seq<bytes>, last: bytes)
    ensures Concat(parts + [last]) == Concat(parts) + last
  {
    if parts == [] {
      assert parts + [last] == [last];
      assert Concat([last]) == last + Concat([]);
    } else {
      assert (parts + [last])[0] == parts[0] && (parts + [last])[1..] == parts[1..] + [last];
      ConcatSnoc(parts[1..], last);
    }
  }

  /** The two items an implicit packet stands for. */
  function ConnectedItems(connectionId: u32, sequenceNumber: u32, data: bytes): seq<Item> {
    [SequencedAddress(connectionId, sequenceNumber), ConnectedData(data)]
  }

  /** encode_connected_packet: for all parts, also those that do not fit, the bytes are
      those of the generic encoding of the two items. */
  method EncodeConnectedPacket(connectionId: u32, sequenceNumber: u32, parts: seq<bytes>) returns (out: bytes)
    ensures out == PacketBytes(ConnectedItems(connectionId, sequenceNumber, Concat(parts)))
  {
    var len := 0;
    for i := 0 to |parts|
      invariant len == |Concat(parts[..i])|
    {
      ConcatSnoc(parts[..i], parts[i]);
      assert parts[..i + 1] == parts[..i] + [parts[i]];
      len := len + |parts[i]|;
    }
    out := Put16(2) + Put16(SEQUENCED_ADDRESS) + Put16(8);
    out := out + Put32(connectionId) + Put32(sequenceNumber);
    out := out + Put16(CONNECTED_TRANSPORT_PACKET) + Put16(len);
    ghost var head := out;
    for i := 0 to |parts|
      invariant out == head + Concat(parts[..i])
    {
      ConcatSnoc(parts[..i], parts[i]);
      assert parts[..i + 1] == parts[..i] + [parts[i]];
      out := out + parts[i];
    }
    assert parts[..|parts|] == parts;
    ConnectedBytesLayout(connectionId, sequenceNumber, Concat(parts));
  }

  lemma ConnectedBytesLayout(connectionId: u32, sequenceNumber: u32, data: bytes)
    ensures PacketBytes(ConnectedItems(connectionId, sequenceNumber, data)) ==
            Put16(2) + Put16(SEQUENCED_ADDRESS) + Put16(8) + Put32(connectionId) + Put32(sequenceNumber) +
            Put16(CONNECTED_TRANSPORT_PACKET) + Put16(|data|) + data
  {
    var items := ConnectedItems(connectionId, sequenceNumber, data);
    ItemsBytesOfTwo(items);
    assert ItemBytes(items[0]) == Put16(SEQUENCED_ADDRESS) + Put16(8) + (Put32(connectionId) + Put32(sequenceNumber));
    assert ItemBytes(items[1]) == Put16(CONNECTED_TRANSPORT_PACKET) + Put16(|data|) + data;
  }

  lemma ItemsBytesOfTwo(items: seq<Item>)
    requires |items| == 2
    ensures ItemsBytes(items) == ItemBytes(items[0]) + ItemBytes(items[1])
  {
    assert items == [items[0]] + [items[1]];
    ItemsBytesOfConcat([items[0]], [items[1]]);
    assert ItemsBytes([items[0]]) == ItemBytes(items[0]) + ItemsBytes([]);
    assert ItemsBytes([items[1]]) == ItemBytes(items[1]) + ItemsBytes([]);
  }

  /** decode_connected_packet, read by read. */
  method DecodeConnectedPacket(data: bytes) returns (r: Result<ConnectedPacket>)
    ensures r == ConnectedDecoded(data)
  {
    var buf := data;
    if |buf| < 2 { return Err(Truncated); }
    var count := Get16(buf);
    buf := buf[2..];
    if count < 2 { return Err(InvalidPacket); }
    if |buf| < 2 { return Err(Truncated); }
    var addrType := Get16(buf);
    buf := buf[2..];
    if |buf| < 2 { return Err(Truncated); }
    var addrLen := Get16(buf);
    buf := buf[2..];
    if addrType != SEQUENCED_ADDRESS || addrLen != 8 { return Err(InvalidPacket); }
    if |buf| < 4 { return Err(Truncated); }
    var connectionId := Get32(buf);
    buf := buf[4..];
    if |buf| < 4 { return Err(Truncated); }
    var sequenceNumber := Get32(buf);
    buf := buf[4..];
    assert buf == data[14..];
    if |buf| < 2 { return Err(Truncated); }
    var dataType := Get16(buf);
    buf := buf[2..];
    if dataType != CONNECTED_TRANSPORT_PACKET { return Err(InvalidPacket); }
    if |buf| < 2 { return Err(Truncated); }
    var len := Get16(buf);
    buf := buf[2..];
    if |buf| < len { return Err(Truncated); }
    assert data[14..][2..] == data[16..] && buf == data[18..];
    assert data[2..][2..][2..] == data[6..] && data[6..][4..] == data[10..];
    assert buf[..len] == data[18..18 + len];
    return Ok(ConnectedPacket(connectionId, sequenceNumber, buf[..len]));
  }

  /** The fixed layout decode_connected_packet expects, offset by offset. */
  function ConnectedDecoded(buf: bytes): Result<ConnectedPacket> {
    if |buf| < 2 then Err(Truncated)
    else if Get16(buf) < 2 then Err(InvalidPacket)
    else if |buf| < 6 then Err(Truncated)
    else if Get16(buf[2..]) != SEQUENCED_ADDRESS || Get16(buf[4..]) != 8 then Err(InvalidPacket)
    else if |buf| < 16 then Err(Truncated)
    else if Get16(buf[14..]) != CONNECTED_TRANSPORT_PACKET then Err(InvalidPacket)
    else if |buf| < 18 || |buf| - 18 < Get16(buf[16..]) then Err(Truncated)
    else Ok(ConnectedPacket(Get32(buf[6..]), Get32(buf[10..]), buf[18..18 + Get16(buf[16..])]))
  }

  /** The packet a pair of generic items denotes, if they are the right two. */
  function FromItems(items: seq<Item>): Option<ConnectedPacket> {
    if |items| == 2 && items[0].typeId == SEQUENCED_ADDRESS && |items[0].data| == 8 &&
       items[1].typeId == CONNECTED_TRANSPORT_PACKET
    then Some(ConnectedPacket(Get32(items[0].data), Get32(items[0].data[4..]), items[1].data))
    else None
  }

  /** The fast decoder against the generic one, for every buffer: it accepts exactly when
      the count is at least 2 and the generic reading of the first two items gives a
      sequenced address of 8 bytes and a connected data item, and then the values agree. */
  lemma FastDecodeRefinesGeneric(buf: bytes)
    ensures var fast := ConnectedDecoded(buf);
            var two := if |buf| >= 2 && Get16(buf) >= 2 then ReadItems(2, buf[2..]) else Err(InvalidPacket);
            && (fast.Ok? <==> two.Ok? && FromItems(two.value).Some?)
            && (fast.Ok? ==> FromItems(two.value) == Some(fast.value))
  {
    if |buf| >= 2 && Get16(buf) >= 2 && |buf| >= 6 {
      var b := buf[2..];
      assert b[2..] == buf[4..];
      if Get16(b) == SEQUENCED_ADDRESS && Get16(b[2..]) == 8 {
        FastDecodeAfterAddress(buf);
      } else if ReadItem(b).Ok? {
        assert ReadItems(2, b).Ok? ==> ReadItems(2, b).value[0] == ReadItem(b).value.0;
      }
    }
  }

  lemma FastDecodeAfterAddress(buf: bytes)
    requires |buf| >= 6 && Get16(buf) >= 2
    requires Get16(buf[2..]) == SEQUENCED_ADDRESS && Get16(buf[4..]) == 8
    ensures var fast := ConnectedDecoded(buf);
            var two := ReadItems(2, buf[2..]);
            && (fast.Ok? <==> two.Ok? && FromItems(two.value).Some?)
            && (fast.Ok? ==> FromItems(two.value) == Some(fast.value))
  {
    var b := buf[2..];
    assert b[2..] == buf[4..];
    if |buf| >= 14 {
      var address := Item(SEQUENCED_ADDRESS, buf[6..14]);
      var rest := buf[14..];
      assert b[4..12] == buf[6..14] && b[12..] == rest;
      assert ReadItem(b) == Ok((address, rest));
      assert Get32(buf[6..14]) == Get32(buf[6..]);
      assert Get32(buf[6..14][4..]) == Get32(buf[10..]);
      if |rest| >= 4 {
        assert rest[2..] == buf[16..];
        assert ReadItem(rest).Ok? ==> ReadItems(1, rest) == Ok([ReadItem(rest).value.0] + []);
        assert |rest| - 4 >= Get16(rest[2..]) ==> rest[4..4 + Get16(rest[2..])] == buf[18..18 + Get16(buf[16..])];
      }
    }
  }

  /** On a count of exactly 2 the comparison is with the generic decoder itself. */
  lemma FastDecodeIsGenericOnTwoItems(buf: bytes)
    requires |buf| >= 2 && Get16(buf) == 2
    ensures var fast := ConnectedDecoded(buf);
            var all := Decoded(buf);
            && (fast.Ok? <==> all.Ok? && FromItems(all.value).Some?)
            && (fast.Ok? ==> FromItems(all.value) == Some(fast.value))
  {
    FastDecodeRefinesGeneric(buf);
  }

  /** With more than two items the fast decoder accepts packets the generic one rejects. */
  lemma FastDecodeIgnoresLaterItems()
    ensures exists buf :: ConnectedDecoded(buf).Ok? && Decoded(buf).Err?
  {
    var items := ConnectedItems(1, 2, []);
    var b := ItemBytes(items[0]) + (ItemBytes(items[1]) + [0]);
    var buf := Put16(3) + b;
    GetPut16(3, b);
    ReadItemOfBytes(items[0], ItemBytes(items[1]) + [0]);
    ReadItemOfBytes(items[1], [0]);
    assert ReadItems(1, [0]) == Err(Truncated);
    assert ReadItems(2, ItemBytes(items[1]) + [0]) == Err(Truncated);
    assert Decoded(buf) == Err(Truncated);
    ReadItemsOfBytes(items, [0]);
    ItemsBytesOfTwo(items);
    assert b == ItemsBytes(items) + [0];
    FastDecodeRefinesGeneric(buf);
  }

  /** An implicit packet comes back as its parts exactly when the payload fits 16 bits. */
  lemma ConnectedRoundTrip(connectionId: u32, sequenceNumber: u32, data: bytes)
    ensures |data| < 0x1_0000 <==>
            ConnectedDecoded(PacketBytes(ConnectedItems(connectionId, sequenceNumber, data)))
            == Ok(ConnectedPacket(connectionId, sequenceNumber, data))
  {
    var items := ConnectedItems(connectionId, sequenceNumber, data);
    var buf := PacketBytes(items);
    assert buf == PacketBytes(items) + [];
    GetPut16(2, ItemsBytes(items));
    FastDecodeIsGenericOnTwoItems(buf);
    if |data| < 0x1_0000 {
      DecodeOfEncode(items, []);
      assert Put32(connectionId) + Put32(sequenceNumber) + [] == Put32(connectionId) + Put32(sequenceNumber);
      GetPut32(connectionId, Put32(sequenceNumber));
      assert Put32(sequenceNumber) + [] == Put32(sequenceNumber);
      GetPut32(sequenceNumber, []);
    }
  }
}
