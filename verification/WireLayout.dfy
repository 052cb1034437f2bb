/**
 What is on the wire, byte by byte: every number at its offset, with the codes of the CIP
 Networks Library written out.  `Le` and `Field` say what little-endian fields are without
 the encoders' help, so these laws fix the encoders and decoders, which otherwise only agree
 with each other.
 */
module WireLayout {
  import opened Wire
  import Cpf = CommonPacket
  import Encaps = Encapsulation
  import Router = MessageRouter
  import Paths = ConnectionPath

  // ---------------------------------------------------------------- little-endian numbers

  /** The number that bytes stand for, least significant byte first. */
  function Le(b: bytes): nat {
    if b == [] then 0 else b[0] as int + 0x100 * Le(b[1..])
  }

  /** An n-byte number at an offset. */
  predicate Field(b: bytes, at: nat, n: nat, v: nat) {
    at + n <= |b| && Le(b[at..at + n]) == v
  }

  lemma LeOfTwo(b: bytes)
    requires |b| == 2
    ensures Le(b) == b[0] as int + 0x100 * b[1] as int
  {
    assert b[1..][1..] == [];
    assert Le(b[1..]) == b[1] as int + 0x100 * Le([]);
  }

  lemma LeOfFour(b: bytes)
    requires |b| == 4
    ensures Le(b) == Le(b[..2]) + 0x1_0000 * Le(b[2..])
  {
    LeOfTwo(b[..2]);
    LeOfTwo(b[2..]);
    LeOfTwo(b[1..][1..]);
    assert b[1..][1..] == b[2..];
    assert Le(b) == b[0] as int + 0x100 * (b[1] as int + 0x100 * Le(b[1..][1..]));
  }

  /** 16-bit fields hold the low 16 bits, least significant byte first. */
  lemma Put16IsLittleEndian(v: nat)
    ensures |Put16(v)| == 2 && Le(Put16(v)) == v % 0x1_0000
  {
    LeOfTwo(Put16(v));
    GetPut16(v, []);
    assert Put16(v) + [] == Put16(v);
  }

  lemma Put32IsLittleEndian(v: u32)
    ensures |Put32(v)| == 4 && Le(Put32(v)) == v
  {
    LeOfFour(Put32(v));
    Put16IsLittleEndian(v % 0x1_0000);
    Put16IsLittleEndian(v / 0x1_0000);
    assert Put32(v)[..2] == Put16(v % 0x1_0000) && Put32(v)[2..] == Put16(v / 0x1_0000);
  }

  lemma Get16IsLittleEndian(b: bytes)
    requires |b| >= 2
    ensures Get16(b) == Le(b[..2])
  {
    LeOfTwo(b[..2]);
  }

  lemma Get32IsLittleEndian(b: bytes)
    requires |b| >= 4
    ensures Get32(b) == Le(b[..4])
  {
    LeOfFour(b[..4]);
    Get16IsLittleEndian(b);
    Get16IsLittleEndian(b[2..]);
    assert b[..4][..2] == b[..2] && b[..4][2..] == b[2..][..2];
  }

  /** Reading at an offset. */
  lemma GetAt(b: bytes, at: nat)
    ensures at + 2 <= |b| ==> Field(b, at, 2, Get16(b[at..]))
    ensures at + 4 <= |b| ==> Field(b, at, 4, Get32(b[at..]))
  {
    if at + 2 <= |b| {
      Get16IsLittleEndian(b[at..]);
      assert b[at..][..2] == b[at..at + 2];
    }
    if at + 4 <= |b| {
      Get32IsLittleEndian(b[at..]);
      assert b[at..][..4] == b[at..at + 4];
    }
  }

  lemma Put16At(b: bytes, at: nat, v: nat, tail: bytes)
    requires at <= |b| && b[at..] == Put16(v) + tail
    ensures Field(b, at, 2, v % 0x1_0000) && b[at + 2..] == tail
  {
    Put16IsLittleEndian(v);
    assert b[at..at + 2] == b[at..][..2] == Put16(v);
    DropTwice(b, at, 2);
  }

  lemma Put32At(b: bytes, at: nat, v: u32, tail: bytes)
    requires at <= |b| && b[at..] == Put32(v) + tail
    ensures Field(b, at, 4, v) && b[at + 4..] == tail
  {
    Put32IsLittleEndian(v);
    assert b[at..at + 4] == b[at..][..4] == Put32(v);
    DropTwice(b, at, 4);
  }

  // ---------------------------------------------------------------- common packets

  /** An implicit packet: two items, a sequenced address (0x8002) of 8 bytes and connected
      data (0x00B1). */
  predicate IsConnectedPacket(b: bytes, id: u32, number: u32, data: bytes) {
    && Field(b, 0, 2, 2) && Field(b, 2, 2, 0x8002) && Field(b, 4, 2, 8)
    && Field(b, 6, 4, id) && Field(b, 10, 4, number)
    && Field(b, 14, 2, 0xB1) && Field(b, 16, 2, |data| % 0x1_0000) && b[18..] == data
  }

  lemma ConnectedPacketOnTheWire(id: u32, number: u32, data: bytes)
    ensures IsConnectedPacket(Cpf.PacketBytes(Cpf.ConnectedItems(id, number, data)), id, number, data)
  {
    var b := Cpf.PacketBytes(Cpf.ConnectedItems(id, number, data));
    Cpf.ConnectedBytesLayout(id, number, data);
    var t5 := Put16(|data|) + data;
    var t4 := Put16(0xB1) + t5;
    var t3 := Put32(number) + t4;
    var t2 := Put32(id) + t3;
    var t1 := Put16(8) + t2;
    var t0 := Put16(0x8002) + t1;
    Associate7(Put16(2), Put16(0x8002), Put16(8), Put32(id), Put32(number), Put16(0xB1), t5);
    assert Put16(2) + Put16(0x8002) + Put16(8) + Put32(id) + Put32(number) + Put16(0xB1) + Put16(|data|) + data
        == Put16(2) + Put16(0x8002) + Put16(8) + Put32(id) + Put32(number) + Put16(0xB1) + t5;
    assert b[0..] == b == Put16(2) + t0;
    Put16At(b, 0, 2, t0);
    Put16At(b, 2, 0x8002, t1);
    Put16At(b, 4, 8, t2);
    Put32At(b, 6, id, t3);
    Put32At(b, 10, number, t4);
    Put16At(b, 14, 0xB1, t5);
    Put16At(b, 16, |data|, data);
  }

  /** The fast decoder accepts exactly these packets, with any count from 2 on and any bytes
      behind the data, and reads their fields; it tells a short packet from a wrong one. */
  lemma ConnectedPacketIsRead(b: bytes)
    ensures var r := Cpf.ConnectedDecoded(b);
      if |b| < 2 then r == Err(Truncated)
      else if Le(b[0..2]) < 2 then r == Err(InvalidPacket)
      else if |b| < 6 then r == Err(Truncated)
      else if !(Field(b, 2, 2, 0x8002) && Field(b, 4, 2, 8)) then r == Err(InvalidPacket)
      else if |b| < 16 then r == Err(Truncated)
      else if !Field(b, 14, 2, 0xB1) then r == Err(InvalidPacket)
      else if |b| < 18 || |b| < 18 + Le(b[16..18]) then r == Err(Truncated)
      else
        && r.Ok? && Field(b, 6, 4, r.value.connectionId) && Field(b, 10, 4, r.value.sequenceNumber)
        && r.value.data == b[18..18 + Le(b[16..18])]
  {
    GetAt(b, 0);
    GetAt(b, 2);
    GetAt(b, 4);
    GetAt(b, 6);
    GetAt(b, 10);
    GetAt(b, 14);
    GetAt(b, 16);
    assert |b| >= 2 ==> b[0..] == b;
  }

  /** Where item i of a list starts. */
  function ItemAt(items: seq<Cpf.Item>, i: nat): nat
    requires i <= |items|
  {
    if i == 0 then 2 else ItemAt(items, i - 1) + 4 + |items[i - 1].data|
  }

  lemma {:induction false} ItemAtIsLength(items: seq<Cpf.Item>, i: nat)
    requires i <= |items|
    ensures ItemAt(items, i) == 2 + |Cpf.ItemsBytes(items[..i])|
  {
    if i == 0 {
      assert items[..0] == [];
    } else {
      ItemAtIsLength(items, i - 1);
      assert items[..i] == items[..i - 1] + [items[i - 1]];
      Cpf.ItemsBytesOfConcat(items[..i - 1], [items[i - 1]]);
      assert Cpf.ItemsBytes([items[i - 1]]) == Cpf.ItemBytes(items[i - 1]) + Cpf.ItemsBytes([]);
    }
  }

  predicate HasItem(b: bytes, at: nat, x: Cpf.Item) {
    && Field(b, at, 2, x.typeId) && Field(b, at + 2, 2, |x.data| % 0x1_0000)
    && at + 4 + |x.data| <= |b| && b[at + 4..at + 4 + |x.data|] == x.data
  }

  lemma ItemIsThere(b: bytes, at: nat, x: Cpf.Item, back: bytes)
    requires at <= |b| && b[at..] == Cpf.ItemBytes(x) + back
    ensures HasItem(b, at, x)
  {
    var t1 := x.data + back;
    var t0 := Put16(|x.data|) + t1;
    assert b[at..] == Put16(x.typeId) + t0;
    Put16At(b, at, x.typeId, t0);
    Put16At(b, at + 2, |x.data|, t1);
    assert b[at + 4..at + 4 + |x.data|] == b[at + 4..][..|x.data|] == x.data;
  }

  lemma SplitAt(items: seq<Cpf.Item>, i: nat)
    requires i < |items|
    ensures items == items[..i] + ([items[i]] + items[i + 1..])
  {
  }

  lemma ItemsCons(x: Cpf.Item, rest: seq<Cpf.Item>)
    ensures Cpf.ItemsBytes([x] + rest) == Cpf.ItemBytes(x) + Cpf.ItemsBytes(rest)
  {
    assert ([x] + rest)[1..] == rest;
  }

  lemma ItemsAround(items: seq<Cpf.Item>, i: nat)
    requires i < |items|
    ensures Cpf.ItemsBytes(items)
         == Cpf.ItemsBytes(items[..i]) + (Cpf.ItemBytes(items[i]) + Cpf.ItemsBytes(items[i + 1..]))
  {
    SplitAt(items, i);
    ItemsCons(items[i], items[i + 1..]);
    Cpf.ItemsBytesOfConcat(items[..i], [items[i]] + items[i + 1..]);
  }

  /** The count, then item after item: its type, its length, its data. */
  lemma ItemsOnTheWire(items: seq<Cpf.Item>, i: nat)
    requires i < |items|
    ensures var b := Cpf.PacketBytes(items);
      Field(b, 0, 2, |items| % 0x1_0000) && HasItem(b, ItemAt(items, i), items[i]) && |b| == ItemAt(items, |items|)
  {
    var b := Cpf.PacketBytes(items);
    ItemAtIsLength(items, i);
    ItemAtIsLength(items, |items|);
    assert items[..|items|] == items;
    assert b[0..] == b;
    Put16At(b, 0, |items|, Cpf.ItemsBytes(items));
    ItemsAround(items, i);
    var back := Cpf.ItemsBytes(items[i + 1..]);
    AfterPrefix(b, Put16(|items|), Cpf.ItemsBytes(items[..i]), Cpf.ItemBytes(items[i]) + back);
    ItemIsThere(b, ItemAt(items, i), items[i], back);
  }

  lemma AfterPrefix(b: bytes, head: bytes, front: bytes, tail: bytes)
    requires b == head + (front + tail)
    ensures b[|head| + |front|..] == tail
  {
  }

  /** Whatever the decoder accepts is an encoding: its items, in order, fill the buffer up to
      where it stopped, and it stopped because it had read as many as were announced or all
      there was. */
  lemma {:induction false} DecodedItemsAreThere(count: nat, b: bytes)
    requires Cpf.ReadItems(count, b).Ok?
    ensures var items := Cpf.ReadItems(count, b).value;
      && |items| <= count && Cpf.ItemsBytes(items) <= b
      && (|items| < count ==> Cpf.ItemsBytes(items) == b)
    decreases count
  {
    if count != 0 && b != [] {
      var (item, rest) := Cpf.ReadItem(b).value;
      DecodedItemsAreThere(count - 1, rest);
      ReadItemIsThere(b);
      var more := Cpf.ReadItems(count - 1, rest).value;
      assert ([item] + more)[1..] == more;
      assert rest == Cpf.ItemsBytes(more) + rest[|Cpf.ItemsBytes(more)|..];
    }
  }

  lemma ReadItemIsThere(b: bytes)
    requires Cpf.ReadItem(b).Ok?
    ensures b == Cpf.ItemBytes(Cpf.ReadItem(b).value.0) + Cpf.ReadItem(b).value.1
  {
    var n := Get16(b[2..]);
    PutOfGet(b);
    PutOfGet(b[2..]);
    assert b == b[..2] + (b[2..][..2] + (b[4..4 + n] + b[4 + n..]));
  }

  lemma PutOfGet(b: bytes)
    requires |b| >= 2
    ensures Put16(Get16(b)) == b[..2]
  {
  }

  lemma DecodedPacketIsThere(b: bytes)
    requires Cpf.Decoded(b).Ok?
    ensures var items := Cpf.Decoded(b).value;
      && |b| >= 2 && |items| <= Le(b[..2]) && Cpf.ItemsBytes(items) <= b[2..]
      && (|items| < Le(b[..2]) ==> Cpf.ItemsBytes(items) == b[2..])
  {
    Get16IsLittleEndian(b);
    DecodedItemsAreThere(Get16(b), b[2..]);
  }

  lemma CutItemIsTold(count: nat, x: Cpf.Item, cut: nat)
    requires count > 0 && |x.data| < 0x1_0000 && cut < 4 + |x.data|
    ensures Cpf.ReadItems(count, Cpf.ItemBytes(x)[..cut]) ==
              if cut == 0 then Ok([]) else if cut < 4 then Err(Truncated) else Err(InvalidPacket)
  {
    var all, end := Cpf.ItemBytes(x), Cpf.ItemBytes(x)[..cut];
    if cut >= 4 {
      assert all[2..] == Put16(|x.data|) + x.data;
      GetPut16(|x.data|, x.data);
      assert end[2] == all[2] && end[3] == all[3];
      assert Get16(end[2..]) == Get16(all[2..]) == |x.data|;
    }
  }

  lemma OneItemMore(count: nat, x: Cpf.Item, rest: bytes, more: Result<seq<Cpf.Item>>)
    requires |x.data| < 0x1_0000 && Cpf.ReadItems(count, rest) == more
    ensures Cpf.ReadItems(count + 1, Cpf.ItemBytes(x) + rest) == Cpf.Prepend([x], more)
  {
    Cpf.ReadItemOfBytes(x, rest);
  }

  /** What a cut inside an item leaves: nothing of it, part of its header, part of its data. */
  function Cut(a: seq<Cpf.Item>, cut: nat): Result<seq<Cpf.Item>> {
    if cut == 0 then Ok(a) else if cut < 4 then Err(Truncated) else Err(InvalidPacket)
  }

  lemma Associate3(a: bytes, b: bytes, c: bytes)
    ensures a + b + c == a + (b + c)
  {
  }

  lemma PrependCut(a: seq<Cpf.Item>, cut: nat)
    requires a != []
    ensures Cpf.Prepend([a[0]], Cut(a[1..], cut)) == Cut(a, cut)
  {
    assert [a[0]] + a[1..] == a;
  }

  /** What the decoder makes of a list whose bytes were cut off: on an item boundary the items
      before it, inside the four header bytes of an item a truncation, inside its data an
      invalid packet. */
  lemma {:induction false} CutListIsTold(count: nat, a: seq<Cpf.Item>, x: Cpf.Item, cut: nat)
    requires count > |a| && (forall i | 0 <= i < |a| :: |a[i].data| < 0x1_0000) && |x.data| < 0x1_0000
    requires cut < 4 + |x.data|
    ensures Cpf.ReadItems(count, Cpf.ItemsBytes(a) + Cpf.ItemBytes(x)[..cut]) == Cut(a, cut)
    decreases |a|
  {
    var end := Cpf.ItemBytes(x)[..cut];
    if a == [] {
      assert Cpf.ItemsBytes(a) + end == end;
      CutItemIsTold(count, x, cut);
    } else {
      CutListIsTold(count - 1, a[1..], x, cut);
      OneItemMore(count - 1, a[0], Cpf.ItemsBytes(a[1..]) + end, Cut(a[1..], cut));
      PrependCut(a, cut);
      Associate3(Cpf.ItemBytes(a[0]), Cpf.ItemsBytes(a[1..]), end);
    }
  }

  // ---------------------------------------------------------------- encapsulation

  lemma EncapsulationOnTheWire(p: Encaps.EncapsPacket)
    ensures var b := Encaps.PacketBytes(p);
      && Field(b, 0, 2, p.command) && Field(b, 2, 2, |p.data| % 0x1_0000)
      && Field(b, 4, 4, p.sessionHandle) && Field(b, 8, 4, p.status)
      && |b| >= 24 && b[12..20] == p.senderContext && Field(b, 20, 4, p.options) && b[24..] == p.data
  {
    var b := Encaps.PacketBytes(p);
    Encaps.HeaderFields(p, p.data);
    GetAt(b, 0);
    GetAt(b, 2);
    GetAt(b, 4);
    GetAt(b, 8);
    GetAt(b, 20);
    assert b[0..] == b;
  }

  /** The decoder accepts exactly the buffers whose header announces what follows it, and
      what it returns is what was encoded there. */
  lemma EncapsulationIsRead(b: bytes)
    ensures Encaps.Decoded(b).Ok? <==> |b| >= 24 && |b| == 24 + Le(b[2..4])
    ensures Encaps.Decoded(b).Ok? ==> Encaps.PacketBytes(Encaps.Decoded(b).value) == b
    ensures Encaps.Decoded(b).Err? ==> Encaps.Decoded(b) == Err(InvalidPacket)
  {
    GetAt(b, 2);
    if Encaps.Decoded(b).Ok? {
      PutOfGet(b);
      PutOfGet(b[2..]);
      Put32OfGet(b[4..]);
      Put32OfGet(b[8..]);
      Put32OfGet(b[20..]);
      SplitHeader(b);
    }
  }

  lemma Put32OfGet(b: bytes)
    requires |b| >= 4
    ensures Put32(Get32(b)) == b[..4]
  {
    var low, high := Get16(b), Get16(b[2..]);
    PutOfGet(b);
    PutOfGet(b[2..]);
    Halves(low, high);
    assert b[..4] == b[..2] + b[2..][..2];
  }

  lemma Halves(low: u16, high: u16)
    ensures var v := low as int + 0x1_0000 * high as int; v % 0x1_0000 == low && v / 0x1_0000 == high
  {
  }

  lemma SplitHeader(b: bytes)
    requires |b| >= 24
    ensures b == b[..2] + b[2..][..2] + b[4..][..4] + b[8..][..4] + b[12..20] + b[20..][..4] + b[24..]
  {
    assert b[..8] == b[..2] + b[2..][..2] + b[4..][..4];
    assert b[8..24] == b[8..][..4] + b[12..20] + b[20..][..4];
    assert b == b[..8] + (b[8..24] + b[24..]);
    assert b[..8] + (b[8..][..4] + b[12..20] + b[20..][..4] + b[24..]) == b[..8] + b[8..][..4] + b[12..20] + b[20..][..4] + b[24..];
  }

  /** SendRRData (0x6F): the session that was asked for, no status, no context, no options,
      interface handle 0, the timeout, the item list. */
  predicate IsRrData(b: bytes, session: u32, timeout: u16, cpf: bytes) {
    && Field(b, 0, 2, 0x6F) && Field(b, 2, 2, (6 + |cpf|) % 0x1_0000) && Field(b, 4, 4, session)
    && Field(b, 8, 4, 0) && |b| >= 30 && b[12..20] == [0, 0, 0, 0, 0, 0, 0, 0] && Field(b, 20, 4, 0)
    && Field(b, 24, 4, 0) && Field(b, 28, 2, timeout) && b[30..] == cpf
  }

  lemma RrDataOnTheWire(session: u32, timeout: u16, cpf: bytes)
    ensures IsRrData(Encaps.PacketBytes(Encaps.SendRrData(session, timeout, cpf)), session, timeout, cpf)
  {
    var p := Encaps.SendRrData(session, timeout, cpf);
    var b := Encaps.PacketBytes(p);
    EncapsulationOnTheWire(p);
    assert b[24..] == Put32(0) + (Put16(timeout) + cpf);
    Put32At(b, 24, 0, Put16(timeout) + cpf);
    Put16At(b, 28, timeout, cpf);
  }

  // ---------------------------------------------------------------- explicit messages

  /** A logical segment: the 8-bit form if it is asked for and the value fits, else the code
      of the 16-bit form, a pad byte and the value. */
  predicate IsLogical(b: bytes, code8: nat, v: u16, size: Router.SegmentSize) {
    if size.Bits8? && v <= 0xFF then b == [code8, v]
    else |b| == 4 && b[0] as int == code8 + 1 && b[1] == 0 && Field(b, 2, 2, v)
  }

  lemma SegmentOnTheWire(seg8: byte, v: u16, size: Router.SegmentSize)
    requires seg8 < 0xFF
    ensures IsLogical(Router.SegmentBytes(seg8, seg8 + 1, v, size), seg8, v, size)
  {
    var b := Router.SegmentBytes(seg8, seg8 + 1, v, size);
    if !(size.Bits8? && v <= 0xFF) {
      assert b[2..] == Put16(v) + [];
      Put16At(b, 2, v, []);
    }
  }

  predicate IsOptionalLogical(b: bytes, code8: nat, v: Option<u16>, size: Router.SegmentSize) {
    if v.None? then b == [] else IsLogical(b, code8, v.value, size)
  }

  /** A path: class (0x20, 0x21), then instance (0x24, 0x25) and attribute (0x30, 0x31) if there. */
  predicate IsPath(b: bytes, path: Router.EPath, size: Router.SegmentSize) {
    exists i, j | 0 <= i <= j <= |b| ::
      && IsLogical(b[..i], 0x20, path.classId, size)
      && IsOptionalLogical(b[i..j], 0x24, path.instanceId, size)
      && IsOptionalLogical(b[j..], 0x30, path.attributeId, size)
  }

  lemma SplitThree(a: bytes, b: bytes, c: bytes)
    ensures var all := a + b + c; all[..|a|] == a && all[|a|..|a| + |b|] == b && all[|a| + |b|..] == c
  {
  }

  lemma PathOnTheWire(path: Router.EPath, size: Router.SegmentSize)
    ensures IsPath(Router.PathBytes(path, size), path, size)
  {
    var c := Router.SegmentBytes(0x20, 0x21, path.classId, size);
    var i := Router.OptionalSegment(0x24, 0x25, path.instanceId, size);
    var a := Router.OptionalSegment(0x30, 0x31, path.attributeId, size);
    var b := Router.PathBytes(path, size);
    assert b == c + i + a;
    SplitThree(c, i, a);
    SegmentOnTheWire(0x20, path.classId, size);
    if path.instanceId.Some? {
      SegmentOnTheWire(0x24, path.instanceId.value, size);
    }
    if path.attributeId.Some? {
      SegmentOnTheWire(0x30, path.attributeId.value, size);
    }
    assert 0 <= |c| <= |c| + |i| <= |b|;
  }

  /** What a path says, and what a later path adds to it: a class always, the rest if it is there. */
  function Overlaid(p: Router.EPath, q: Router.EPath): Router.EPath {
    Router.EPath(q.classId,
                 if q.instanceId.Some? then q.instanceId else p.instanceId,
                 if q.attributeId.Some? then q.attributeId else p.attributeId)
  }

  lemma {:induction false} PathReadOn(p: Router.EPath, q: Router.EPath, size: Router.SegmentSize, rest: bytes)
    ensures Router.PathFrom(p, Router.PathBytes(q, size) + rest) == Router.PathFrom(Overlaid(p, q), rest)
  {
    var c := Router.SegmentBytes(0x20, 0x21, q.classId, size);
    var i := Router.OptionalSegment(0x24, 0x25, q.instanceId, size);
    var a := Router.OptionalSegment(0x30, 0x31, q.attributeId, size);
    var p1 := p.(classId := q.classId);
    var p2 := if q.instanceId.Some? then p1.(instanceId := q.instanceId) else p1;
    Router.PathFromSegment(p, 0x20, 0x21, q.classId, size, i + (a + rest));
    Router.PathFromOptional(p1, 0x24, 0x25, q.instanceId, size, a + rest);
    Router.PathFromOptional(p2, 0x30, 0x31, q.attributeId, size, rest);
    Regrouped(c, i, a, rest);
  }

  lemma Regrouped(c: bytes, i: bytes, a: bytes, rest: bytes)
    ensures c + i + a + rest == c + (i + (a + rest))
  {
  }

  /** Behind a path, another path overrides it, an unknown segment code makes the whole
      invalid, and a segment that is cut off makes it truncated. */
  lemma PathDecoderTellsWhatFollows(p: Router.EPath, q: Router.EPath, size: Router.SegmentSize, next: byte, rest: bytes)
    ensures Router.PathDecoded(Router.PathBytes(p, size) + Router.PathBytes(q, size)) == Ok(Overlaid(p, q))
    ensures next !in {0x20, 0x21, 0x24, 0x25, 0x30, 0x31} ==>
              Router.PathDecoded(Router.PathBytes(p, size) + ([next] + rest)) == Err(InvalidPacket)
    ensures next in {0x20, 0x24, 0x30} && |rest| == 0 ==>
              Router.PathDecoded(Router.PathBytes(p, size) + ([next] + rest)) == Err(Truncated)
    ensures next in {0x21, 0x25, 0x31} && |rest| < 3 ==>
              Router.PathDecoded(Router.PathBytes(p, size) + ([next] + rest)) == Err(Truncated)
  {
    var none := Router.EPath(0, None, None);
    PathReadOn(none, p, size, Router.PathBytes(q, size));
    PathReadOn(Overlaid(none, p), q, size, []);
    assert Router.PathBytes(q, size) + [] == Router.PathBytes(q, size);
    assert Overlaid(Overlaid(none, p), q) == Overlaid(p, q);
    PathReadOn(none, p, size, [next] + rest);
    assert ([next] + rest)[0] == next;
  }

  /** A router request: service, path size in words, path, data. */
  lemma RouterRequestOnTheWire(size: Router.SegmentSize, service: byte, path: Router.EPath, data: bytes)
    ensures var request := Router.RequestBytes(service, path, data, size);
            var n := |Router.PathBytes(path, size)|;
      && |request| == 2 + n + |data| && request[0] == service && 2 * request[1] as int == n
      && IsPath(request[2..2 + n], path, size) && request[2 + n..] == data
  {
    var p := Router.PathBytes(path, size);
    PathOnTheWire(path, size);
    Router.PathRoundTrip(path, size);
    AfterTwo(Router.RequestBytes(service, path, data, size), service, |p| / 2 % 0x100, p, data);
  }

  lemma AfterTwo(b: bytes, x: byte, y: byte, p: bytes, data: bytes)
    requires b == [x, y] + p + data
    ensures |b| == 2 + |p| + |data| && b[0] == x && b[1] == y && b[2..2 + |p|] == p && b[2 + |p|..] == data
  {
    SplitThree([x, y], p, data);
  }

  /** A whole explicit request: SendRRData with a null address item (type 0, no data) and an
      unconnected data item (type 0xB2) that holds the router request; the extra items follow. */
  lemma RequestOnTheWire(session: u32, request: bytes, extras: seq<Cpf.Item>)
    ensures var items := Router.RequestItems(request, extras);
            var cpf := Cpf.PacketBytes(items);
      && |items| == 2 + |extras| && items[2..] == extras
      && IsRrData(Encaps.PacketBytes(Encaps.SendRrData(session, 0, cpf)), session, 0, cpf)
      && Field(cpf, 0, 2, (2 + |extras|) % 0x1_0000) && Field(cpf, 2, 2, 0) && Field(cpf, 4, 2, 0)
      && Field(cpf, 6, 2, 0xB2) && Field(cpf, 8, 2, |request| % 0x1_0000)
      && |cpf| >= 10 + |request| && cpf[10..10 + |request|] == request
  {
    var items := Router.RequestItems(request, extras);
    RrDataOnTheWire(session, 0, Cpf.PacketBytes(items));
    ItemsOnTheWire(items, 0);
    ItemsOnTheWire(items, 1);
    assert ItemAt(items, 0) == 2 && ItemAt(items, 1) == 6;
  }

  lemma {:induction false} WordAt(b: bytes, n: nat, i: nat)
    requires |b| >= 2 * n && i < n
    ensures |Router.Words(b, n)| == n && Router.Words(b, n)[i] == Get16(b[2 * i..])
    decreases n
  {
    Router.WordsLength(b, n);
    if i > 0 {
      WordAt(b[2..], n - 1, i - 1);
      DropTwice(b, 2, 2 * (i - 1));
    } else {
      assert b[0..] == b;
    }
  }

  /** A router reply: service, a reserved byte, status, the number of additional status words,
      those words, the data; anything shorter than it says is invalid. */
  lemma ResponseIsRead(b: bytes)
    ensures var r := Router.ResponseDecoded(b);
      if |b| < 4 || |b| < 4 + 2 * b[3] as int then r == Err(InvalidPacket)
      else
        && r.Ok? && r.value.service == b[0] && r.value.generalStatus == b[2] && r.value.extras == []
        && |r.value.additionalStatus| == b[3] as int
        && (forall i | 0 <= i < b[3] as int :: Field(b, 4 + 2 * i, 2, r.value.additionalStatus[i]))
        && r.value.data == b[4 + 2 * b[3] as int..]
  {
    if |b| >= 4 && |b| >= 4 + 2 * b[3] as int {
      Router.WordsLength(b[4..], b[3]);
      forall i | 0 <= i < b[3] as int ensures Field(b, 4 + 2 * i, 2, Router.Words(b[4..], b[3])[i]) {
        WordAt(b[4..], b[3], i);
        DropTwice(b, 4, 2 * i);
        GetAt(b, 4 + 2 * i);
      }
    }
  }

  /** The caller gets the router reply in the second item, whatever its type, and the items
      behind it. */
  lemma ReplyIsRead(data: bytes)
    ensures var r := Router.ReplyDecoded(data);
      if |data| < 6 then r == Err(Truncated)
      else
        var items := Cpf.Decoded(data[6..]);
        if items.Err? then r == Err(items.error)
        else if |items.value| < 2 then r == Err(InvalidPacket)
        else
          var response := Router.ResponseDecoded(items.value[1].data);
          if response.Err? then r == Err(response.error)
          else
            && r.Ok? && r.value.extras == items.value[2..] && r.value.service == response.value.service
            && r.value.generalStatus == response.value.generalStatus
            && r.value.additionalStatus == response.value.additionalStatus && r.value.data == response.value.data
  {
  }

  // ---------------------------------------------------------------- connection paths

  /** A port segment: the port in the low four bits, or 15 and 16 bits further on; bit 4 and a
      length byte if the link address is not one byte long; a pad byte if the length is odd. */
  lemma PortOnTheWire(port: u16, link: bytes)
    requires |link| <= 255
    ensures var b := Paths.PortBytes(port, link);
            var at := (if |link| == 1 then 1 else 2) + (if port < 15 then 0 else 2);
      && |b| == at + |link| + (at + |link|) % 2
      && b[0] as int == (if port < 15 then port as int else 15) + (if |link| == 1 then 0 else 0x10)
      && (|link| != 1 ==> b[1] as int == |link|)
      && (port >= 15 ==> Field(b, at - 2, 2, port))
      && b[at..at + |link|] == link && (|b| > at + |link| ==> b[at + |link|] == 0)
  {
    var b := Paths.PortBytes(port, link);
    var head := Paths.PortHead(port, |link|);
    var pad := Paths.Pad(|head| + |link|);
    PortHeadFields(port, |link|, head);
    LinkIsThere(b, head, link, pad);
    if port >= 15 {
      FieldKept(b, head, |head| - 2, port);
    }
  }

  lemma PortHeadFields(port: u16, n: nat, head: bytes)
    requires n <= 255 && head == Paths.PortHead(port, n)
    ensures |head| == (if n == 1 then 1 else 2) + (if port < 15 then 0 else 2)
    ensures head[0] as int == (if port < 15 then port as int else 15) + (if n == 1 then 0 else 0x10)
    ensures n != 1 ==> head[1] as int == n
    ensures port >= 15 ==> Field(head, |head| - 2, 2, port)
  {
    if port >= 15 {
      Put16IsLittleEndian(port);
      assert head[|head| - 2..|head|] == Put16(port);
    }
  }

  lemma LinkIsThere(b: bytes, head: bytes, link: bytes, pad: bytes)
    requires b == head + link + pad && pad == (if (|head| + |link|) % 2 == 0 then [] else [0])
    ensures |b| == |head| + |link| + (|head| + |link|) % 2 && b[|head|..|head| + |link|] == link
    ensures |b| > |head| + |link| ==> b[|head| + |link|] == 0
    ensures forall i | 0 <= i < |head| :: b[i] == head[i]
  {
  }

  lemma FieldKept(b: bytes, head: bytes, at: nat, v: nat)
    requires at + 2 == |head| <= |b| && (forall i | 0 <= i < |head| :: b[i] == head[i]) && Field(head, at, 2, v)
    ensures Field(b, at, 2, v)
  {
    assert b[at..at + 2] == head[at..at + 2];
  }

  /** A logical segment: class 0x20, instance 0x24, connection point 0x2C; one more and a pad
      byte for 16-bit values. */
  lemma LogicalOnTheWire(id: u16)
    ensures IsLogical(Paths.LogicalBytes(Paths.ClassId, id), 0x20, id, Router.Bits8)
    ensures IsLogical(Paths.LogicalBytes(Paths.InstanceId, id), 0x24, id, Router.Bits8)
    ensures IsLogical(Paths.LogicalBytes(Paths.ConnectionPoint, id), 0x2C, id, Router.Bits8)
  {
    SegmentOnTheWire(0x20, id, Router.Bits8);
    SegmentOnTheWire(0x24, id, Router.Bits8);
    SegmentOnTheWire(0x2C, id, Router.Bits8);
  }

  /** An electronic key: 0x34, format 4, vendor, device type, product code, seven bits of major
      revision and the compatibility bit, minor revision. */
  lemma KeyOnTheWire(key: Paths.ElectronicKey)
    ensures var b := Paths.KeyBytes(key);
      && |b| == 10 && b[0] == 0x34 && b[1] == 4
      && Field(b, 2, 2, key.vendorId) && Field(b, 4, 2, key.deviceType) && Field(b, 6, 2, key.productCode)
      && b[8] as int == key.majorRevision as int % 128 + (if key.compatibility then 128 else 0) && b[9] == key.minorRevision
  {
    var b := Paths.KeyBytes(key);
    var t2 := [key.majorRevision % 0x80 + (if key.compatibility then 0x80 else 0), key.minorRevision];
    var t1 := Put16(key.productCode) + t2;
    var t0 := Put16(key.deviceType) + t1;
    assert b[2..] == Put16(key.vendorId) + t0;
    Put16At(b, 2, key.vendorId, t0);
    Put16At(b, 4, key.deviceType, t1);
    Put16At(b, 6, key.productCode, t2);
    assert b[8..][0] == b[8] && b[8..][1] == b[9];
  }

  /** Configuration data behind a path: 0x80, its size in words, at most 510 bytes of it, a pad
      byte if they are odd. */
  lemma ConfigDataOnTheWire(path: bytes, config: bytes)
    ensures var b := Paths.EncodedPathBytes(path, config);
            var n := if |config| <= 510 then |config| else 510;
      if config == [] then b == path
      else
        && |b| == |path| + 2 + n + n % 2 && b[..|path|] == path
        && b[|path|] == 0x80 && b[|path| + 1] as int == (n + 1) / 2
        && b[|path| + 2..|path| + 2 + n] == config[..n] && (n % 2 == 1 ==> b[|path| + 2 + n] == 0)
  {
    if config != [] {
      var data := if |config| <= 510 then config else config[..510];
      Paths.DataSegmentOf(config, data);
      assert config[..|data|] == data;
      var s := [0x80, (|data| + 1) / 2 % 0x100] + data + Paths.Pad(|data|);
      assert Paths.EncodedPathBytes(path, config) == path + s;
    }
  }
}
