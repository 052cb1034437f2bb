/**
 What a target finds in a Forward Open, offset by offset, in terms of the configuration it
 was opened with, and what the connection is set up with.  Codes and offsets are those of
 section 3-5 of Volume 1 of The CIP Networks Library, written out.
 */
module ForwardOpenLayout {
  import opened Wire
  import opened WireLayout
  import opened ForwardOpen
  import Paths = ConnectionPath
  import Conns = Connections

  // ---------------------------------------------------------------- codes

  function CodeOfType(t: ConnectionType): nat {
    match t
    case Null => 0
    case Multicast => 1
    case PointToPoint => 2
    case Reserved => 3
  }

  function CodeOfPriority(p: Priority): nat {
    match p
    case Low => 0
    case High => 1
    case Scheduled => 2
    case Urgent => 3
  }

  /** The parameters of a direction: type in bits 13 and 14, priority in bits 10 and 11, bit 9
      for a variable size, no redundant owner (bit 15); the large form has them 16 bits up. */
  function ParamsOf(dir: Direction, wire: nat, large: bool): nat {
    var flags := CodeOfType(dir.connectionType) * 8192 + CodeOfPriority(dir.priority) * 1024
                 + if dir.sizeType.Variable? then 512 else 0;
    (if large then flags * 65536 else flags) + wire
  }

  /** Sequence count (2 bytes, not in class 0), run/idle header (4 bytes), data. */
  function WireOf(config: OpenConfig, dir: Direction): nat {
    (if config.cls.Class0? then 0 else 2) + (if dir.runIdleHeader then 4 else 0) + dir.size as int
  }

  function RateOf(dir: Direction): nat {
    if dir.rpi > 4294967295 then 4294967295 else dir.rpi
  }

  function TransportOf(config: OpenConfig): nat {
    (match config.cls case Class0 => 0 case Class1 => 1 case Class2 => 2 case Class3 => 3)
    + 16 * (match config.trigger case Cyclic => 0 case ChangeOfState => 1 case Application => 2)
  }

  // ---------------------------------------------------------------- what is accepted

  /** Which configurations forward_open accepts, and when it uses the large form. */
  lemma WhatIsAccepted(config: OpenConfig, o2tId: u32, t2oId: u32, serial: u16)
    ensures var plan := Planned(config, o2tId, t2oId, serial);
      if |config.configData| <= 510 && config.timeoutMultiplier <= 7 && (config.cls.Class0? || config.cls.Class1?)
         && WireOf(config, config.o2t) <= 65535 && WireOf(config, config.t2o) <= 65535
      then plan.Ok? && (plan.value.1 <==> WireOf(config, config.o2t) > 511 || WireOf(config, config.t2o) > 511)
      else plan == Err(Unsupported)
  {
  }

  // ---------------------------------------------------------------- the body

  /** The connection part: time tick 10 with 5 ticks, IDs the originator chooses only for
      multicast O->T and point-to-point T->O connections, serial numbers and vendor, multiplier
      and three reserved bytes. */
  predicate ConnectionPart(b: bytes, config: OpenConfig, o2tId: u32, t2oId: u32, serial: u16) {
    && |b| >= 22 && b[0] == 10 && b[1] == 5
    && Field(b, 2, 4, if config.o2t.connectionType.Multicast? then o2tId else 0)
    && Field(b, 6, 4, if config.t2o.connectionType.PointToPoint? then t2oId else 0)
    && Field(b, 10, 2, serial) && Field(b, 12, 2, config.originatorVendorId)
    && Field(b, 14, 4, config.originatorSerialNumber)
    && b[18] == config.timeoutMultiplier && b[19] == 0 && b[20] == 0 && b[21] == 0
  }

  /** The rates and parameters of each direction, O->T first. */
  predicate RatePart(b: bytes, config: OpenConfig, large: bool) {
    var n := if large then 4 else 2;
    && Field(b, 22, 4, RateOf(config.o2t)) && Field(b, 26, n, ParamsOf(config.o2t, WireOf(config, config.o2t), large))
    && Field(b, 26 + n, 4, RateOf(config.t2o))
    && Field(b, 30 + n, n, ParamsOf(config.t2o, WireOf(config, config.t2o), large))
  }

  /** Transport byte, path size in words (modulo 256), path. */
  predicate TailPart(b: bytes, config: OpenConfig, large: bool) {
    var at := if large then 38 else 34;
    var path := Paths.EncodedPathBytes(config.path, config.configData);
    && |b| == at + 2 + |path| && b[at] == TransportOf(config)
    && b[at + 1] as int == (|path| + 1) / 2 % 256 && b[at + 2..] == path
  }

  lemma ConnectionPartIsThere(r: Request, b: bytes, rest: bytes)
    requires b == ConnectionBytes(r) + rest
    ensures |b| >= 22 && b[22..] == rest
    ensures b[0] == r.priorityTimeTick && b[1] == r.timeoutTicks
    ensures Field(b, 2, 4, r.o2tConnectionId) && Field(b, 6, 4, r.t2oConnectionId)
    ensures Field(b, 10, 2, r.connectionSerialNumber) && Field(b, 12, 2, r.originatorVendorId)
    ensures Field(b, 14, 4, r.originatorSerialNumber)
    ensures b[18] == r.timeoutMultiplier && b[19] == 0 && b[20] == 0 && b[21] == 0
  {
    ReadConnection(r, rest);
    GetAt(b, 2);
    GetAt(b, 6);
    GetAt(b, 10);
    GetAt(b, 12);
    GetAt(b, 14);
    var head := ConnectionBytes(r);
    assert head[18..] == [r.timeoutMultiplier, 0, 0, 0];
    assert b[18..22] == head[18..];
  }

  lemma ParamsAt(b: bytes, at: nat, p: NetworkParams, large: bool, tail: bytes)
    requires at <= |b| && b[at..] == ParamsBytes(p, large) + tail
    ensures var n := if large then 4 else 2; Field(b, at, n, EncodeParams(p, large)) && b[at + n..] == tail
  {
    if large {
      Put32At(b, at, EncodeParams(p, true), tail);
    } else {
      SmallParamsFit(p);
      Put16At(b, at, EncodeParams(p, false), tail);
    }
  }

  lemma RatePartIsThere(r: Request, large: bool, b: bytes, tail: bytes)
    requires |b| >= 22 && b[22..] == RateBytes(r, large) + tail
    ensures var n := if large then 4 else 2;
      && Field(b, 22, 4, r.o2tRpi) && Field(b, 26, n, EncodeParams(r.o2tParams, large))
      && Field(b, 26 + n, 4, r.t2oRpi) && Field(b, 30 + n, n, EncodeParams(r.t2oParams, large))
      && |b| >= 30 + 2 * n && b[30 + 2 * n..] == tail
  {
    var n := if large then 4 else 2;
    var t2 := ParamsBytes(r.t2oParams, large) + tail;
    var t1 := Put32(r.t2oRpi) + t2;
    var t0 := ParamsBytes(r.o2tParams, large) + t1;
    assert b[22..] == Put32(r.o2tRpi) + t0;
    Put32At(b, 22, r.o2tRpi, t0);
    ParamsAt(b, 26, r.o2tParams, large, t1);
    Put32At(b, 26 + n, r.t2oRpi, t2);
    ParamsAt(b, 30 + n, r.t2oParams, large, tail);
  }

  lemma ParamsAreThose(dir: Direction, wire: nat, large: bool)
    requires wire <= 65535 && (large || wire <= 511)
    ensures EncodeParams(Params(dir, wire), large) == ParamsOf(dir, wire, large)
  {
    assert Params(dir, wire).size as int == wire;
    if !large {
      assert wire % 0x200 == wire;
    }
  }

  lemma ConnectionOnTheWire(config: OpenConfig, o2tId: u32, t2oId: u32, serial: u16, b: bytes, rest: bytes)
    requires b == ConnectionBytes(PlannedRequest(config, o2tId, t2oId, serial)) + rest
    ensures ConnectionPart(b, config, o2tId, t2oId, serial) && b[22..] == rest
  {
    ConnectionPartIsThere(PlannedRequest(config, o2tId, t2oId, serial), b, rest);
  }

  lemma RatesOnTheWire(config: OpenConfig, o2tId: u32, t2oId: u32, serial: u16, large: bool, b: bytes, tail: bytes)
    requires |b| >= 22 && b[22..] == RateBytes(PlannedRequest(config, o2tId, t2oId, serial), large) + tail
    requires WireOf(config, config.o2t) <= 65535 && WireOf(config, config.t2o) <= 65535
    requires large || (WireOf(config, config.o2t) <= 511 && WireOf(config, config.t2o) <= 511)
    ensures RatePart(b, config, large)
    ensures var at := if large then 38 else 34; |b| >= at && b[at..] == tail
  {
    RatePartIsThere(PlannedRequest(config, o2tId, t2oId, serial), large, b, tail);
    ParamsAreThose(config.o2t, WireOf(config, config.o2t), large);
    ParamsAreThose(config.t2o, WireOf(config, config.t2o), large);
  }

  lemma TailOnTheWire(config: OpenConfig, o2tId: u32, t2oId: u32, serial: u16, large: bool, b: bytes)
    requires var at := if large then 38 else 34;
             |b| >= at && b[at..] == TailBytes(PlannedRequest(config, o2tId, t2oId, serial))
    ensures TailPart(b, config, large)
  {
    TailIsThere(PlannedRequest(config, o2tId, t2oId, serial), b, if large then 38 else 34);
  }

  /** An accepted Forward Open carries, at their offsets, exactly what the configuration asks
      for in each direction. */
  lemma ForwardOpenOnTheWire(config: OpenConfig, o2tId: u32, t2oId: u32, serial: u16)
    requires Planned(config, o2tId, t2oId, serial).Ok?
    ensures var plan := Planned(config, o2tId, t2oId, serial).value;
            var b := RequestBytes(plan.0, plan.1);
      ConnectionPart(b, config, o2tId, t2oId, serial) && RatePart(b, config, plan.1) && TailPart(b, config, plan.1)
  {
    var r, large := PlannedRequest(config, o2tId, t2oId, serial), NeedsLarge(config);
    var b, tail := RequestBytes(r, large), TailBytes(r);
    RequestParts(r, large);
    ConnectionOnTheWire(config, o2tId, t2oId, serial, b, RateBytes(r, large) + tail);
    WhatIsAccepted(config, o2tId, t2oId, serial);
    RatesOnTheWire(config, o2tId, t2oId, serial, large, b, tail);
    TailOnTheWire(config, o2tId, t2oId, serial, large, b);
  }

  lemma TailIsThere(r: Request, b: bytes, at: nat)
    requires at <= |b| && b[at..] == TailBytes(r)
    ensures |b| == at + 2 + |r.path| && b[at] == EncodeTransport(r.transport)
    ensures b[at + 1] as int == (|r.path| + 1) / 2 % 256 && b[at + 2..] == r.path
  {
    DropTwice(b, at, 2);
    assert b[at] == b[at..][0] && b[at + 1] == b[at..][1];
  }

  // ---------------------------------------------------------------- reading parameters

  /** Reading network parameters loses nothing but reserved bits: bit 12 in both forms, and bit
      8 down to 0 of the upper half in the large form. */
  lemma ParamsAreRead(raw: u32, large: bool)
    requires large || raw < 65536
    ensures var p := DecodeParams(raw, large);
            var flags := if large then raw as int / 65536 else raw as int;
      && flags / 32768 == (if p.redundantOwner then 1 else 0)
      && flags / 8192 % 4 == CodeOfType(p.connectionType)
      && flags / 1024 % 4 == CodeOfPriority(p.priority)
      && flags / 512 % 2 == (if p.sizeType.Variable? then 1 else 0)
      && p.size as int == if large then raw as int % 65536 else raw as int % 512
  {
  }

  /** The transport byte: direction in bit 7, trigger in bits 4 to 6, class in bits 0 to 3;
      triggers and classes that are not defined read as cyclic and class 3. */
  lemma TransportIsRead(raw: byte)
    ensures var t := DecodeTransport(raw);
      && (t.server <==> raw as int / 128 == 1)
      && (t.trigger.ChangeOfState? <==> raw as int / 16 % 8 == 1)
      && (t.trigger.Application? <==> raw as int / 16 % 8 == 2)
      && (t.cls.Class0? <==> raw as int % 16 == 0) && (t.cls.Class1? <==> raw as int % 16 == 1)
      && (t.cls.Class2? <==> raw as int % 16 == 2)
  {
  }

  // ---------------------------------------------------------------- the connection that is set up

  /** The timeout multiplier stands for 4, 8, 16 and so on up to 512 packet intervals. */
  function Intervals(multiplier: byte): nat
    requires multiplier <= 7
  {
    [4, 8, 16, 32, 64, 128, 256, 512][multiplier]
  }

  /** The connection uses the IDs and intervals of the reply (microseconds, here nanoseconds),
      times out after 4 << multiplier actual T->O intervals, and has the sizes, headers and
      sequence counts of its configuration. */
  lemma ConnectionIsSetUp(config: OpenConfig, reply: Reply, peerIp: nat)
    requires config.timeoutMultiplier <= 7
    ensures var c := SetUp(config, reply, peerIp);
      && c.o2tId == reply.o2tId && c.t2oId == reply.t2oId && c.peerIp == peerIp
      && c.o2tApi == reply.o2tApi as int * 1000
      && c.timeout == reply.t2oApi as int * 1000 * Intervals(config.timeoutMultiplier)
      && c.o2tSize == config.o2t.size as int && c.t2oSize == config.t2o.size as int
      && (c.o2tFixed <==> config.o2t.sizeType.Fixed?) && (c.t2oFixed <==> config.t2o.sizeType.Fixed?)
      && (c.hasSequenceCount <==> !config.cls.Class0?)
      && c.o2tHeader == config.o2t.runIdleHeader && c.t2oHeader == config.t2o.runIdleHeader
      && c.Key().peerIp == peerIp && c.Key().t2oId == reply.t2oId as int
  {
    PowersOfTwo(config.timeoutMultiplier);
    TimesThousand(reply.t2oApi, 4 * Pow2(config.timeoutMultiplier));
  }

  lemma TimesThousand(x: nat, m: nat)
    ensures x * m * 1000 == x * 1000 * m
  {
  }

  lemma PowersOfTwo(n: byte)
    requires n <= 7
    ensures 4 * Pow2(n) == Intervals(n)
  {
    assert Pow2(1) == 2 && Pow2(2) == 4 && Pow2(3) == 8 && Pow2(4) == 16;
    assert Pow2(5) == 32 && Pow2(6) == 64 && Pow2(7) == 128;
  }
}
