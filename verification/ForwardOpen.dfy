/**
 Forward Open: network parameters, the request body, and what forward_open accepts,
 sends and sets up.
 */
module ForwardOpen {
  import opened Wire
  import Paths = ConnectionPath
  import Conns = Connections
  import Cpf = CommonPacket

  // ---------------------------------------------------------------- network parameters

  datatype ConnectionType = Null | Multicast | PointToPoint | Reserved
  datatype Priority = Low | High | Scheduled | Urgent
  datatype SizeType = Fixed | Variable

  datatype NetworkParams = NetworkParams(
    redundantOwner: bool,
    connectionType: ConnectionType,
    priority: Priority,
    sizeType: SizeType,
    size: u16)

  const MAX_SMALL_SIZE := 0x1FF

  function TypeCode(t: ConnectionType): nat {
    match t case Null => 0 case Multicast => 1 case PointToPoint => 2 case Reserved => 3
  }

  function PriorityCode(p: Priority): nat {
    match p case Low => 0 case High => 1 case Scheduled => 2 case Urgent => 3
  }

  /** The flag bits 9 to 15. The fields do not overlap, so joining them is adding them. */
  function Flags(p: NetworkParams): (f: nat)
    ensures f < 0x1_0000 && f % 0x200 == 0
  {
    (if p.redundantOwner then 0x8000 else 0) + TypeCode(p.connectionType) * 0x2000 +
    PriorityCode(p.priority) * 0x400 + (if p.sizeType == Variable then 0x200 else 0)
  }

  /** NetworkParams::encode: the large form moves the flags up by 16 bits. */
  function EncodeParams(p: NetworkParams, large: bool): u32 {
    if large then Flags(p) * 0x1_0000 + p.size else Flags(p) + p.size % 0x200
  }

  /** NetworkParams::decode. */
  function DecodeParams(raw: u32, large: bool): NetworkParams {
    var flags := if large then raw / 0x1_0000 else raw;
    NetworkParams(
      flags / 0x8000 % 2 == 1,
      (match flags / 0x2000 % 4 case 0 => Null case 1 => Multicast case 2 => PointToPoint case _ => Reserved),
      (match flags / 0x400 % 4 case 0 => Low case 1 => High case 2 => Scheduled case _ => Urgent),
      if flags / 0x200 % 2 == 1 then Variable else Fixed,
      if large then raw % 0x1_0000 else raw % 0x200)
  }

  lemma BitFields(owner: nat, kind: nat, priority: nat, variable: nat, low: nat)
    requires owner < 2 && kind < 4 && priority < 4 && variable < 2 && low < 0x200
    ensures var x := owner * 0x8000 + kind * 0x2000 + priority * 0x400 + variable * 0x200 + low;
            && x / 0x8000 % 2 == owner && x / 0x2000 % 4 == kind
            && x / 0x400 % 4 == priority && x / 0x200 % 2 == variable && x % 0x200 == low
  {
    var x := owner * 0x8000 + kind * 0x2000 + priority * 0x400 + variable * 0x200 + low;
    assert x / 0x8000 == owner;
    assert x / 0x2000 == 4 * owner + kind;
    assert x / 0x400 == 32 * owner + 8 * kind + priority;
    assert x / 0x200 == 64 * owner + 16 * kind + 2 * priority + variable;
  }

  lemma FlagsReadBack(p: NetworkParams, low: nat)
    requires low < 0x200
    ensures DecodeParams(Flags(p) + low, false) == p.(size := low)
  {
    BitFields(if p.redundantOwner then 1 else 0, TypeCode(p.connectionType), PriorityCode(p.priority),
              if p.sizeType == Variable then 1 else 0, low);
  }

  /** Parameters survive the large form always, and the small form exactly when the size
      is at most 511. */
  lemma ParamsRoundTrip(p: NetworkParams, large: bool)
    ensures DecodeParams(EncodeParams(p, large), large) == p <==> large || p.size <= MAX_SMALL_SIZE
  {
    if large {
      FlagsReadBack(p, 0);
      assert EncodeParams(p, true) / 0x1_0000 == Flags(p);
    } else {
      FlagsReadBack(p, p.size % 0x200);
    }
  }

  datatype TransportClass = Class0 | Class1 | Class2 | Class3
  datatype Trigger = Cyclic | ChangeOfState | Application
  datatype Transport = Transport(cls: TransportClass, trigger: Trigger, server: bool)

  function EncodeTransport(t: Transport): byte {
    (if t.server then 0x80 else 0) +
    (match t.trigger case Cyclic => 0 case ChangeOfState => 0x10 case Application => 0x20) +
    (match t.cls case Class0 => 0 case Class1 => 1 case Class2 => 2 case Class3 => 3)
  }

  function DecodeTransport(raw: byte): Transport {
    Transport(
      (match raw % 0x10 case 0 => Class0 case 1 => Class1 case 2 => Class2 case _ => Class3),
      (match raw / 0x10 % 8 case 1 => ChangeOfState case 2 => Application case _ => Cyclic),
      raw >= 0x80)
  }

  lemma TransportRoundTrip(t: Transport)
    ensures DecodeTransport(EncodeTransport(t)) == t
  {
  }

  // ---------------------------------------------------------------- the request body

  datatype Request = Request(
    priorityTimeTick: byte,
    timeoutTicks: byte,
    o2tConnectionId: u32,
    t2oConnectionId: u32,
    connectionSerialNumber: u16,
    originatorVendorId: u16,
    originatorSerialNumber: u32,
    timeoutMultiplier: byte,
    o2tRpi: u32,
    o2tParams: NetworkParams,
    t2oRpi: u32,
    t2oParams: NetworkParams,
    transport: Transport,
    path: bytes)

  function ParamsBytes(p: NetworkParams, large: bool): bytes {
    if large then Put32(EncodeParams(p, true)) else Put16(EncodeParams(p, false))
  }

  /** The byte that announces the path length in words: a truncating cast. */
  function PathSizeByte(path: bytes): byte {
    (|path| + 1) / 2 % 0x100
  }

  function ConnectionBytes(r: Request): bytes {
    [r.priorityTimeTick, r.timeoutTicks] + Put32(r.o2tConnectionId) + Put32(r.t2oConnectionId) +
    Put16(r.connectionSerialNumber) + Put16(r.originatorVendorId) + Put32(r.originatorSerialNumber) +
    [r.timeoutMultiplier, 0, 0, 0]
  }

  function RateBytes(r: Request, large: bool): bytes {
    Put32(r.o2tRpi) + ParamsBytes(r.o2tParams, large) + Put32(r.t2oRpi) + ParamsBytes(r.t2oParams, large)
  }

  function RequestBytes(r: Request, large: bool): bytes {
    ConnectionBytes(r) + RateBytes(r, large) + [EncodeTransport(r.transport), PathSizeByte(r.path)] + r.path
  }

  /** ForwardOpenRequest::encode. */
  method EncodeRequest(r: Request, large: bool) returns (out: bytes)
    ensures out == RequestBytes(r, large)
  {
    out := [r.priorityTimeTick];
    out := out + [r.timeoutTicks];
    out := out + Put32(r.o2tConnectionId);
    out := out + Put32(r.t2oConnectionId);
    out := out + Put16(r.connectionSerialNumber);
    out := out + Put16(r.originatorVendorId);
    out := out + Put32(r.originatorSerialNumber);
    out := out + [r.timeoutMultiplier];
    out := out + [0, 0, 0];
    assert out == ConnectionBytes(r);
    out := out + Put32(r.o2tRpi);
    out := PutParams(out, r.o2tParams, large);
    out := out + Put32(r.t2oRpi);
    out := PutParams(out, r.t2oParams, large);
    assert out == ConnectionBytes(r) + RateBytes(r, large);
    out := out + [EncodeTransport(r.transport)];
    out := out + [PathSizeByte(r.path)];
    out := out + r.path;
  }

  method PutParams(out: bytes, p: NetworkParams, large: bool) returns (more: bytes)
    ensures more == out + ParamsBytes(p, large)
  {
    if large {
      more := out + Put32(EncodeParams(p, true));
    } else {
      more := out + Put16(EncodeParams(p, false));
    }
  }

  /** The offsets at which a target reads the body, by the layout of section 3-5 of
      Volume 1 of The CIP Networks Library. */
  function TargetReads(b: bytes, large: bool): Option<Request> {
    var w := if large then 4 else 2;
    if |b| < 32 + 2 * w then None
    else
      var rates := b[22..];
      var tail := rates[8 + 2 * w..];
      var pathLen: nat := 2 * tail[1] as int;
      if |tail| < 2 + pathLen then None
      else
        Some(Request(
          b[0], b[1], Get32(b[2..]), Get32(b[6..]), Get16(b[10..]), Get16(b[12..]), Get32(b[14..]), b[18],
          Get32(rates), ReadParams(rates[4..], large), Get32(rates[4 + w..]), ReadParams(rates[8 + w..], large),
          DecodeTransport(tail[0]), tail[2..2 + pathLen]))
  }

  predicate ConnectionFields(b: bytes, r: Request)
    requires |b| >= 22
  {
    && b[0] == r.priorityTimeTick && b[1] == r.timeoutTicks && b[18] == r.timeoutMultiplier
    && Get32(b[2..]) == r.o2tConnectionId && Get32(b[6..]) == r.t2oConnectionId
    && Get16(b[10..]) == r.connectionSerialNumber && Get16(b[12..]) == r.originatorVendorId
    && Get32(b[14..]) == r.originatorSerialNumber
  }

  predicate RateFields(b: bytes, r: Request, large: bool)
    requires |b| >= if large then 16 else 12
  {
    var w := if large then 4 else 2;
    && Get32(b) == r.o2tRpi && ReadParams(b[4..], large) == r.o2tParams
    && Get32(b[4 + w..]) == r.t2oRpi && ReadParams(b[8 + w..], large) == r.t2oParams
  }

  function ReadParams(b: bytes, large: bool): NetworkParams
    requires |b| >= if large then 4 else 2
  {
    DecodeParams(RawParams(b, large), large)
  }

  function RawParams(b: bytes, large: bool): u32
    requires |b| >= if large then 4 else 2
  {
    if large then Get32(b) else Get16(b)
  }

  lemma SmallParamsFit(p: NetworkParams)
    ensures EncodeParams(p, false) < 0x1_0000
  {
  }

  lemma RawParamsBytes(p: NetworkParams, large: bool, rest: bytes)
    ensures RawParams(ParamsBytes(p, large) + rest, large) == EncodeParams(p, large)
  {
    if large {
      GetPut32(EncodeParams(p, true), rest);
    } else {
      SmallParamsFit(p);
      GetPut16(EncodeParams(p, false), rest);
    }
  }

  lemma ReadParamsBytes(p: NetworkParams, large: bool, rest: bytes)
    requires large || p.size <= MAX_SMALL_SIZE
    ensures ReadParams(ParamsBytes(p, large) + rest, large) == p
  {
    RawParamsBytes(p, large, rest);
    ParamsRoundTrip(p, large);
  }

  lemma ReadConnectionFields(r: Request, b: bytes, rest: bytes)
    requires b == [r.priorityTimeTick, r.timeoutTicks] + (Put32(r.o2tConnectionId) + (Put32(r.t2oConnectionId) +
                    (Put16(r.connectionSerialNumber) + (Put16(r.originatorVendorId) +
                    (Put32(r.originatorSerialNumber) + ([r.timeoutMultiplier, 0, 0, 0] + rest))))))
    ensures |b| >= 22 && ConnectionFields(b, r) && b[22..] == rest
  {
    var t5 := [r.timeoutMultiplier, 0, 0, 0] + rest;
    var t4 := Put32(r.originatorSerialNumber) + t5;
    var t3 := Put16(r.originatorVendorId) + t4;
    var t2 := Put16(r.connectionSerialNumber) + t3;
    var t1 := Put32(r.t2oConnectionId) + t2;
    assert b[2..] == Put32(r.o2tConnectionId) + t1;
    Read32At(b, 2, r.o2tConnectionId, t1);
    Read32At(b, 6, r.t2oConnectionId, t2);
    Read16At(b, 10, r.connectionSerialNumber, t3);
    Read16At(b, 12, r.originatorVendorId, t4);
    Read32At(b, 14, r.originatorSerialNumber, t5);
    assert b[18] == b[18..][0] == t5[0];
    DropTwice(b, 18, 4);
  }

  lemma ReadConnection(r: Request, rest: bytes)
    ensures var b := ConnectionBytes(r) + rest;
            |b| >= 22 && ConnectionFields(b, r) && b[22..] == rest
  {
    var last := [r.timeoutMultiplier, 0, 0, 0];
    Associate7([r.priorityTimeTick, r.timeoutTicks], Put32(r.o2tConnectionId), Put32(r.t2oConnectionId),
               Put16(r.connectionSerialNumber), Put16(r.originatorVendorId), Put32(r.originatorSerialNumber), last + rest);
    assert ConnectionBytes(r) + rest
        == [r.priorityTimeTick, r.timeoutTicks] + Put32(r.o2tConnectionId) + Put32(r.t2oConnectionId) +
           Put16(r.connectionSerialNumber) + Put16(r.originatorVendorId) + Put32(r.originatorSerialNumber) + (last + rest);
    ReadConnectionFields(r, ConnectionBytes(r) + rest, rest);
  }

  lemma ReadRates(r: Request, large: bool, rest: bytes)
    requires large || (r.o2tParams.size <= MAX_SMALL_SIZE && r.t2oParams.size <= MAX_SMALL_SIZE)
    ensures var b := RateBytes(r, large) + rest;
            var w := if large then 4 else 2;
            |b| >= 8 + 2 * w && RateFields(b, r, large) && b[8 + 2 * w..] == rest
  {
    var b := RateBytes(r, large) + rest;
    var w := if large then 4 else 2;
    var t2 := ParamsBytes(r.t2oParams, large) + rest;
    var t1 := Put32(r.t2oRpi) + t2;
    var t0 := ParamsBytes(r.o2tParams, large) + t1;
    assert b == Put32(r.o2tRpi) + t0;
    assert b[0..] == b;
    Read32At(b, 0, r.o2tRpi, t0);
    DropTwice(b, 4, w);
    Read32At(b, 4 + w, r.t2oRpi, t2);
    DropTwice(b, 8 + w, w);
    ReadParamsBytes(r.o2tParams, large, t1);
    ReadParamsBytes(r.t2oParams, large, rest);
  }

  lemma AssembleRequest(r: Request, large: bool, b: bytes, rates: bytes, tail: bytes)
    requires |b| >= 22 && ConnectionFields(b, r) && b[22..] == rates
    requires |rates| >= (if large then 16 else 12) && RateFields(rates, r, large)
    requires rates[if large then 16 else 12..] == tail
    requires |tail| >= 2 && DecodeTransport(tail[0]) == r.transport && tail[2..] == r.path
    requires 2 * tail[1] as int == |r.path|
    ensures TargetReads(b, large) == Some(r)
  {
    assert tail[2..2 + |r.path|] == r.path;
  }

  /** The path size byte is exact if and only if the path is an even number of at most
      510 bytes; otherwise the target reads some other path. */
  lemma PathSizeByteIsExact(path: bytes)
    ensures 2 * PathSizeByte(path) as int == |path| <==> |path| % 2 == 0 && |path| <= 510
  {
  }

  function TailBytes(r: Request): (t: bytes)
    ensures |t| == 2 + |r.path| && t[0] == EncodeTransport(r.transport) && t[1] == PathSizeByte(r.path)
    ensures t[2..] == r.path
  {
    [EncodeTransport(r.transport), PathSizeByte(r.path)] + r.path
  }

  lemma RequestParts(r: Request, large: bool)
    ensures RequestBytes(r, large) == ConnectionBytes(r) + (RateBytes(r, large) + TailBytes(r))
  {
    assert ConnectionBytes(r) + RateBytes(r, large) + TailBytes(r) == ConnectionBytes(r) + (RateBytes(r, large) + TailBytes(r));
  }

  lemma PartsAreReadBack(r: Request, large: bool, c: bytes, m: bytes, t: bytes)
    requires large || (r.o2tParams.size <= MAX_SMALL_SIZE && r.t2oParams.size <= MAX_SMALL_SIZE)
    requires |r.path| % 2 == 0 && |r.path| <= 510
    requires c == ConnectionBytes(r) && m == RateBytes(r, large) && t == TailBytes(r)
    ensures TargetReads(c + (m + t), large) == Some(r)
  {
    ReadConnection(r, m + t);
    ReadRates(r, large, t);
    TransportRoundTrip(r.transport);
    PathSizeByteIsExact(r.path);
    AssembleRequest(r, large, c + (m + t), m + t, t);
  }

  lemma ReadParamsAreSmall(b: bytes, large: bool)
    requires |b| >= if large then 4 else 2
    ensures large || ReadParams(b, large).size <= MAX_SMALL_SIZE
  {
  }

  lemma TargetsReadPaths(b: bytes, large: bool)
    requires TargetReads(b, large).Some?
    ensures var path := TargetReads(b, large).value.path; |path| % 2 == 0 && |path| <= 510
  {
    var w := if large then 4 else 2;
    assert |TargetReads(b, large).value.path| == 2 * b[22..][8 + 2 * w..][1] as int;
  }

  lemma TargetsReadSizes(b: bytes)
    requires TargetReads(b, false).Some?
    ensures var r := TargetReads(b, false).value;
            r.o2tParams.size <= MAX_SMALL_SIZE && r.t2oParams.size <= MAX_SMALL_SIZE
  {
    ReadParamsAreSmall(b[22..][4..], false);
    ReadParamsAreSmall(b[22..][10..], false);
  }

  lemma WhatTargetsRead(b: bytes, large: bool)
    requires TargetReads(b, large).Some?
    ensures var r := TargetReads(b, large).value;
            && |r.path| % 2 == 0 && |r.path| <= 510
            && (large || (r.o2tParams.size <= MAX_SMALL_SIZE && r.t2oParams.size <= MAX_SMALL_SIZE))
  {
    TargetsReadPaths(b, large);
    if !large {
      TargetsReadSizes(b);
    }
  }

  /** The target sees the request that was meant, field for field. */
  predicate IsReadBack(r: Request, large: bool) {
    TargetReads(RequestBytes(r, large), large) == Some(r)
  }

  /** A path the size byte can announce, and sizes the parameter form can hold. */
  predicate FitsBody(r: Request, large: bool) {
    && |r.path| % 2 == 0 && |r.path| <= 510
    && (large || (r.o2tParams.size <= MAX_SMALL_SIZE && r.t2oParams.size <= MAX_SMALL_SIZE))
  }

  /** A target reads back every field of the request, with the exact path, if and only if
      the path is an even number of at most 510 bytes and the sizes fit the form used. */
  lemma RequestIsReadBack(r: Request, large: bool)
    ensures IsReadBack(r, large) <==> FitsBody(r, large)
  {
    if FitsBody(r, large) {
      RequestParts(r, large);
      PartsAreReadBack(r, large, ConnectionBytes(r), RateBytes(r, large), TailBytes(r));
    } else if TargetReads(RequestBytes(r, large), large).Some? {
      WhatTargetsRead(RequestBytes(r, large), large);
    }
  }

  // ---------------------------------------------------------------- forward_open

  datatype Direction = Direction(
    size: u16,
    rpi: nat,
    connectionType: ConnectionType,
    priority: Priority,
    sizeType: SizeType,
    runIdleHeader: bool)

  datatype OpenConfig = OpenConfig(
    path: bytes,
    configData: bytes,
    o2t: Direction,
    t2o: Direction,
    cls: TransportClass,
    trigger: Trigger,
    timeoutMultiplier: byte,
    originatorVendorId: u16,
    originatorSerialNumber: u32)

  /** How long the data items of one direction are: headers that the class and the real-time
      format call for, then the data. */
  function WireSize(cls: TransportClass, dir: Direction): nat {
    (if cls != Class0 then 2 else 0) + (if dir.runIdleHeader then 4 else 0) + dir.size
  }

  function Params(dir: Direction, wire: nat): NetworkParams {
    NetworkParams(false, dir.connectionType, dir.priority, dir.sizeType, wire % 0x1_0000)
  }

  function ClampRpi(micros: nat): u32 {
    if micros < 0x1_0000_0000 then micros else 0xFFFF_FFFF
  }

  /** The request of forward_open: about five seconds for the target to answer, connection IDs
      only where the originator chooses them. */
  function RequestFor(config: OpenConfig, o2tId: u32, t2oId: u32, serial: u16, path: bytes): Request {
    Request(
      0x0A, 0x05,
      if config.o2t.connectionType == Multicast then o2tId else 0,
      if config.t2o.connectionType == PointToPoint then t2oId else 0,
      serial, config.originatorVendorId, config.originatorSerialNumber, config.timeoutMultiplier,
      ClampRpi(config.o2t.rpi), Params(config.o2t, WireSize(config.cls, config.o2t)),
      ClampRpi(config.t2o.rpi), Params(config.t2o, WireSize(config.cls, config.t2o)),
      Transport(config.cls, config.trigger, false), path)
  }

  /** What forward_open checks and sends, given fresh connection IDs and a serial number:
      the request and whether the large form is used. */
  method PlanOpen(config: OpenConfig, o2tId: u32, t2oId: u32, serial: u16) returns (r: Result<(Request, bool)>)
    ensures r == Planned(config, o2tId, t2oId, serial)
  {
    if |config.configData| > Paths.MAX_CONFIG_DATA {
      return Err(Unsupported);
    }
    if config.timeoutMultiplier > 7 {
      return Err(Unsupported);
    }
    if config.cls != Class0 && config.cls != Class1 {
      return Err(Unsupported);
    }
    var o2tWire := WireSize(config.cls, config.o2t);
    var t2oWire := WireSize(config.cls, config.t2o);
    var widest := if o2tWire >= t2oWire then o2tWire else t2oWire;
    if widest > 0xFFFF {
      return Err(Unsupported);
    }
    var large := widest > MAX_SMALL_SIZE;
    var path := Paths.EncodedPath(config.path, config.configData);
    return Ok((RequestFor(config, o2tId, t2oId, serial, path), large));
  }

  predicate Accepted(config: OpenConfig) {
    && |config.configData| <= 510 && config.timeoutMultiplier <= 7
    && (config.cls == Class0 || config.cls == Class1)
    && WireSize(config.cls, config.o2t) <= 0xFFFF && WireSize(config.cls, config.t2o) <= 0xFFFF
  }

  predicate NeedsLarge(config: OpenConfig) {
    WireSize(config.cls, config.o2t) > 511 || WireSize(config.cls, config.t2o) > 511
  }

  function PlannedRequest(config: OpenConfig, o2tId: u32, t2oId: u32, serial: u16): Request {
    RequestFor(config, o2tId, t2oId, serial, Paths.EncodedPathBytes(config.path, config.configData))
  }

  function Planned(config: OpenConfig, o2tId: u32, t2oId: u32, serial: u16): Result<(Request, bool)> {
    if !Accepted(config) then Err(Unsupported)
    else Ok((PlannedRequest(config, o2tId, t2oId, serial), NeedsLarge(config)))
  }

  lemma ParamsAreNotTruncated(dir: Direction, wire: nat, large: bool)
    requires wire <= 0xFFFF && (large || wire <= MAX_SMALL_SIZE)
    ensures DecodeParams(EncodeParams(Params(dir, wire), large), large)
            == NetworkParams(false, dir.connectionType, dir.priority, dir.sizeType, wire)
  {
    ParamsRoundTrip(Params(dir, wire), large);
  }

  /** Whatever sizes forward_open accepts, the parameters it emits, in the form it picks,
      decode to the full wire sizes: nothing is cut off. */
  lemma AcceptedSizesAreNotTruncated(config: OpenConfig, o2tId: u32, t2oId: u32, serial: u16)
    requires Planned(config, o2tId, t2oId, serial).Ok?
    ensures var (r, large) := Planned(config, o2tId, t2oId, serial).value;
            && DecodeParams(EncodeParams(r.o2tParams, large), large).size as int == WireSize(config.cls, config.o2t)
            && DecodeParams(EncodeParams(r.t2oParams, large), large).size as int == WireSize(config.cls, config.t2o)
  {
    ParamsAreNotTruncated(config.o2t, WireSize(config.cls, config.o2t), NeedsLarge(config));
    ParamsAreNotTruncated(config.t2o, WireSize(config.cls, config.t2o), NeedsLarge(config));
  }

  lemma EncodedPathLength(path: bytes, config: bytes)
    requires |config| <= 510
    ensures |Paths.EncodedPathBytes(path, config)| ==
            |path| + (if config == [] then 0 else 2 + |config| + |config| % 2)
  {
    if config != [] {
      Paths.DataSegmentOf(config, config);
    }
  }

  /** The path and its configuration data can be announced by the path size byte. */
  predicate PathFits(config: OpenConfig) {
    && |config.path| % 2 == 0
    && |config.path| + (if config.configData == [] then 0 else 2 + |config.configData| + |config.configData| % 2) <= 510
  }

  lemma AcceptedRequestFits(config: OpenConfig, o2tId: u32, t2oId: u32, serial: u16)
    requires Accepted(config)
    ensures FitsBody(PlannedRequest(config, o2tId, t2oId, serial), NeedsLarge(config)) <==> PathFits(config)
  {
    EncodedPathLength(config.path, config.configData);
  }

  /** A target reads an accepted request back exactly when the path with its
      configuration data is an even number of at most 510 bytes. */
  lemma AcceptedOpenIsReadBack(config: OpenConfig, o2tId: u32, t2oId: u32, serial: u16)
    requires Accepted(config)
    ensures IsReadBack(PlannedRequest(config, o2tId, t2oId, serial), NeedsLarge(config)) <==> PathFits(config)
  {
    AcceptedRequestFits(config, o2tId, t2oId, serial);
    RequestIsReadBack(PlannedRequest(config, o2tId, t2oId, serial), NeedsLarge(config));
  }

  /** The limit on configuration data does not keep the path size byte exact: with 509 or
      510 bytes, which forward_open accepts, it is wrong for every path. */
  lemma LargestConfigDataIsMisannounced(config: OpenConfig, o2tId: u32, t2oId: u32, serial: u16)
    requires Accepted(config) && |config.configData| >= 509
    ensures !IsReadBack(PlannedRequest(config, o2tId, t2oId, serial), NeedsLarge(config))
  {
    AcceptedOpenIsReadBack(config, o2tId, t2oId, serial);
  }

  // ---------------------------------------------------------------- the connection that is set up

  /** The parts of the reply that the connection uses; intervals in microseconds. */
  datatype Reply = Reply(o2tId: u32, t2oId: u32, o2tApi: u32, t2oApi: u32)

  function Pow2(n: nat): nat {
    if n == 0 then 1 else 2 * Pow2(n - 1)
  }

  /** The connection settings after a reply, with times in nanoseconds: the timeout is
      4 << multiplier actual T->O intervals. */
  function SetUp(config: OpenConfig, reply: Reply, peerIp: nat): Conns.Config {
    Conns.Config(
      reply.o2tId, reply.t2oId, reply.o2tApi * 1000, reply.t2oApi * (4 * Pow2(config.timeoutMultiplier)) * 1000,
      config.o2t.size, config.t2o.size, config.o2t.sizeType == Fixed, config.t2o.sizeType == Fixed,
      config.cls != Class0, config.o2t.runIdleHeader, config.t2o.runIdleHeader, peerIp)
  }

  /** On a fixed-size connection that forward_open accepted, every packet built in any run
      decodes, and its data item has exactly the O->T wire size that was negotiated. */
  lemma BuiltPacketsHaveTheNegotiatedSize(config: OpenConfig, reply: Reply, peerIp: nat, start: int,
                                          events: seq<Conns.Event>, n: nat)
    requires Accepted(config) && config.o2t.sizeType == Fixed
    requires 1 <= n <= |Conns.Packets(Conns.Fresh(SetUp(config, reply, peerIp), start), events)|
    ensures var cfg := SetUp(config, reply, peerIp);
            var p := Conns.Packets(Conns.Fresh(cfg, start), events)[n - 1];
            var decoded := Cpf.ConnectedDecoded(Conns.PacketBytes(cfg, p.number, p.count, p.run, p.output));
            decoded.Ok? && |decoded.value.data| == WireSize(config.cls, config.o2t)
  {
    var cfg := SetUp(config, reply, peerIp);
    var receiver := cfg.(t2oHeader := cfg.o2tHeader, t2oFixed := cfg.o2tFixed, t2oSize := cfg.o2tSize);
    Conns.NthPacketIsRecovered(cfg, receiver, start, events, n);
    Conns.PacketNumbers(Conns.Fresh(cfg, start), events, n - 1);
  }

  /** And at any moment of the run, a packet that is accepted has exactly the negotiated
      T->O wire size, and one of another size does not put off the timeout. */
  lemma AcceptedPacketsHaveTheNegotiatedSize(config: OpenConfig, reply: Reply, peerIp: nat, start: int,
                                             events: seq<Conns.Event>, packet: Cpf.ConnectedPacket, at: int)
    requires Accepted(config) && config.t2o.sizeType == Fixed
    ensures var c := Conns.AfterEvents(Conns.Fresh(SetUp(config, reply, peerIp), start), events);
            && (Conns.Input(c.cfg, packet).Some? ==> |packet.data| == WireSize(config.cls, config.t2o))
            && (|packet.data| != WireSize(config.cls, config.t2o) ==>
                  Conns.AfterReceive(c, packet, at).lastReceive == c.lastReceive)
  {
    var c := Conns.Fresh(SetUp(config, reply, peerIp), start);
    Conns.SettingsStay(c, events);
    Conns.FixedSizesOnTheWire(Conns.AfterEvents(c, events), packet);
  }
}
