/** The key of a connection on the I/O thread. */
module ConnectionKeys {
  datatype ConnectionKey = ConnectionKey(peerIp: nat, t2oId: nat)
}

/**
 The send schedule of one connection: `next_send` moves along a grid of slots one packet
 interval apart and skips the slots that were missed entirely.
 */
module Schedule {
  const U32 := 0x1_0000_0000

  /** The new `next_send` after a packet was due at `next` and is handled at `now`. The
      number of missed slots is cut to 32 bits. */
  function NextSend(next: int, api: nat, now: int): int {
    var slot := next + api;
    if slot <= now then
      slot + api * (((now - slot) / (if api == 0 then 1 else api) + 1) % U32)
    else slot
  }

  /** The least grid point strictly after now. */
  function GridPointAfter(next: int, api: nat, now: int): int
    requires api > 0 && next <= now
  {
    next + ((now - next) / api + 1) * api
  }

  lemma DivBounds(x: nat, d: nat)
    requires d > 0
    ensures x / d * d <= x < (x / d + 1) * d
  {
  }

  lemma MulMono(a: int, b: int, d: nat)
    requires a <= b
    ensures a * d <= b * d
  {
  }

  lemma DivUnique(x: nat, d: nat, q: nat)
    requires d > 0 && q * d <= x < (q + 1) * d
    ensures x / d == q
  {
    DivBounds(x, d);
    if x / d < q {
      MulMono(x / d + 1, q, d);
    } else if x / d > q {
      MulMono(q + 1, x / d, d);
    }
  }

  lemma GridPointIsLeast(next: int, api: nat, now: int)
    requires api > 0 && next <= now
    ensures var g := GridPointAfter(next, api, now);
            g - api <= now < g && g >= next + api
  {
    var q := (now - next) / api;
    DivBounds(now - next, api);
    MulMono(0, q, api);
    assert (q + 1) * api == q * api + api;
  }

  /** How many intervals of the grid lie behind now, past the slot that follows next. */
  lemma MissedSlots(next: int, api: nat, now: int)
    requires api > 0 && next + api <= now
    ensures (now - next) / api == (now - next - api) / api + 1
  {
    var q := (now - next - api) / api;
    DivBounds(now - next - api, api);
    assert (q + 1) * api == q * api + api;
    assert (q + 2) * api == q * api + 2 * api;
    DivUnique(now - next, api, q + 1);
  }

  lemma SkippedCountFits(next: int, api: nat, now: int)
    requires api > 0 && next <= now
    ensures (now - next) / api < U32 <==> now < next + api * U32
  {
    var q := (now - next) / api;
    DivBounds(now - next, api);
    if q < U32 {
      MulMono(q + 1, U32, api);
    } else {
      MulMono(U32, q, api);
    }
  }

  lemma TruncatedSkipFallsShort(slot: int, api: nat, now: int, missed: nat)
    requires api > 0 && slot <= now && missed == (now - slot) / api + 1 && missed >= U32
    ensures slot + api * (missed % U32) <= now
  {
    DivBounds(now - slot, api);
    assert missed % U32 <= missed - 1;
    MulMono(missed % U32, missed - 1, api);
    assert (missed - 1) * api <= now - slot;
    assert api * (missed % U32) == (missed % U32) * api;
  }

  /** When a due packet is handled, the schedule lands on the least grid point strictly
      after now, if and only if the interval is positive and fewer than 2^32 slots were
      missed; otherwise it stays at or before now. */
  lemma NextSendIsLeastGridPointAfterNow(next: int, api: nat, now: int)
    requires next <= now
    ensures api > 0 && now < next + api * U32 <==> NextSend(next, api, now) > now
    ensures api > 0 && now < next + api * U32 ==> NextSend(next, api, now) == GridPointAfter(next, api, now)
  {
    if api > 0 {
      var slot := next + api;
      GridPointIsLeast(next, api, now);
      SkippedCountFits(next, api, now);
      if slot <= now {
        MissedSlots(next, api, now);
        var missed := (now - slot) / api + 1;
        if missed < U32 {
          assert missed % U32 == missed;
          assert GridPointAfter(next, api, now) == next + (missed + 1) * api;
          assert (missed + 1) * api == api * missed + api;
        } else {
          TruncatedSkipFallsShort(slot, api, now, missed);
        }
      } else {
        DivUnique(now - next, api, 0);
      }
    }
  }

  /** With an interval of zero the schedule stands still. */
  lemma ZeroIntervalStandsStill(next: int, now: int)
    ensures NextSend(next, 0, now) == next
  {
    if next <= now {
      assert 0 * (((now - next) / 1 + 1) % U32) == 0;
    }
  }

  lemma WholeWraps(api: nat, missed: nat)
    ensures api * missed == api * (missed % U32) + missed / U32 * (api * U32)
  {
    var q, r := missed / U32, missed % U32;
    assert missed == q * U32 + r;
    assert api * missed == api * (q * U32) + api * r;
    assert api * (q * U32) == q * (api * U32);
  }

  /** When too many slots were missed, the schedule falls short of where it should be by whole
      multiples of 2^32 intervals. */
  lemma TruncationLosesWholeWraps(next: int, api: nat, now: int)
    requires api > 0 && next <= now
    ensures exists k: nat :: GridPointAfter(next, api, now) == NextSend(next, api, now) + k * (api * U32)
  {
    var slot := next + api;
    if slot <= now {
      var missed := (now - slot) / api + 1;
      MissedSlots(next, api, now);
      WholeWraps(api, missed);
      assert (missed + 1) * api == api * missed + api;
      assert GridPointAfter(next, api, now) == NextSend(next, api, now) + missed / U32 * (api * U32);
    } else {
      DivUnique(now - next, api, 0);
      assert GridPointAfter(next, api, now) == NextSend(next, api, now) + 0 * (api * U32);
    }
  }

  // ---------------------------------------------------------------- whole runs of one connection

  /** Services of one connection at the given times: at each the packet is due and the
      stall since its slot is shorter than 2^32 intervals. */
  predicate DueRun(next: int, api: nat, times: seq<int>)
    decreases |times|
  {
    times == [] ||
    (next <= times[0] < next + api * U32 && DueRun(NextSend(next, api, times[0]), api, times[1..]))
  }

  /** `next_send` just before service i: the slot that service i takes. */
  function SlotOf(next: int, api: nat, times: seq<int>, i: nat): int
    requires i <= |times|
    decreases i
  {
    if i == 0 then next else SlotOf(NextSend(next, api, times[0]), api, times[1..], i - 1)
  }

  lemma {:induction false} SlotStep(next: int, api: nat, times: seq<int>, i: nat)
    requires api > 0 && DueRun(next, api, times) && i < |times|
    ensures var slot := SlotOf(next, api, times, i);
            && slot <= times[i] < slot + api * U32
            && SlotOf(next, api, times, i + 1) == NextSend(slot, api, times[i])
    decreases i
  {
    if i > 0 {
      SlotStep(NextSend(next, api, times[0]), api, times[1..], i - 1);
    }
  }

  lemma GridMultiple(x: int, k: nat, d: nat)
    requires d > 0 && x % d == 0
    ensures (x + k * d) % d == 0
  {
    var q := x / d;
    assert x == q * d;
    assert x + k * d == (q + k) * d;
    ModOfMultiple(q + k, d);
  }

  lemma ModOfMultiple(q: int, d: nat)
    requires d > 0
    ensures q * d % d == 0
  {
    var x := q * d;
    assert x == x / d * d + x % d;
    if x / d < q {
      MulMono(x / d + 1, q, d);
    } else if x / d > q {
      MulMono(q + 1, x / d, d);
    }
  }

  lemma SlotsAdvance(next: int, api: nat, times: seq<int>, i: nat)
    requires api > 0 && DueRun(next, api, times) && i < |times|
    ensures SlotOf(next, api, times, i) <= times[i] < SlotOf(next, api, times, i + 1)
    ensures SlotOf(next, api, times, i) + api <= SlotOf(next, api, times, i + 1)
    ensures SlotOf(next, api, times, i + 1) == GridPointAfter(SlotOf(next, api, times, i), api, times[i])
  {
    SlotStep(next, api, times, i);
    var slot := SlotOf(next, api, times, i);
    NextSendIsLeastGridPointAfterNow(slot, api, times[i]);
    GridPointIsLeast(slot, api, times[i]);
  }

  /** Every slot taken is on the grid t0 + k * api, and its packet goes out no earlier
      than the slot and before the next slot taken. */
  lemma {:induction false} SlotsStayOnGrid(next: int, api: nat, times: seq<int>, i: nat)
    requires api > 0 && DueRun(next, api, times) && i < |times|
    ensures (SlotOf(next, api, times, i) - next) % api == 0
    ensures SlotOf(next, api, times, i) <= times[i] < SlotOf(next, api, times, i + 1)
    ensures SlotOf(next, api, times, i) + api <= SlotOf(next, api, times, i + 1)
    decreases i
  {
    SlotsAdvance(next, api, times, i);
    if i == 0 {
      ModOfMultiple(0, api);
    } else {
      var prev := SlotOf(next, api, times, i - 1);
      SlotsStayOnGrid(next, api, times, i - 1);
      SlotsAdvance(next, api, times, i - 1);
      GridMultiple(prev - next, (times[i - 1] - prev) / api + 1, api);
    }
  }

  /** The slots of different services are different: at most one packet per slot. */
  lemma {:induction false} SlotsAreFarApart(next: int, api: nat, times: seq<int>, i: nat, j: nat)
    requires api > 0 && DueRun(next, api, times) && i < j < |times|
    ensures SlotOf(next, api, times, i) + (j - i) * api <= SlotOf(next, api, times, j)
    ensures times[i] + (j - i - 1) * api < times[j]
    decreases j - i
  {
    SlotsStayOnGrid(next, api, times, i);
    SlotsStayOnGrid(next, api, times, j);
    if j > i + 1 {
      SlotsAreFarApart(next, api, times, i + 1, j);
      assert (j - i - 1) * api + api == (j - i) * api;
    }
  }

  /** Services within the closed window [from, from + width]. */
  function SendsIn(times: seq<int>, from: int, width: nat): nat {
    if times == [] then 0
    else (if from <= times[0] <= from + width then 1 else 0) + SendsIn(times[1..], from, width)
  }

  lemma {:induction false} NoSendsAfter(times: seq<int>, from: int, width: nat, n: nat)
    requires forall j | n <= j < |times| :: times[j] > from + width
    ensures SendsIn(times, from, width) <= n
    decreases times
  {
    if times != [] {
      NoSendsAfter(times[1..], from, width, if n == 0 then 0 else n - 1);
    }
  }

  function CeilDiv(x: nat, d: nat): nat
    requires d > 0
  {
    (x + d - 1) / d
  }

  /** The rate bound: in every run of services, any window of length w holds at most
      ceil(w / api) + 1 sends. */
  lemma {:induction false} WindowHoldsFewSends(next: int, api: nat, times: seq<int>, from: int, width: nat)
    requires api > 0 && DueRun(next, api, times)
    ensures SendsIn(times, from, width) <= CeilDiv(width, api) + 1
    decreases times
  {
    if times != [] {
      if from <= times[0] <= from + width {
        var c := CeilDiv(width, api);
        forall j | c + 1 <= j < |times| ensures times[j] > from + width {
          SlotsAreFarApart(next, api, times, 0, j);
          DivBounds(width + api - 1, api);
          MulMono(c, j - 1, api);
          assert (c + 1) * api == c * api + api;
        }
        NoSendsAfter(times, from, width, c + 1);
      } else {
        WindowHoldsFewSends(NextSend(next, api, times[0]), api, times[1..], from, width);
      }
    }
  }
}

/**
 One implicit connection: its send schedule, its sequence numbers and the timeout of the
 data it receives. Nothing here does any I/O; the clock is a parameter, in nanoseconds.
 */
module Connections {
  import opened Wire
  import opened ConnectionKeys
  import opened Schedule
  import Cpf = CommonPacket

  datatype Config = Config(
    o2tId: u32,
    t2oId: u32,
    o2tApi: nat,
    timeout: nat,
    o2tSize: nat,
    t2oSize: nat,
    o2tFixed: bool,
    t2oFixed: bool,
    hasSequenceCount: bool,
    o2tHeader: bool,
    t2oHeader: bool,
    peerIp: nat)
  {
    function Key(): ConnectionKey {
      ConnectionKey(peerIp, t2oId)
    }
  }

  /** The value of a connection object. */
  datatype Conn = Conn(
    cfg: Config,
    output: bytes,
    run: bool,
    sequenceNumber: u32,
    sequenceCount: u16,
    nextSend: int,
    lastReceive: int,
    o2tSizeWarned: bool,
    t2oSizeWarned: bool)
  {
    function TimeoutAt(): int {
      lastReceive + cfg.timeout
    }

    predicate TimedOut(now: int) {
      now >= TimeoutAt()
    }

    predicate SendDue(now: int) {
      now >= nextSend
    }

    function NextDeadline(): int {
      if nextSend <= TimeoutAt() then nextSend else TimeoutAt()
    }
  }

  datatype InputData = InputData(sequenceNumber: u32, sequenceCount: u16, runIdleHeader: u32, data: bytes)

  function Zeros(n: nat): (z: bytes)
    ensures |z| == n
  {
    seq(n, _ => 0)
  }

  function Fresh(cfg: Config, now: int): Conn {
    Conn(cfg, Zeros(cfg.o2tSize), true, 0, 0, now, now, false, false)
  }

  // ---------------------------------------------------------------- building a packet

  /** A fixed-size connection only sends output of the negotiated size. */
  predicate MaySend(c: Conn) {
    c.cfg.o2tFixed ==> |c.output| == c.cfg.o2tSize
  }

  /** The connection after build_packet at now: the schedule moves in any case, the
      counters only when a packet is built. */
  function AfterBuild(c: Conn, now: int): Conn {
    var moved := c.(nextSend := NextSend(c.nextSend, c.cfg.o2tApi, now), o2tSizeWarned := !MaySend(c));
    if !MaySend(c) then moved
    else
      moved.(sequenceNumber := (c.sequenceNumber + 1) % U32,
             sequenceCount := if c.cfg.hasSequenceCount then (c.sequenceCount + 1) % 0x1_0000 else c.sequenceCount)
  }

  function CountBytes(cfg: Config, count: u16): bytes {
    if cfg.hasSequenceCount then Put16(count) else []
  }

  function HeaderBytes(present: bool, run: bool): bytes {
    if present then Put32(if run then 1 else 0) else []
  }

  /** What the connected data item carries: sequence count, run/idle header, output. */
  function Payload(cfg: Config, count: u16, run: bool, output: bytes): bytes {
    CountBytes(cfg, count) + HeaderBytes(cfg.o2tHeader, run) + output
  }

  function PacketBytes(cfg: Config, number: u32, count: u16, run: bool, output: bytes): bytes {
    Cpf.PacketBytes(Cpf.ConnectedItems(cfg.o2tId, number, Payload(cfg, count, run, output)))
  }

  // ---------------------------------------------------------------- reading a packet

  /** The fields of received data, if it is long enough and of the right size. */
  function Input(cfg: Config, packet: Cpf.ConnectedPacket): Option<InputData> {
    var at := if cfg.hasSequenceCount then 2 else 0;
    var body := if cfg.t2oHeader then at + 4 else at;
    if |packet.data| < body then None
    else if cfg.t2oFixed && |packet.data| - body != cfg.t2oSize then None
    else
      Some(InputData(packet.sequenceNumber,
                     if cfg.hasSequenceCount then Get16(packet.data) else 0,
                     if cfg.t2oHeader then Get32(packet.data[at..]) else 0,
                     packet.data[body..]))
  }

  /** Data that is long enough for its headers but not of the fixed size. */
  predicate WrongSize(cfg: Config, packet: Cpf.ConnectedPacket) {
    var body := (if cfg.hasSequenceCount then 2 else 0) + (if cfg.t2oHeader then 4 else 0);
    |packet.data| >= body && cfg.t2oFixed && |packet.data| - body != cfg.t2oSize
  }

  function AfterReceive(c: Conn, packet: Cpf.ConnectedPacket, now: int): Conn {
    if Input(c.cfg, packet).Some? then c.(lastReceive := now, t2oSizeWarned := false)
    else c.(t2oSizeWarned := c.t2oSizeWarned || WrongSize(c.cfg, packet))
  }

  // ---------------------------------------------------------------- the object

  class IoConnection {
    const cfg: Config
    var output: bytes
    var run: bool
    var o2tSequenceNumber: u32
    var sequenceCount: u16
    var nextSend: int
    var lastReceive: int
    var o2tSizeWarned: bool
    var t2oSizeWarned: bool

    function State(): Conn
      reads this
    {
      Conn(cfg, output, run, o2tSequenceNumber, sequenceCount, nextSend, lastReceive, o2tSizeWarned, t2oSizeWarned)
    }

    constructor (cfg: Config, now: int)
      ensures State() == Fresh(cfg, now)
    {
      this.cfg := cfg;
      output := Zeros(cfg.o2tSize);
      run := true;
      o2tSequenceNumber, sequenceCount := 0, 0;
      nextSend, lastReceive := now, now;
      o2tSizeWarned, t2oSizeWarned := false, false;
    }

    method SetOutput(data: bytes)
      modifies this`output
      ensures State() == old(State()).(output := data)
    {
      output := data;
    }

    method SetRun(run: bool)
      modifies this`run
      ensures State() == old(State()).(run := run)
    {
      this.run := run;
    }

    /** Keeps the original phase; slots missed entirely are skipped rather than sent in a burst. */
    method AdvanceSchedule(now: int)
      modifies this`nextSend
      ensures nextSend == NextSend(old(nextSend), cfg.o2tApi, now)
    {
      nextSend := nextSend + cfg.o2tApi;
      if nextSend <= now {
        var missed := (now - nextSend) / (if cfg.o2tApi == 0 then 1 else cfg.o2tApi) + 1;
        nextSend := nextSend + cfg.o2tApi * (missed % U32);
      }
    }

    /** Builds the next packet and advances the schedule; false if the output must not
        be sent. */
    method BuildPacket(now: int) returns (sent: bool, packet: bytes)
      modifies this
      ensures State() == AfterBuild(old(State()), now)
      ensures sent == MaySend(old(State()))
      ensures sent ==> packet == PacketBytes(cfg, o2tSequenceNumber, sequenceCount, run, output)
    {
      packet := [];
      AdvanceSchedule(now);
      if cfg.o2tFixed && |output| != cfg.o2tSize {
        if !o2tSizeWarned {
          o2tSizeWarned := true;
        }
        return false, packet;
      }
      o2tSizeWarned := false;
      o2tSequenceNumber := (o2tSequenceNumber + 1) % U32;
      var parts: seq<bytes> := [[], [], output];
      if cfg.hasSequenceCount {
        sequenceCount := (sequenceCount + 1) % 0x1_0000;
        parts := parts[0 := Put16(sequenceCount)];
      }
      if cfg.o2tHeader {
        parts := parts[1 := Put32(if run then 1 else 0)];
      }
      PartsArePayload(cfg, sequenceCount, run, output, parts);
      packet := Cpf.EncodeConnectedPacket(cfg.o2tId, o2tSequenceNumber, parts);
      sent := true;
    }

    /** Takes received data; data that is malformed or of the wrong size changes
        nothing but the warning flag. */
    method OnReceive(packet: Cpf.ConnectedPacket, now: int) returns (r: Option<InputData>)
      modifies this`lastReceive, this`t2oSizeWarned
      ensures r == Input(cfg, packet)
      ensures State() == AfterReceive(old(State()), packet, now)
    {
      var buf := packet.data;
      var count: u16 := 0;
      if cfg.hasSequenceCount {
        if |buf| < 2 {
          return None;
        }
        count := Get16(buf);
        buf := buf[2..];
      }
      var header: u32 := 0;
      if cfg.t2oHeader {
        if |buf| < 4 {
          return None;
        }
        header := Get32(buf);
        buf := buf[4..];
      }
      if cfg.t2oFixed && |buf| != cfg.t2oSize {
        if !t2oSizeWarned {
          t2oSizeWarned := true;
        }
        return None;
      }
      t2oSizeWarned := false;
      lastReceive := now;
      return Some(InputData(packet.sequenceNumber, count, header, buf));
    }
  }

  /** The three parts build_packet hands to the encoder are the payload. */
  lemma PartsArePayload(cfg: Config, count: u16, run: bool, output: bytes, parts: seq<bytes>)
    requires parts == [CountBytes(cfg, count), HeaderBytes(cfg.o2tHeader, run), output]
    ensures Cpf.Concat(parts) == Payload(cfg, count, run, output)
  {
    assert parts[1..][1..] == parts[2..] && parts[2..][1..] == parts[3..];
    assert Cpf.Concat(parts[2..]) == output + Cpf.Concat(parts[3..]) == output + [];
    assert Cpf.Concat(parts[1..]) == parts[1] + (output + []);
  }

  // ---------------------------------------------------------------- the n-th packet

  /** The receiving side of the same connection. */
  predicate Mirrors(receiver: Config, sender: Config) {
    && receiver.hasSequenceCount == sender.hasSequenceCount
    && receiver.t2oHeader == sender.o2tHeader
    && receiver.t2oFixed == sender.o2tFixed
    && receiver.t2oSize == sender.o2tSize
  }

  lemma ReadThreeParts(data: bytes, a: bytes, b: bytes, c: bytes)
    requires data == a + b + c
    ensures data[0..] == a + (b + c) && data[|a|..] == b + c && data[|a| + |b|..] == c
  {
  }

  lemma PayloadReadsBack(cfg: Config, receiver: Config, number: u32, count: u16, run: bool, output: bytes)
    requires Mirrors(receiver, cfg)
    requires cfg.o2tFixed ==> |output| == cfg.o2tSize
    ensures Input(receiver, Cpf.ConnectedPacket(cfg.o2tId, number, Payload(cfg, count, run, output)))
            == Some(InputData(number, if cfg.hasSequenceCount then count else 0,
                              if cfg.o2tHeader && run then 1 else 0, output))
  {
    var data := Payload(cfg, count, run, output);
    var c, h := CountBytes(cfg, count), HeaderBytes(cfg.o2tHeader, run);
    ReadThreeParts(data, c, h, output);
    if cfg.hasSequenceCount {
      Read16At(data, 0, count, h + output);
    }
    if cfg.o2tHeader {
      Read32At(data, |c|, if run then 1 else 0, output);
    }
  }

  /** What happens to a connection between two sends. on_send rewrites the output just as
      set_output does. */
  datatype Event =
    | OutputChanged(data: bytes)
    | RunChanged(run: bool)
    | Received(packet: Cpf.ConnectedPacket, at: int)
    | Built(at: int)

  function After(c: Conn, e: Event): Conn {
    match e
    case OutputChanged(data) => c.(output := data)
    case RunChanged(run) => c.(run := run)
    case Received(packet, at) => AfterReceive(c, packet, at)
    case Built(at) => AfterBuild(c, at)
  }

  /** A packet that was built: its numbers, and the run bit and output at that moment. */
  datatype Sent = Sent(number: u32, count: u16, run: bool, output: bytes)

  function AfterEvents(c: Conn, events: seq<Event>): Conn
    decreases |events|
  {
    if events == [] then c else AfterEvents(After(c, events[0]), events[1..])
  }

  /** The settings of a connection never change. */
  lemma {:induction false} SettingsStay(c: Conn, events: seq<Event>)
    ensures AfterEvents(c, events).cfg == c.cfg
    decreases |events|
  {
    if events != [] {
      SettingsStay(After(c, events[0]), events[1..]);
    }
  }

  /** The packets built by a sequence of events, in order. */
  function Packets(c: Conn, events: seq<Event>): seq<Sent>
    decreases |events|
  {
    if |events| == 0 then []
    else
      var c' := After(c, events[0]);
      if events[0].Built? && MaySend(c)
      then [Sent(c'.sequenceNumber, c'.sequenceCount, c'.run, c'.output)] + Packets(c', events[1..])
      else Packets(c', events[1..])
  }

  /** What one event does to the counters. */
  lemma CountersAfter(c: Conn, e: Event)
    ensures var c' := After(c, e);
            var built := if e.Built? && MaySend(c) then 1 else 0;
            && c'.cfg == c.cfg
            && c'.sequenceNumber == (c.sequenceNumber + built) % U32
            && c'.sequenceCount == (c.sequenceCount + (if c.cfg.hasSequenceCount then built else 0)) % 0x1_0000
  {
  }

  lemma ModShift(x: nat, n: nat, m: nat)
    requires m == U32 || m == 0x1_0000
    ensures ((x + 1) % m + n) % m == (x + n + 1) % m
  {
  }

  /** The numbers of the (n+1)-th packet from here, before any wrap-around is noticed. */
  predicate Numbered(cfg: Config, number: u32, count: u16, n: nat, p: Sent) {
    && p.number == (number + n + 1) % U32
    && p.count == (if cfg.hasSequenceCount then (count + n + 1) % 0x1_0000 else count)
  }

  lemma NumberedOneOn(cfg: Config, number: u32, count: u16, n: nat, p: Sent)
    requires Numbered(cfg, (number + 1) % U32, if cfg.hasSequenceCount then (count + 1) % 0x1_0000 else count, n, p)
    ensures Numbered(cfg, number, count, n + 1, p)
  {
    ModShift(number, n + 1, U32);
    ModShift(count, n + 1, 0x1_0000);
  }

  lemma {:induction false} PacketNumbers(c: Conn, events: seq<Event>, n: nat)
    requires n < |Packets(c, events)|
    ensures Numbered(c.cfg, c.sequenceNumber, c.sequenceCount, n, Packets(c, events)[n])
    ensures c.cfg.o2tFixed ==> |Packets(c, events)[n].output| == c.cfg.o2tSize
    decreases |events|
  {
    var c' := After(c, events[0]);
    CountersAfter(c, events[0]);
    if !events[0].Built? || !MaySend(c) {
      PacketNumbers(c', events[1..], n);
    } else if n > 0 {
      PacketNumbers(c', events[1..], n - 1);
      NumberedOneOn(c.cfg, c.sequenceNumber, c.sequenceCount, n - 1, Packets(c, events)[n]);
    }
  }

  /** The n-th packet built since the connection was opened, whatever happened between
      the sends: if its payload fits 16 bits, it decodes to the O->T ID and sequence number
      n mod 2^32, and a receiver with the mirrored settings gets sequence count n mod 2^16
      (0 for class 0), the run bit and the exact output. If it does not fit, it does not
      decode to its payload. */
  lemma NthPacketIsRecovered(cfg: Config, receiver: Config, start: int, events: seq<Event>, n: nat)
    requires Mirrors(receiver, cfg)
    requires 1 <= n <= |Packets(Fresh(cfg, start), events)|
    ensures var p := Packets(Fresh(cfg, start), events)[n - 1];
            var packet := PacketBytes(cfg, p.number, p.count, p.run, p.output);
            var count := if cfg.hasSequenceCount then n % 0x1_0000 else 0;
            var payload := Payload(cfg, p.count, p.run, p.output);
            && (|payload| < 0x1_0000 <==>
                  Cpf.ConnectedDecoded(packet) == Ok(Cpf.ConnectedPacket(cfg.o2tId, n % U32, payload)))
            && Input(receiver, Cpf.ConnectedPacket(cfg.o2tId, n % U32, payload))
               == Some(InputData(n % U32, count, if cfg.o2tHeader && p.run then 1 else 0, p.output))
  {
    PacketNumbers(Fresh(cfg, start), events, n - 1);
    var p := Packets(Fresh(cfg, start), events)[n - 1];
    Cpf.ConnectedRoundTrip(cfg.o2tId, p.number, Payload(cfg, p.count, p.run, p.output));
    PayloadReadsBack(cfg, receiver, p.number, p.count, p.run, p.output);
  }

  /** On a fixed-size connection the data item of every packet built has the wire size,
      and so has every packet accepted. */
  lemma FixedSizesOnTheWire(c: Conn, packet: Cpf.ConnectedPacket)
    ensures c.cfg.o2tFixed && MaySend(c) ==>
              |Payload(c.cfg, AfterBuild(c, 0).sequenceCount, c.run, c.output)|
              == (if c.cfg.hasSequenceCount then 2 else 0) + (if c.cfg.o2tHeader then 4 else 0) + c.cfg.o2tSize
    ensures c.cfg.t2oFixed && Input(c.cfg, packet).Some? ==>
              |packet.data|
              == (if c.cfg.hasSequenceCount then 2 else 0) + (if c.cfg.t2oHeader then 4 else 0) + c.cfg.t2oSize
  {
  }
}
