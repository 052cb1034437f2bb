/**
 The I/O thread from the wire's side: which connection a datagram is for and what its handler
 gets, and what the packets of a connection carry after the commands it was given.
 */
module Delivery {
  import opened Wire
  import opened WireLayout
  import opened ConnectionKeys
  import opened Schedule
  import opened Connections
  import opened WorkerTable
  import Cpf = CommonPacket

  // ---------------------------------------------------------------- received data

  /** Where the data starts behind the sequence count and the run/idle header. */
  function DataAt(cfg: Config): nat {
    (if cfg.hasSequenceCount then 2 else 0) + (if cfg.t2oHeader then 4 else 0)
  }

  /** Data that is long enough for the headers and, on a fixed-size connection, of its size. */
  predicate Suits(cfg: Config, payload: bytes) {
    |payload| >= DataAt(cfg) && (cfg.t2oFixed ==> |payload| == DataAt(cfg) + cfg.t2oSize)
  }

  /** What a handler gets: the fields at their places, 0 for those the connection does not have. */
  predicate IsInput(cfg: Config, number: u32, payload: bytes, input: InputData) {
    && input.sequenceNumber == number
    && (if cfg.hasSequenceCount then Field(payload, 0, 2, input.sequenceCount) else input.sequenceCount == 0)
    && (if cfg.t2oHeader then Field(payload, if cfg.hasSequenceCount then 2 else 0, 4, input.runIdleHeader)
        else input.runIdleHeader == 0)
    && |payload| >= DataAt(cfg) && input.data == payload[DataAt(cfg)..]
  }

  /** Exactly the data that suits is accepted, field by field. */
  lemma SuitableDataIsRead(cfg: Config, packet: Cpf.ConnectedPacket)
    ensures Input(cfg, packet).Some? <==> Suits(cfg, packet.data)
    ensures Suits(cfg, packet.data) ==> IsInput(cfg, packet.sequenceNumber, packet.data, Input(cfg, packet).value)
  {
    GetAt(packet.data, 0);
    GetAt(packet.data, 2);
    assert packet.data[0..] == packet.data;
  }

  /** A datagram with an implicit packet: sender, T->O ID, sequence number, data, arrival. */
  datatype Arrival = Arrival(ip: nat, id: u32, number: u32, payload: bytes, at: int)

  function DatagramOf(a: Arrival): Datagram {
    Datagram(a.ip, Cpf.PacketBytes(Cpf.ConnectedItems(a.id, a.number, a.payload)), a.at)
  }

  /** An arrival is for the entry under its sender and its T->O ID, and for no other. If there
      is none, nothing happens. If its data suits that connection, the timeout starts over and
      the handler gets the data; if not, all that changes is that a wrong size is warned about. */
  predicate IsDispatched(t: Table, a: Arrival, t': Table, delivered: seq<(ConnectionKey, InputData)>) {
    var key := ConnectionKey(a.ip, a.id);
    if key !in t then t' == t && delivered == []
    else if Suits(t[key].cfg, a.payload) then
      && t' == t[key := t[key].(lastReceive := a.at, t2oSizeWarned := false)]
      && |delivered| == 1 && delivered[0].0 == key && IsInput(t[key].cfg, a.number, a.payload, delivered[0].1)
    else
      && t' == t[key := t[key].(t2oSizeWarned := t[key].t2oSizeWarned || |a.payload| >= DataAt(t[key].cfg))]
      && delivered == []
  }

  lemma ArrivalIsDispatched(t: Table, a: Arrival)
    requires |a.payload| < 0x1_0000
    ensures IsDispatched(t, a, AfterDatagram(t, DatagramOf(a)), Delivered(t, DatagramOf(a)))
  {
    Cpf.ConnectedRoundTrip(a.id, a.number, a.payload);
    var key := ConnectionKey(a.ip, a.id);
    if key in t {
      SuitableDataIsRead(t[key].cfg, Cpf.ConnectedPacket(a.id, a.number, a.payload));
    }
  }

  /** A datagram that is no implicit packet is dropped. */
  lemma MalformedIsDropped(t: Table, d: Datagram)
    requires Cpf.ConnectedDecoded(d.data).Err?
    ensures AfterDatagram(t, d) == t && Delivered(t, d) == []
  {
  }

  function SettingsOf(t: Table): map<ConnectionKey, Config> {
    map k | k in t :: t[k].cfg
  }

  /** Which handler an arrival goes to, with which number and data. */
  function HandedOn(cfgs: map<ConnectionKey, Config>, a: Arrival): seq<(ConnectionKey, u32, bytes)> {
    var key := ConnectionKey(a.ip, a.id);
    if key in cfgs && Suits(cfgs[key], a.payload) then [(key, a.number, a.payload[DataAt(cfgs[key])..])] else []
  }

  function AllHandedOn(cfgs: map<ConnectionKey, Config>, arrivals: seq<Arrival>): seq<(ConnectionKey, u32, bytes)> {
    if arrivals == [] then [] else HandedOn(cfgs, arrivals[0]) + AllHandedOn(cfgs, arrivals[1..])
  }

  function Brief(delivered: seq<(ConnectionKey, InputData)>): seq<(ConnectionKey, u32, bytes)> {
    if delivered == [] then []
    else [(delivered[0].0, delivered[0].1.sequenceNumber, delivered[0].1.data)] + Brief(delivered[1..])
  }

  /** When the entry under key k last got data that suits it. */
  function LastHeard(cfgs: map<ConnectionKey, Config>, k: ConnectionKey, arrivals: seq<Arrival>, before: int): int
    requires k in cfgs
    decreases |arrivals|
  {
    if arrivals == [] then before
    else
      var a := arrivals[0];
      LastHeard(cfgs, k, arrivals[1..],
                if ConnectionKey(a.ip, a.id) == k && Suits(cfgs[k], a.payload) then a.at else before)
  }

  function DatagramsOf(arrivals: seq<Arrival>): seq<Datagram> {
    if arrivals == [] then [] else [DatagramOf(arrivals[0])] + DatagramsOf(arrivals[1..])
  }

  lemma {:induction false} BriefConcat(a: seq<(ConnectionKey, InputData)>, b: seq<(ConnectionKey, InputData)>)
    ensures Brief(a + b) == Brief(a) + Brief(b)
  {
    if a == [] {
      assert a + b == b;
    } else {
      assert (a + b)[1..] == a[1..] + b;
      BriefConcat(a[1..], b);
    }
  }

  lemma DispatchKeepsSettings(t: Table, a: Arrival, t': Table, delivered: seq<(ConnectionKey, InputData)>)
    requires IsDispatched(t, a, t', delivered)
    ensures SettingsOf(t') == SettingsOf(t)
  {
  }

  lemma DispatchHandsOn(t: Table, a: Arrival, t': Table, delivered: seq<(ConnectionKey, InputData)>)
    requires IsDispatched(t, a, t', delivered)
    ensures Brief(delivered) == HandedOn(SettingsOf(t), a)
  {
    if delivered != [] {
      assert delivered[1..] == [];
    }
  }

  lemma DispatchIsHeard(t: Table, a: Arrival, t': Table, delivered: seq<(ConnectionKey, InputData)>, k: ConnectionKey)
    requires IsDispatched(t, a, t', delivered) && k in t
    ensures k in t' && t'[k].lastReceive ==
              if ConnectionKey(a.ip, a.id) == k && Suits(t[k].cfg, a.payload) then a.at else t[k].lastReceive
  {
  }

  /** Any sequence of arrivals: the handlers get, in order, the data that is for them and suits
      them, and nothing else. */
  lemma {:induction false} ArrivalsAreHandedOn(t: Table, arrivals: seq<Arrival>)
    requires forall i | 0 <= i < |arrivals| :: |arrivals[i].payload| < 0x1_0000
    ensures Brief(AllDelivered(t, DatagramsOf(arrivals))) == AllHandedOn(SettingsOf(t), arrivals)
    decreases |arrivals|
  {
    if arrivals != [] {
      var a, ds := arrivals[0], DatagramsOf(arrivals[1..]);
      var t', delivered := AfterDatagram(t, DatagramOf(a)), Delivered(t, DatagramOf(a));
      ArrivalIsDispatched(t, a);
      DispatchKeepsSettings(t, a, t', delivered);
      DispatchHandsOn(t, a, t', delivered);
      ArrivalsAreHandedOn(t', arrivals[1..]);
      FirstDelivered(t, DatagramOf(a), ds);
      BriefConcat(delivered, AllDelivered(t', ds));
    }
  }

  lemma FirstDelivered(t: Table, d: Datagram, ds: seq<Datagram>)
    ensures AllDelivered(t, [d] + ds) == Delivered(t, d) + AllDelivered(AfterDatagram(t, d), ds)
    ensures AfterDatagrams(t, [d] + ds) == AfterDatagrams(AfterDatagram(t, d), ds)
  {
    assert ([d] + ds)[1..] == ds;
  }

  /** And every connection was last heard when it last got data that suits it. */
  lemma {:induction false} ArrivalsAreHeard(t: Table, arrivals: seq<Arrival>, k: ConnectionKey)
    requires k in t && forall i | 0 <= i < |arrivals| :: |arrivals[i].payload| < 0x1_0000
    ensures k in AfterDatagrams(t, DatagramsOf(arrivals))
    ensures AfterDatagrams(t, DatagramsOf(arrivals))[k].lastReceive
         == LastHeard(SettingsOf(t), k, arrivals, t[k].lastReceive)
    decreases |arrivals|
  {
    if arrivals != [] {
      var a, ds := arrivals[0], DatagramsOf(arrivals[1..]);
      var t', delivered := AfterDatagram(t, DatagramOf(a)), Delivered(t, DatagramOf(a));
      ArrivalIsDispatched(t, a);
      DispatchKeepsSettings(t, a, t', delivered);
      DispatchIsHeard(t, a, t', delivered, k);
      ArrivalsAreHeard(t', arrivals[1..], k);
      FirstDelivered(t, DatagramOf(a), ds);
    }
  }

  // ---------------------------------------------------------------- sent data

  /** What a receiver with the mirrored settings gets from the packet of a connection: number,
      count (0 without one), run bit (0 without a header), output. */
  predicate Carries(c: Conn, receiver: Config, number: u32, count: u16, run: bool, output: bytes) {
    var payload := Payload(c.cfg, c.sequenceCount, c.run, c.output);
    && (|payload| < 0x1_0000 ==>
          Cpf.ConnectedDecoded(LastPacket(c)) == Ok(Cpf.ConnectedPacket(c.cfg.o2tId, number, payload)))
    && Input(receiver, Cpf.ConnectedPacket(c.cfg.o2tId, number, payload))
       == Some(InputData(number, if c.cfg.hasSequenceCount then count else 0, if c.cfg.o2tHeader && run then 1 else 0, output))
  }

  lemma PacketCarries(c: Conn, receiver: Config)
    requires Mirrors(receiver, c.cfg) && (c.cfg.o2tFixed ==> |c.output| == c.cfg.o2tSize)
    ensures Carries(c, receiver, c.sequenceNumber, c.sequenceCount, c.run, c.output)
  {
    Cpf.ConnectedRoundTrip(c.cfg.o2tId, c.sequenceNumber, Payload(c.cfg, c.sequenceCount, c.run, c.output));
    PayloadReadsBack(c.cfg, receiver, c.sequenceNumber, c.sequenceCount, c.run, c.output);
  }

  /** What a handler left in the output, or else the output that was set. */
  function OutputOf(c: Conn, k: ConnectionKey, outputs: map<ConnectionKey, bytes>): bytes {
    if k in outputs then outputs[k] else c.output
  }

  predicate Fits(c: Conn, output: bytes) {
    c.cfg.o2tFixed ==> |output| == c.cfg.o2tSize
  }

  lemma ServedFields(c: Conn, k: ConnectionKey, now: int, outputs: map<ConnectionKey, bytes>)
    requires c.nextSend <= now
    ensures var s, output := ServedConn(c, k, now, outputs), OutputOf(c, k, outputs);
      && s.cfg == c.cfg && s.run == c.run && s.output == output && s.lastReceive == c.lastReceive
      && s.t2oSizeWarned == c.t2oSizeWarned && (s.o2tSizeWarned <==> !Fits(c, output))
      && s.sequenceNumber == (if Fits(c, output) then (c.sequenceNumber + 1) % 4294967296 else c.sequenceNumber)
      && s.sequenceCount ==
           (if Fits(c, output) && c.cfg.hasSequenceCount then (c.sequenceCount + 1) % 65536 else c.sequenceCount)
  {
  }

  lemma CountIsZeroWithout(c: Conn, receiver: Config, number: u32, count: u16, count': u16, run: bool, output: bytes)
    requires Carries(c, receiver, number, count, run, output)
    requires c.cfg.hasSequenceCount ==> count' == count
    ensures Carries(c, receiver, number, count', run, output)
  {
  }

  /** A connection that is due and did not time out sends: its counters one up, its run bit, and
      what its on_send handler left or else its output. Only output of the wrong size is not
      sent; then the counters stay. */
  lemma DueConnectionSends(t: Table, k: ConnectionKey, now: int, outputs: map<ConnectionKey, bytes>, receiver: Config)
    requires k in t && t[k].nextSend <= now < t[k].lastReceive + t[k].cfg.timeout
    requires Mirrors(receiver, t[k].cfg)
    ensures k in Served(t, now, outputs) && Served(t, now, outputs)[k] == ServedConn(t[k], k, now, outputs)
    ensures Sends(t, k, now, outputs) <==> Fits(t[k], OutputOf(t[k], k, outputs))
    ensures Fits(t[k], OutputOf(t[k], k, outputs)) ==>
              Carries(ServedConn(t[k], k, now, outputs), receiver, (t[k].sequenceNumber + 1) % 4294967296,
                      (t[k].sequenceCount + 1) % 65536, t[k].run, OutputOf(t[k], k, outputs))
    ensures !Fits(t[k], OutputOf(t[k], k, outputs)) ==>
              ServedConn(t[k], k, now, outputs).sequenceNumber == t[k].sequenceNumber &&
              ServedConn(t[k], k, now, outputs).sequenceCount == t[k].sequenceCount
  {
    ServedFields(t[k], k, now, outputs);
    if Fits(t[k], OutputOf(t[k], k, outputs)) {
      var c := ServedConn(t[k], k, now, outputs);
      PacketCarries(c, receiver);
      CountIsZeroWithout(c, receiver, c.sequenceNumber, c.sequenceCount, (t[k].sequenceCount + 1) % 65536, c.run,
                         c.output);
    }
  }

  /** Nothing is sent before its slot, and an entry is dropped, unsent, once its timeout passed. */
  lemma OthersDoNotSend(t: Table, k: ConnectionKey, now: int, outputs: map<ConnectionKey, bytes>)
    requires k in t
    ensures now < t[k].nextSend ==> !Sends(t, k, now, outputs)
    ensures now >= t[k].lastReceive + t[k].cfg.timeout ==>
              !Sends(t, k, now, outputs) && k !in Served(t, now, outputs)
    ensures now < t[k].nextSend && now < t[k].lastReceive + t[k].cfg.timeout ==>
              k in Served(t, now, outputs) && Served(t, now, outputs)[k] == t[k]
  {
  }

  // ---------------------------------------------------------------- commands

  predicate AreZeros(output: bytes, size: nat) {
    |output| == size && forall i | 0 <= i < |output| :: output[i] == 0
  }

  /** A connection that was just handed over is due at once and times out a timeout later; as
      number 1 and count 1 it sends zeros of its size with the run bit set. */
  lemma FreshConnectionSends(cfg: Config, created: int, now: int, receiver: Config)
    requires created <= now && Mirrors(receiver, cfg)
    ensures var c, k := Fresh(cfg, created), cfg.Key();
      && c.cfg == cfg && c.nextSend == created && c.lastReceive == created && AreZeros(c.output, cfg.o2tSize)
      && Carries(ServedConn(c, k, now, map[]), receiver, 1, 1, true, c.output)
  {
    var c, k := Fresh(cfg, created), cfg.Key();
    ServedFields(c, k, now, map[]);
    PacketCarries(ServedConn(c, k, now, map[]), receiver);
    CountIsZeroWithout(ServedConn(c, k, now, map[]), receiver, 1, ServedConn(c, k, now, map[]).sequenceCount, 1, true,
                       c.output);
  }

  /** A second connection with the same key changes nothing; a first one is added as it is, and
      sends in the first service after that. */
  lemma AddedConnectionSends(t: Table, cfg: Config, created: int, now: int)
    requires created <= now < created + cfg.timeout
    ensures cfg.Key() in t ==> Commanded(t, Add(cfg, created)) == t
    ensures cfg.Key() !in t ==>
              var t' := Commanded(t, Add(cfg, created));
              && t'.Keys == t.Keys + {cfg.Key()} && (forall l | l in t :: t'[l] == t[l])
              && t'[cfg.Key()] == Fresh(cfg, created) && Sends(t', cfg.Key(), now, map[])
  {
  }

  /** Commands for the output and the run bit are in the next packet of the connection they are
      for, and change no other; for a key without entry they change nothing. */
  lemma CommandedOutputIsSent(t: Table, k: ConnectionKey, data: bytes, run: bool, now: int, receiver: Config)
    requires k in t && t[k].nextSend <= now < t[k].lastReceive + t[k].cfg.timeout && Mirrors(receiver, t[k].cfg)
    requires t[k].cfg.o2tFixed ==> |data| == t[k].cfg.o2tSize
    ensures var t' := Commanded(Commanded(t, SetOutput(k, data)), SetRun(k, run));
      && k in t' && Sends(t', k, now, map[])
      && Carries(ServedConn(t'[k], k, now, map[]), receiver, (t[k].sequenceNumber + 1) % 4294967296,
                 (t[k].sequenceCount + 1) % 65536, run, data)
  {
    DueConnectionSends(Commanded(Commanded(t, SetOutput(k, data)), SetRun(k, run)), k, now, map[], receiver);
  }

  lemma CommandsChangeTheirConnection(t: Table, k: ConnectionKey, data: bytes, run: bool)
    ensures Commanded(Commanded(t, SetOutput(k, data)), SetRun(k, run))
         == Commanded(Commanded(t, SetRun(k, run)), SetOutput(k, data))
    ensures forall cmd | cmd == SetOutput(k, data) || cmd == SetRun(k, run) ::
              && Commanded(t, cmd).Keys == t.Keys
              && (forall l | l in t && l != k :: Commanded(t, cmd)[l] == t[l])
              && (k in t ==> Commanded(t, cmd)[k].(output := t[k].output, run := t[k].run) == t[k])
  {
  }

  /** A removed connection is gone, and no other. */
  lemma RemovedConnectionIsGone(t: Table, k: ConnectionKey)
    ensures var t' := Commanded(t, Remove(k)); t'.Keys == t.Keys - {k} && forall l | l in t' :: t'[l] == t[l]
  {
  }

  /** Commands are executed in order up to a shutdown, which stops the thread; those behind it
      are not executed. */
  lemma {:induction false} CommandsRunUpToShutdown(t: Table, a: seq<Command>, b: seq<Command>)
    requires Shutdown !in a
    ensures Drained(t, a).1
    ensures Drained(t, a + b) == Drained(Drained(t, a).0, b)
    ensures Drained(t, a + [Shutdown] + b) == (Drained(t, a).0, false)
    decreases |a|
  {
    if a == [] {
      assert a + b == b && a + [Shutdown] + b == [Shutdown] + b;
    } else {
      assert a[0] in a;
      assert (a + b)[0] == a[0] && (a + b)[1..] == a[1..] + b;
      assert (a + [Shutdown] + b)[0] == a[0] && (a + [Shutdown] + b)[1..] == a[1..] + [Shutdown] + b;
      CommandsRunUpToShutdown(Commanded(t, a[0]), a[1..], b);
    }
  }
}
