/**
 The worker object: it owns the connection objects and updates them in place. Each
 method does to the table of connection values what WorkerTable says.
 */
module IoWorker {
  import opened Wire
  import opened ConnectionKeys
  import opened Connections
  import WT = WorkerTable
  import Cpf = CommonPacket

  /** What one connection is after its part of a service. */
  ghost function Swept(c: Conn, k: ConnectionKey, now: int, outputs: map<ConnectionKey, bytes>): Conn {
    if c.TimedOut(now) then c else WT.ServedConn(c, k, now, outputs)
  }

  /** The packet one connection puts on the wire in a service. */
  ghost function Emitted(c: Conn, k: ConnectionKey, now: int, outputs: map<ConnectionKey, bytes>): Option<bytes> {
    if !c.TimedOut(now) && c.SendDue(now) && MaySend(WT.WithOutput(c, k, outputs))
    then Some(WT.LastPacket(WT.ServedConn(c, k, now, outputs))) else None
  }

  /** A service that has visited all connections but those in todo. */
  ghost predicate Partly(before: WT.Table, now: int, outputs: map<ConnectionKey, bytes>, todo: set<ConnectionKey>,
                         table: WT.Table, sent: map<ConnectionKey, bytes>, timedOut: set<ConnectionKey>)
  {
    && table.Keys == before.Keys
    && (forall k | k in before :: table[k] == if k in todo then before[k] else Swept(before[k], k, now, outputs))
    && (forall k :: k in timedOut <==> k in before && k !in todo && before[k].TimedOut(now))
    && (forall k | k in sent :: k in before && k !in todo && Emitted(before[k], k, now, outputs) == Some(sent[k]))
    && (forall k | k in before && k !in todo && k !in sent :: Emitted(before[k], k, now, outputs) == None)
  }

  lemma PartlyNext(before: WT.Table, now: int, outputs: map<ConnectionKey, bytes>, todo: set<ConnectionKey>,
                   table: WT.Table, sent: map<ConnectionKey, bytes>, timedOut: set<ConnectionKey>, key: ConnectionKey)
    requires Partly(before, now, outputs, todo, table, sent, timedOut) && key in todo && key in before
    ensures table[key] == before[key]
    ensures var packet := Emitted(before[key], key, now, outputs);
            Partly(before, now, outputs, todo - {key}, table[key := Swept(before[key], key, now, outputs)],
                   if packet.Some? then sent[key := packet.value] else sent,
                   if before[key].TimedOut(now) then timedOut + {key} else timedOut)
  {
  }

  lemma PartlyDone(before: WT.Table, now: int, outputs: map<ConnectionKey, bytes>,
                   table: WT.Table, sent: map<ConnectionKey, bytes>, timedOut: set<ConnectionKey>)
    requires Partly(before, now, outputs, {}, table, sent, timedOut)
    ensures table - timedOut == WT.Served(before, now, outputs)
    ensures timedOut == before.Keys - (table - timedOut).Keys
  {
  }

  lemma PacketsDone(before: WT.Table, now: int, outputs: map<ConnectionKey, bytes>,
                    table: WT.Table, sent: map<ConnectionKey, bytes>, timedOut: set<ConnectionKey>)
    requires Partly(before, now, outputs, {}, table, sent, timedOut)
    ensures forall k :: k in sent <==> WT.Sends(before, k, now, outputs)
    ensures forall k | k in sent :: k in table - timedOut && sent[k] == WT.LastPacket((table - timedOut)[k])
  {
  }

  lemma OneDatagramMore(t: WT.Table, ds: seq<WT.Datagram>, i: nat, inputs: seq<(ConnectionKey, InputData)>)
    requires i < |ds|
    ensures WT.AfterDatagrams(t, ds[i..]) == WT.AfterDatagrams(WT.AfterDatagram(t, ds[i]), ds[i + 1..])
    ensures inputs + WT.AllDelivered(t, ds[i..])
         == inputs + WT.Delivered(t, ds[i]) + WT.AllDelivered(WT.AfterDatagram(t, ds[i]), ds[i + 1..])
  {
    assert ds[i..][1..] == ds[i + 1..];
    Joined(inputs, WT.Delivered(t, ds[i]), WT.AllDelivered(WT.AfterDatagram(t, ds[i]), ds[i + 1..]));
  }

  lemma Joined<T>(a: seq<T>, b: seq<T>, c: seq<T>)
    ensures a + (b + c) == a + b + c
  {
  }

  class Worker {
    const idleWait: nat
    var connections: map<ConnectionKey, IoConnection>

    /** No connection object is in the table twice. */
    ghost predicate Valid()
      reads this
    {
      forall k, l | k in connections && l in connections && k != l :: connections[k] != connections[l]
    }

    /** The values of the connections. */
    ghost function Table(): WT.Table
      reads this, connections.Values
    {
      map k | k in connections :: connections[k].State()
    }

    constructor (idleWait: nat)
      ensures Valid() && connections == map[] && Table() == map[]
    {
      this.idleWait := idleWait;
      connections := map[];
    }

    /** Add: a connection whose key is taken is refused. */
    method AddConnection(cfg: Config, created: int)
      requires Valid()
      modifies this
      ensures Valid() && fresh(connections.Values - old(connections.Values))
      ensures Table() == WT.Commanded(old(Table()), WT.Add(cfg, created))
    {
      if cfg.Key() !in connections {
        var conn := new IoConnection(cfg, created);
        connections := connections[cfg.Key() := conn];
      }
    }

    /** One received command. */
    method Execute(cmd: WT.Command)
      requires Valid() && !cmd.Shutdown?
      modifies this, connections.Values
      ensures Valid() && fresh(connections.Values - old(connections.Values))
      ensures Table() == WT.Commanded(old(Table()), cmd)
    {
      match cmd {
        case Add(cfg, created) =>
          AddConnection(cfg, created);
        case Remove(key) =>
          connections := connections - {key};
        case SetOutput(key, data) =>
          if key in connections {
            connections[key].SetOutput(data);
          }
        case SetRun(key, run) =>
          if key in connections {
            connections[key].SetRun(run);
          }
      }
    }

    /** All queued commands; false on shutdown. */
    method DrainCommands(cmds: seq<WT.Command>) returns (running: bool)
      requires Valid()
      modifies this, connections.Values
      ensures Valid() && fresh(connections.Values - old(connections.Values))
      ensures (Table(), running) == WT.Drained(old(Table()), cmds)
    {
      for i := 0 to |cmds|
        invariant Valid() && fresh(connections.Values - old(connections.Values))
        invariant WT.Drained(Table(), cmds[i..]) == WT.Drained(old(Table()), cmds)
      {
        assert cmds[i..][1..] == cmds[i + 1..];
        if cmds[i].Shutdown? {
          return false;
        }
        Execute(cmds[i]);
      }
      return true;
    }

    /** Sends what one connection has due, unless it timed out: its on_send handler runs,
        then the packet is built. */
    method ServeOne(conn: IoConnection, key: ConnectionKey, now: int, outputs: map<ConnectionKey, bytes>)
      returns (packet: Option<bytes>)
      modifies conn
      ensures conn.State() == Swept(old(conn.State()), key, now, outputs)
      ensures packet == Emitted(old(conn.State()), key, now, outputs)
    {
      packet := None;
      if !conn.State().TimedOut(now) && conn.State().SendDue(now) {
        if key in outputs {
          conn.SetOutput(outputs[key]);
        }
        var ok, bs := conn.BuildPacket(now);
        if ok {
          packet := Some(bs);
        }
      }
    }

    /** The turn of one connection in a service. */
    method Visit(key: ConnectionKey, now: int, outputs: map<ConnectionKey, bytes>)
      returns (packet: Option<bytes>, isTimedOut: bool)
      requires Valid() && key in connections
      modifies connections[key]
      ensures isTimedOut <==> old(connections[key].State()).TimedOut(now)
      ensures packet == Emitted(old(connections[key].State()), key, now, outputs)
      ensures Table() == old(Table())[key := Swept(old(connections[key].State()), key, now, outputs)]
    {
      isTimedOut := connections[key].State().TimedOut(now);
      packet := ServeOne(connections[key], key, now, outputs);
    }

    /** Drops the entries of some keys. */
    method Drop(keys: set<ConnectionKey>)
      requires Valid()
      modifies this
      ensures Valid() && connections.Values <= old(connections.Values)
      ensures Table() == old(Table()) - keys
    {
      connections := connections - keys;
    }

    /** Services every connection in some order: sends what is due, then drops what timed
        out. Returns the packets sent and the keys dropped. */
    method ServiceConnections(now: int, outputs: map<ConnectionKey, bytes>)
      returns (sent: map<ConnectionKey, bytes>, timedOut: set<ConnectionKey>)
      requires Valid()
      modifies this, connections.Values
      ensures Valid() && connections.Values <= old(connections.Values)
      ensures Table() == WT.Served(old(Table()), now, outputs)
      ensures timedOut == old(Table()).Keys - Table().Keys
      ensures forall k :: k in sent <==> WT.Sends(old(Table()), k, now, outputs)
      ensures forall k | k in sent :: k in Table() && sent[k] == WT.LastPacket(Table()[k])
    {
      sent, timedOut := map[], {};
      var todo := connections.Keys;
      ghost var before := Table();
      ghost var table := before;
      while todo != {}
        invariant connections == old(connections) && todo <= connections.Keys
        invariant table == Table()
        invariant Partly(before, now, outputs, todo, table, sent, timedOut)
        decreases todo
      {
        var key :| key in todo;
        PartlyNext(before, now, outputs, todo, table, sent, timedOut, key);
        assert connections[key].State() == table[key];
        var packet, isTimedOut := Visit(key, now, outputs);
        todo := todo - {key};
        table := table[key := Swept(before[key], key, now, outputs)];
        if isTimedOut {
          timedOut := timedOut + {key};
        }
        if packet.Some? {
          sent := sent[key := packet.value];
        }
      }
      PartlyDone(before, now, outputs, table, sent, timedOut);
      PacketsDone(before, now, outputs, table, sent, timedOut);
      Drop(timedOut);
    }

    /** When the thread wakes next: the earliest deadline, at most idleWait away. */
    method Deadline(now: int) returns (deadline: int)
      requires Valid()
      ensures WT.IsDeadline(Table(), now, idleWait, deadline)
    {
      deadline := now + idleWait;
      var todo := connections.Keys;
      while todo != {}
        invariant todo <= connections.Keys
        invariant deadline <= now + idleWait
        invariant forall k | k in connections && k !in todo :: deadline <= connections[k].State().NextDeadline()
        invariant deadline == now + idleWait || exists k :: k in Table() && deadline == Table()[k].NextDeadline()
        decreases todo
      {
        var key :| key in todo;
        todo := todo - {key};
        var d := connections[key].State().NextDeadline();
        if d < deadline {
          deadline := d;
          assert key in Table() && deadline == Table()[key].NextDeadline();
        }
      }
    }

    /** Reads datagrams and hands each to the connection it is for. Returns what the
        on_receive handlers get, in order. */
    method ReceiveAll(datagrams: seq<WT.Datagram>) returns (inputs: seq<(ConnectionKey, InputData)>)
      requires Valid()
      modifies connections.Values
      ensures Table() == WT.AfterDatagrams(old(Table()), datagrams)
      ensures inputs == WT.AllDelivered(old(Table()), datagrams)
    {
      inputs := [];
      for i := 0 to |datagrams|
        invariant WT.AfterDatagrams(Table(), datagrams[i..]) == WT.AfterDatagrams(old(Table()), datagrams)
        invariant inputs + WT.AllDelivered(Table(), datagrams[i..]) == WT.AllDelivered(old(Table()), datagrams)
      {
        OneDatagramMore(Table(), datagrams, i, inputs);
        var input := Receive(datagrams[i]);
        inputs := inputs + input;
      }
    }

    /** One datagram; returns what the handler of its connection gets, if it is accepted. */
    method Receive(d: WT.Datagram) returns (input: seq<(ConnectionKey, InputData)>)
      requires Valid()
      modifies connections.Values
      ensures Table() == WT.AfterDatagram(old(Table()), d)
      ensures input == WT.Delivered(old(Table()), d)
    {
      input := [];
      var packet := Cpf.DecodeConnectedPacket(d.data);
      if packet.Ok? {
        var key := ConnectionKey(d.fromIp, packet.value.connectionId);
        if key in connections {
          var data := connections[key].OnReceive(packet.value, d.at);
          if data.Some? {
            input := [(key, data.value)];
          }
        }
      }
    }

    /** One turn of the loop; false when the thread stops. The datagrams are those that
        arrive while it sleeps until the deadline. Returns the packets sent, the keys that
        timed out and what the on_receive handlers get. */
    method Turn(cmds: seq<WT.Command>, now: int, outputs: map<ConnectionKey, bytes>, datagrams: seq<WT.Datagram>)
      returns (running: bool, deadline: int, sent: map<ConnectionKey, bytes>, timedOut: set<ConnectionKey>,
               inputs: seq<(ConnectionKey, InputData)>)
      requires Valid()
      modifies this, connections.Values
      ensures Valid() && running == WT.Drained(old(Table()), cmds).1
      ensures !running ==> Table() == WT.Drained(old(Table()), cmds).0 && sent == map[] && timedOut == {} && inputs == []
      ensures running ==>
                var drained := WT.Drained(old(Table()), cmds).0;
                var served := WT.Served(drained, now, outputs);
                && WT.IsDeadline(served, now, idleWait, deadline)
                && Table() == WT.AfterDatagrams(served, datagrams)
                && timedOut == drained.Keys - served.Keys
                && (forall k :: k in sent <==> WT.Sends(drained, k, now, outputs))
                && (forall k | k in sent :: k in served && sent[k] == WT.LastPacket(served[k]))
                && inputs == WT.AllDelivered(served, datagrams)
    {
      deadline, sent, timedOut, inputs := now, map[], {}, [];
      running := DrainCommands(cmds);
      if running {
        sent, timedOut := ServiceConnections(now, outputs);
        deadline := Deadline(now);
        inputs := ReceiveAll(datagrams);
      }
    }
  }
}
