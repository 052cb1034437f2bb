/**
 The table of the I/O thread and one turn of its loop, as values: commands, a service of
 every connection, a wait until a deadline, received datagrams.
 */
module WorkerTable {
  import opened Wire
  import opened ConnectionKeys
  import opened Schedule
  import opened Connections
  import Cpf = CommonPacket

  type Table = map<ConnectionKey, Conn>

  /** Add carries a connection that was created at the given time and not used since. */
  datatype Command =
    | Add(cfg: Config, created: int)
    | Remove(key: ConnectionKey)
    | SetOutput(key: ConnectionKey, data: bytes)
    | SetRun(key: ConnectionKey, run: bool)
    | Shutdown

  datatype Datagram = Datagram(fromIp: nat, data: bytes, at: int)

  // ---------------------------------------------------------------- commands

  function Commanded(t: Table, cmd: Command): Table {
    match cmd
    case Add(cfg, created) => if cfg.Key() in t then t else t[cfg.Key() := Fresh(cfg, created)]
    case Remove(key) => t - {key}
    case SetOutput(key, data) => if key in t then t[key := t[key].(output := data)] else t
    case SetRun(key, run) => if key in t then t[key := t[key].(run := run)] else t
    case Shutdown => t
  }

  /** All queued commands up to a shutdown; false if there was one. */
  function Drained(t: Table, cmds: seq<Command>): (Table, bool)
    decreases |cmds|
  {
    if cmds == [] then (t, true)
    else if cmds[0].Shutdown? then (t, false)
    else Drained(Commanded(t, cmds[0]), cmds[1..])
  }

  // ---------------------------------------------------------------- service

  /** The output a connection sends: what its on_send handler leaves, if it has one. */
  function WithOutput(c: Conn, key: ConnectionKey, outputs: map<ConnectionKey, bytes>): Conn {
    if key in outputs then c.(output := outputs[key]) else c
  }

  function ServedConn(c: Conn, key: ConnectionKey, now: int, outputs: map<ConnectionKey, bytes>): Conn {
    if c.SendDue(now) then AfterBuild(WithOutput(c, key, outputs), now) else c
  }

  /** Timed-out entries leave the table; every other connection sends if it is due. */
  function Served(t: Table, now: int, outputs: map<ConnectionKey, bytes>): Table {
    map k | k in t && !t[k].TimedOut(now) :: ServedConn(t[k], k, now, outputs)
  }

  /** The connections that put a packet on the wire in this service. */
  predicate Sends(t: Table, k: ConnectionKey, now: int, outputs: map<ConnectionKey, bytes>) {
    k in t && !t[k].TimedOut(now) && t[k].SendDue(now) && MaySend(WithOutput(t[k], k, outputs))
  }

  /** The packet a connection built last, as its counters and output stand. */
  function LastPacket(c: Conn): bytes {
    PacketBytes(c.cfg, c.sequenceNumber, c.sequenceCount, c.run, c.output)
  }

  // ---------------------------------------------------------------- datagrams

  /** The table key a datagram is looked up under, if it decodes. */
  function Target(d: Datagram): Option<(ConnectionKey, Cpf.ConnectedPacket)> {
    var p := Cpf.ConnectedDecoded(d.data);
    if p.Err? then None else Some((ConnectionKey(d.fromIp, p.value.connectionId), p.value))
  }

  function AfterDatagram(t: Table, d: Datagram): Table {
    var target := Target(d);
    if target.None? || target.value.0 !in t then t
    else
      var (key, packet) := target.value;
      t[key := AfterReceive(t[key], packet, d.at)]
  }

  function AfterDatagrams(t: Table, ds: seq<Datagram>): Table
    decreases |ds|
  {
    if ds == [] then t else AfterDatagrams(AfterDatagram(t, ds[0]), ds[1..])
  }

  /** Two connections that differ at most in the warning flag for wrong sizes. */
  predicate SameButForWarning(c: Conn, c': Conn) {
    c' == c.(t2oSizeWarned := c'.t2oSizeWarned)
  }

  /** A datagram changes at most the entry keyed by its sender and connection ID; one
      that is malformed, unmatched or refused changes no schedule, counter or timeout. */
  lemma DatagramTouchesOneEntry(t: Table, d: Datagram)
    ensures AfterDatagram(t, d).Keys == t.Keys
    ensures forall k | k in t && !(Target(d).Some? && Target(d).value.0 == k) :: AfterDatagram(t, d)[k] == t[k]
    ensures Target(d).None? ==> AfterDatagram(t, d) == t
    ensures Target(d).Some? && Target(d).value.0 in t ==>
              var (k, packet) := Target(d).value;
              if Input(t[k].cfg, packet).Some? then AfterDatagram(t, d)[k] == t[k].(lastReceive := d.at, t2oSizeWarned := false)
              else SameButForWarning(t[k], AfterDatagram(t, d)[k])
  {
  }

  // ---------------------------------------------------------------- the deadline

  /** What the thread sleeps until: the earliest deadline, at most idleWait away. */
  ghost predicate IsDeadline(t: Table, now: int, idleWait: nat, deadline: int) {
    && deadline <= now + idleWait
    && (forall k | k in t :: deadline <= t[k].NextDeadline())
    && (deadline == now + idleWait || exists k :: k in t && deadline == t[k].NextDeadline())
  }

  /** Fewer than 2^32 slots were missed, and the interval is positive. */
  predicate Keeps(c: Conn, now: int) {
    c.cfg.o2tApi > 0 && now < c.nextSend + c.cfg.o2tApi * U32
  }

  /** After a service at now the deadline lies strictly ahead, before every send and
      timeout of the connections that are left. */
  lemma DeadlineLiesAhead(t: Table, now: int, outputs: map<ConnectionKey, bytes>, idleWait: nat, deadline: int)
    requires forall k | k in t :: Keeps(t[k], now)
    requires idleWait > 0 && IsDeadline(Served(t, now, outputs), now, idleWait, deadline)
    ensures now < deadline
    ensures forall k | k in Served(t, now, outputs) ::
              var c := Served(t, now, outputs)[k];
              deadline <= c.nextSend && deadline <= c.TimeoutAt()
  {
    var s := Served(t, now, outputs);
    forall k | k in s ensures now < s[k].nextSend && now < s[k].TimeoutAt() {
      NextSendIsLeastGridPointAfterNow(if t[k].SendDue(now) then t[k].nextSend else now, t[k].cfg.o2tApi, now);
    }
  }

  /** The datagrams that a connection with key k and these settings accepts. */
  predicate AcceptedBy(k: ConnectionKey, cfg: Config, d: Datagram) {
    Target(d).Some? && Target(d).value.0 == k && Input(cfg, Target(d).value.1).Some?
  }

  function LastAccepted(k: ConnectionKey, cfg: Config, ds: seq<Datagram>, before: int): int
    decreases |ds|
  {
    if ds == [] then before
    else LastAccepted(k, cfg, ds[1..], if AcceptedBy(k, cfg, ds[0]) then ds[0].at else before)
  }

  /** A datagram looked up under this key. */
  predicate IsFor(k: ConnectionKey, d: Datagram) {
    Target(d).Some? && Target(d).value.0 == k
  }

  /** After any sequence of datagrams an entry differs from before in nothing but the time
      of the last one it accepted and the warning flag, and in nothing at all if none of
      them was looked up under its key. */
  lemma {:induction false} OnlyAcceptedDatagramsCount(t: Table, ds: seq<Datagram>, k: ConnectionKey)
    requires k in t
    ensures AfterDatagrams(t, ds).Keys == t.Keys
    ensures SameButForWarning(t[k].(lastReceive := LastAccepted(k, t[k].cfg, ds, t[k].lastReceive)), AfterDatagrams(t, ds)[k])
    ensures (forall d | d in ds :: !IsFor(k, d)) ==> AfterDatagrams(t, ds)[k] == t[k]
    decreases |ds|
  {
    if ds != [] {
      DatagramTouchesOneEntry(t, ds[0]);
      OnlyAcceptedDatagramsCount(AfterDatagram(t, ds[0]), ds[1..], k);
      assert ds[0] in ds;
    }
  }

  lemma {:induction false} LastAcceptedIsLatest(k: ConnectionKey, cfg: Config, ds: seq<Datagram>, before: int)
    requires forall i | 0 <= i < |ds| :: before <= ds[i].at
    requires forall i, j | 0 <= i < j < |ds| :: ds[i].at <= ds[j].at
    ensures before <= LastAccepted(k, cfg, ds, before)
    ensures forall i | 0 <= i < |ds| && AcceptedBy(k, cfg, ds[i]) :: ds[i].at <= LastAccepted(k, cfg, ds, before)
    ensures LastAccepted(k, cfg, ds, before) == before ||
            exists i :: 0 <= i < |ds| && AcceptedBy(k, cfg, ds[i]) && ds[i].at == LastAccepted(k, cfg, ds, before)
    decreases |ds|
  {
    if ds != [] {
      var b := if AcceptedBy(k, cfg, ds[0]) then ds[0].at else before;
      LastAcceptedIsLatest(k, cfg, ds[1..], b);
      var last := LastAccepted(k, cfg, ds[1..], b);
      forall i | 0 <= i < |ds| && AcceptedBy(k, cfg, ds[i]) ensures ds[i].at <= last {
        if i > 0 {
          assert ds[i] == ds[1..][i - 1];
        }
      }
      if last != b {
        var i :| 0 <= i < |ds[1..]| && AcceptedBy(k, cfg, ds[1..][i]) && ds[1..][i].at == last;
        assert ds[i + 1] == ds[1..][i];
      } else if AcceptedBy(k, cfg, ds[0]) {
        assert ds[0].at == last;
      }
    }
  }

  /** Whatever arrives during the wait, in order of time, can only move the deadlines later. */
  lemma ReceivingDefersDeadlines(t: Table, ds: seq<Datagram>, k: ConnectionKey)
    requires k in t
    requires forall i | 0 <= i < |ds| :: t[k].lastReceive <= ds[i].at
    requires forall i, j | 0 <= i < j < |ds| :: ds[i].at <= ds[j].at
    ensures k in AfterDatagrams(t, ds)
    ensures AfterDatagrams(t, ds)[k].nextSend == t[k].nextSend
    ensures AfterDatagrams(t, ds)[k].TimeoutAt() >= t[k].TimeoutAt()
    ensures AfterDatagrams(t, ds)[k].NextDeadline() >= t[k].NextDeadline()
  {
    OnlyAcceptedDatagramsCount(t, ds, k);
    LastAcceptedIsLatest(k, t[k].cfg, ds, t[k].lastReceive);
  }

  /** What on_receive gets for a datagram, and for which connection. */
  function Delivered(t: Table, d: Datagram): seq<(ConnectionKey, InputData)> {
    var target := Target(d);
    if target.None? || target.value.0 !in t then []
    else
      var input := Input(t[target.value.0].cfg, target.value.1);
      if input.None? then [] else [(target.value.0, input.value)]
  }

  function AllDelivered(t: Table, ds: seq<Datagram>): seq<(ConnectionKey, InputData)>
    decreases |ds|
  {
    if ds == [] then [] else Delivered(t, ds[0]) + AllDelivered(AfterDatagram(t, ds[0]), ds[1..])
  }
}

/**
 Whole runs of the thread's loop, with a record of every send attempt: if the thread
 always wakes within a given time of its deadline, no connection misses a slot and every
 timeout is acted on in time.
 */
module WorkerRuns {
  import opened Wire
  import opened ConnectionKeys
  import opened Schedule
  import opened Connections
  import opened WorkerTable
  import Cpf = CommonPacket

  /** A send attempt: the slot it was for and when it was made. */
  datatype Attempt = Attempt(slot: int, at: int)

  /** A connection in the table with its history: when it was created, its send attempts,
      the times of the datagrams it accepted, and how many packets it put on the wire. */
  datatype Track = Track(conn: Conn, created: int, attempts: seq<Attempt>, accepted: seq<int>, packets: nat)

  type Tracks = map<ConnectionKey, Track>

  /** A removal by timeout: the deadline it missed, the time of the service, and whether
      the connection had been served before. */
  datatype Removal = Removal(key: ConnectionKey, timeoutAt: int, at: int, served: bool)

  function Erase(tr: Tracks): Table {
    map k | k in tr :: tr[k].conn
  }

  // ---------------------------------------------------------------- one turn, with history

  function CommandedTracks(tr: Tracks, cmd: Command): Tracks {
    match cmd
    case Add(cfg, created) => if cfg.Key() in tr then tr else tr[cfg.Key() := Track(Fresh(cfg, created), created, [], [], 0)]
    case Remove(key) => tr - {key}
    case SetOutput(key, data) => if key in tr then tr[key := tr[key].(conn := tr[key].conn.(output := data))] else tr
    case SetRun(key, run) => if key in tr then tr[key := tr[key].(conn := tr[key].conn.(run := run))] else tr
    case Shutdown => tr
  }

  function DrainedTracks(tr: Tracks, cmds: seq<Command>): Tracks
    decreases |cmds|
  {
    if cmds == [] || cmds[0].Shutdown? then tr else DrainedTracks(CommandedTracks(tr, cmds[0]), cmds[1..])
  }

  function ServedTrack(t: Track, k: ConnectionKey, now: int, outputs: map<ConnectionKey, bytes>): Track {
    Track(ServedConn(t.conn, k, now, outputs), t.created,
          if t.conn.SendDue(now) then t.attempts + [Attempt(t.conn.nextSend, now)] else t.attempts,
          t.accepted,
          if t.conn.SendDue(now) && MaySend(WithOutput(t.conn, k, outputs)) then t.packets + 1 else t.packets)
  }

  function ServedTracks(tr: Tracks, now: int, outputs: map<ConnectionKey, bytes>): Tracks {
    map k | k in tr && !tr[k].conn.TimedOut(now) :: ServedTrack(tr[k], k, now, outputs)
  }

  ghost function Removals(tr: Tracks, now: int): set<Removal> {
    set k | k in tr && tr[k].conn.TimedOut(now) :: Removal(k, tr[k].conn.TimeoutAt(), now, tr[k].attempts != [])
  }

  function AfterDatagramTracks(tr: Tracks, d: Datagram): Tracks {
    var target := Target(d);
    if target.None? || target.value.0 !in tr then tr
    else
      var (key, packet) := target.value;
      tr[key := tr[key].(conn := AfterReceive(tr[key].conn, packet, d.at),
                         accepted := if AcceptedBy(key, tr[key].conn.cfg, d) then tr[key].accepted + [d.at] else tr[key].accepted)]
  }

  function AfterDatagramsTracks(tr: Tracks, ds: seq<Datagram>): Tracks
    decreases |ds|
  {
    if ds == [] then tr else AfterDatagramsTracks(AfterDatagramTracks(tr, ds[0]), ds[1..])
  }

  /** One turn of the loop: the commands found, the time of the service, what the on_send
      handlers leave, the deadline computed and the datagrams received until the next turn. */
  datatype Turn = Turn(
    cmds: seq<Command>,
    now: int,
    outputs: map<ConnectionKey, bytes>,
    deadline: int,
    datagrams: seq<Datagram>)

  /** The thread between two turns: the table, the deadline it sleeps until, the latest
      time it has seen, and the removals so far. */
  ghost function AfterTurn(w: World, turn: Turn): World {
    var drained := DrainedTracks(w.tracks, turn.cmds);
    World(AfterDatagramsTracks(ServedTracks(drained, turn.now, turn.outputs), turn.datagrams),
          turn.deadline,
          if turn.datagrams == [] then turn.now else turn.datagrams[|turn.datagrams| - 1].at,
          w.removals + Removals(drained, turn.now))
  }

  datatype World = World(tracks: Tracks, deadline: int, clock: int, removals: set<Removal>)

  // ---------------------------------------------------------------- history changes nothing

  lemma EraseCommanded(tr: Tracks, cmd: Command)
    ensures Erase(CommandedTracks(tr, cmd)) == Commanded(Erase(tr), cmd)
  {
  }

  lemma {:induction false} EraseDrained(tr: Tracks, cmds: seq<Command>)
    ensures Erase(DrainedTracks(tr, cmds)) == Drained(Erase(tr), cmds).0
    decreases |cmds|
  {
    if cmds != [] && !cmds[0].Shutdown? {
      EraseCommanded(tr, cmds[0]);
      EraseDrained(CommandedTracks(tr, cmds[0]), cmds[1..]);
    }
  }

  lemma EraseReceived(tr: Tracks, d: Datagram)
    ensures Erase(AfterDatagramTracks(tr, d)) == AfterDatagram(Erase(tr), d)
  {
  }

  lemma {:induction false} EraseAllReceived(tr: Tracks, ds: seq<Datagram>)
    ensures Erase(AfterDatagramsTracks(tr, ds)) == AfterDatagrams(Erase(tr), ds)
    decreases |ds|
  {
    if ds != [] {
      EraseReceived(tr, ds[0]);
      EraseAllReceived(AfterDatagramTracks(tr, ds[0]), ds[1..]);
    }
  }

  /** The recorded runs are the runs of the table: the history changes nothing. */
  lemma HistoryChangesNothing(w: World, turn: Turn)
    ensures Erase(AfterTurn(w, turn).tracks) ==
            AfterDatagrams(Served(Drained(Erase(w.tracks), turn.cmds).0, turn.now, turn.outputs), turn.datagrams)
  {
    var drained := DrainedTracks(w.tracks, turn.cmds);
    EraseDrained(w.tracks, turn.cmds);
    assert Erase(ServedTracks(drained, turn.now, turn.outputs)) == Served(Erase(drained), turn.now, turn.outputs);
    EraseAllReceived(ServedTracks(drained, turn.now, turn.outputs), turn.datagrams);
  }

  // ---------------------------------------------------------------- on time

  /** The slot a connection must take next. After the first attempt, which may come late
      because the connection was only just handed over, that is the next grid point; after
      that it is always the slot that follows. */
  function DueSlot(created: int, api: nat, attempts: seq<Attempt>): int
    requires api > 0 && (attempts != [] ==> created <= attempts[0].at)
  {
    if attempts == [] then created
    else if |attempts| == 1 then GridPointAfter(created, api, attempts[0].at)
    else attempts[|attempts| - 1].slot + api
  }

  /** No slot is missed: attempt i is for the slot that is due after attempts 0 to i - 1,
      not before it, and from the second attempt on at most `late` after it. */
  ghost predicate AttemptsOnTime(created: int, api: nat, attempts: seq<Attempt>, late: nat)
    requires api > 0
  {
    && (attempts != [] ==> created <= attempts[0].at)
    && (forall i | 0 <= i < |attempts| ::
          && attempts[i].slot == DueSlot(created, api, attempts[..i])
          && attempts[i].slot <= attempts[i].at
          && (i > 0 ==> attempts[i].at <= attempts[i].slot + late))
  }

  /** The record of a connection is on time, and its schedule points at the slot due next. */
  ghost predicate OnTime(t: Track, late: nat) {
    && late < t.conn.cfg.o2tApi
    && AttemptsOnTime(t.created, t.conn.cfg.o2tApi, t.attempts, late)
    && t.conn.nextSend == DueSlot(t.created, t.conn.cfg.o2tApi, t.attempts)
  }

  /** A connection that was served before and sleeps until a deadline. */
  ghost predicate Asleep(t: Track, deadline: int, clock: int, late: nat) {
    && OnTime(t, late) && t.attempts != []
    && deadline <= t.conn.nextSend && deadline <= t.conn.TimeoutAt()
    && t.conn.lastReceive <= clock
  }

  /** A connection that was created and not served yet, less than 2^32 slots ago. */
  predicate New(t: Track, now: int, late: nat) {
    && t.attempts == [] && t.created <= now < t.created + t.conn.cfg.o2tApi * U32
    && t.conn.nextSend == t.created && t.conn.lastReceive == t.created
    && late < t.conn.cfg.o2tApi
  }

  ghost predicate WorldOnTime(w: World, late: nat) {
    && (forall k | k in w.tracks :: Asleep(w.tracks[k], w.deadline, w.clock, late))
    && (forall r | r in w.removals && r.served :: r.timeoutAt <= r.at <= r.timeoutAt + late)
  }

  /** A turn that starts at most `late` after the deadline of the turn before, with
      intervals longer than that, clocks that do not run backwards, and the deadline the
      thread computes after the service. */
  ghost predicate Timely(w: World, turn: Turn, idleWait: nat, late: nat) {
    && w.clock <= turn.now
    && (w.tracks != map[] ==> turn.now <= w.deadline + late)
    && (forall cmd | cmd in turn.cmds && cmd.Add? ::
          && late < cmd.cfg.o2tApi
          && cmd.created <= turn.now < cmd.created + cmd.cfg.o2tApi * U32)
    && IsDeadline(Erase(ServedTracks(DrainedTracks(w.tracks, turn.cmds), turn.now, turn.outputs)), turn.now, idleWait, turn.deadline)
    && (forall i | 0 <= i < |turn.datagrams| :: turn.now <= turn.datagrams[i].at)
    && (forall i, j | 0 <= i < j < |turn.datagrams| :: turn.datagrams[i].at <= turn.datagrams[j].at)
  }

  ghost predicate Waiting(t: Track, deadline: int, now: int, late: nat) {
    New(t, now, late) || Asleep(t, deadline, now, late)
  }

  ghost predicate AllWaiting(tr: Tracks, deadline: int, now: int, late: nat) {
    forall k | k in tr :: Waiting(tr[k], deadline, now, late)
  }

  lemma CommandKeepsWaiting(tr: Tracks, cmd: Command, deadline: int, now: int, late: nat)
    requires AllWaiting(tr, deadline, now, late)
    requires cmd.Add? ==> late < cmd.cfg.o2tApi && cmd.created <= now < cmd.created + cmd.cfg.o2tApi * U32
    ensures AllWaiting(CommandedTracks(tr, cmd), deadline, now, late)
  {
    var tr' := CommandedTracks(tr, cmd);
    forall k | k in tr' ensures Waiting(tr'[k], deadline, now, late) {
      if cmd.Add? && k !in tr {
        assert New(tr'[k], now, late);
      } else {
        assert Waiting(tr[k], deadline, now, late);
      }
    }
  }

  lemma {:induction false} DrainKeepsWaiting(tr: Tracks, cmds: seq<Command>, deadline: int, now: int, late: nat)
    requires AllWaiting(tr, deadline, now, late)
    requires forall cmd | cmd in cmds && cmd.Add? ::
               late < cmd.cfg.o2tApi && cmd.created <= now < cmd.created + cmd.cfg.o2tApi * U32
    ensures AllWaiting(DrainedTracks(tr, cmds), deadline, now, late)
    decreases |cmds|
  {
    if cmds != [] && !cmds[0].Shutdown? {
      assert cmds[0] in cmds;
      CommandKeepsWaiting(tr, cmds[0], deadline, now, late);
      DrainKeepsWaiting(CommandedTracks(tr, cmds[0]), cmds[1..], deadline, now, late);
    }
  }

  lemma OneMoreAttempt(created: int, api: nat, attempts: seq<Attempt>, a: Attempt, late: nat)
    requires api > 0 && AttemptsOnTime(created, api, attempts, late)
    requires a.slot == DueSlot(created, api, attempts) && a.slot <= a.at
    requires attempts != [] ==> a.at <= a.slot + late
    ensures AttemptsOnTime(created, api, attempts + [a], late)
  {
    var more := attempts + [a];
    forall i | 0 <= i < |more| ensures more[i].slot == DueSlot(created, api, more[..i]) {
      if i < |attempts| {
        assert more[..i] == attempts[..i];
      } else {
        assert more[..i] == attempts;
      }
    }
  }

  /** A schedule that is at most one interval behind moves on by one interval. */
  lemma NothingSkipped(next: int, api: nat, now: int)
    requires next <= now < next + api
    ensures NextSend(next, api, now) == next + api
  {
  }

  lemma NextDueSlot(created: int, api: nat, attempts: seq<Attempt>, a: Attempt, late: nat)
    requires api > late && AttemptsOnTime(created, api, attempts, late)
    requires a.slot == DueSlot(created, api, attempts) <= a.at
    requires if attempts == [] then a.at < created + api * U32 else a.at <= a.slot + late
    ensures NextSend(a.slot, api, a.at) == DueSlot(created, api, attempts + [a]) > a.at
  {
    if attempts == [] {
      assert (attempts + [a])[0] == a;
      NextSendIsLeastGridPointAfterNow(created, api, a.at);
    } else {
      NothingSkipped(a.slot, api, a.at);
    }
  }

  /** One service of one connection: it is on time afterwards, and its next slot lies ahead. */
  lemma ServiceIsOnTime(t: Track, k: ConnectionKey, deadline: int, now: int, outputs: map<ConnectionKey, bytes>, late: nat)
    requires Waiting(t, deadline, now, late)
    requires t.attempts != [] ==> now <= deadline + late
    ensures var t' := ServedTrack(t, k, now, outputs);
            && OnTime(t', late) && t'.attempts != [] && now < t'.conn.nextSend
            && t'.conn.lastReceive == t.conn.lastReceive && t'.conn.cfg == t.conn.cfg
  {
    if t.conn.SendDue(now) {
      var a := Attempt(t.conn.nextSend, now);
      OneMoreAttempt(t.created, t.conn.cfg.o2tApi, t.attempts, a, late);
      NextDueSlot(t.created, t.conn.cfg.o2tApi, t.attempts, a, late);
    }
  }

  lemma DatagramKeepsAsleep(tr: Tracks, d: Datagram, deadline: int, clock: int, late: nat)
    requires forall k | k in tr :: Asleep(tr[k], deadline, clock, late)
    requires clock <= d.at
    ensures forall k | k in AfterDatagramTracks(tr, d) :: Asleep(AfterDatagramTracks(tr, d)[k], deadline, d.at, late)
  {
    var tr' := AfterDatagramTracks(tr, d);
    forall k | k in tr' ensures Asleep(tr'[k], deadline, d.at, late) {
      assert Asleep(tr[k], deadline, clock, late);
    }
  }

  lemma {:induction false} DatagramsKeepAsleep(tr: Tracks, ds: seq<Datagram>, deadline: int, clock: int, late: nat)
    requires forall k | k in tr :: Asleep(tr[k], deadline, clock, late)
    requires forall i | 0 <= i < |ds| :: clock <= ds[i].at
    requires forall i, j | 0 <= i < j < |ds| :: ds[i].at <= ds[j].at
    ensures var end := if ds == [] then clock else ds[|ds| - 1].at;
            forall k | k in AfterDatagramsTracks(tr, ds) :: Asleep(AfterDatagramsTracks(tr, ds)[k], deadline, end, late)
    decreases |ds|
  {
    if ds != [] {
      DatagramKeepsAsleep(tr, ds[0], deadline, clock, late);
      DatagramsKeepAsleep(AfterDatagramTracks(tr, ds[0]), ds[1..], deadline, ds[0].at, late);
      assert |ds| > 1 ==> ds[1..][|ds| - 2] == ds[|ds| - 1];
    }
  }

  /** A connection that was served before was in the table before the commands. */
  lemma {:induction false} DrainedWasThere(tr: Tracks, cmds: seq<Command>, k: ConnectionKey)
    requires k in DrainedTracks(tr, cmds) && DrainedTracks(tr, cmds)[k].attempts != []
    ensures k in tr && tr[k].attempts != []
    decreases |cmds|
  {
    if cmds != [] && !cmds[0].Shutdown? {
      DrainedWasThere(CommandedTracks(tr, cmds[0]), cmds[1..], k);
    }
  }

  /** After the commands every connection is waiting, and those served before wait no
      longer than `late` past the deadline. */
  lemma DrainedWait(w: World, turn: Turn, idleWait: nat, late: nat)
    requires WorldOnTime(w, late) && Timely(w, turn, idleWait, late)
    ensures var drained := DrainedTracks(w.tracks, turn.cmds);
            && AllWaiting(drained, w.deadline, turn.now, late)
            && forall k | k in drained && drained[k].attempts != [] :: turn.now <= w.deadline + late
  {
    var drained := DrainedTracks(w.tracks, turn.cmds);
    forall k | k in w.tracks ensures Waiting(w.tracks[k], w.deadline, turn.now, late) {
      assert Asleep(w.tracks[k], w.deadline, w.clock, late);
    }
    DrainKeepsWaiting(w.tracks, turn.cmds, w.deadline, turn.now, late);
    forall k | k in drained && drained[k].attempts != [] ensures turn.now <= w.deadline + late {
      DrainedWasThere(w.tracks, turn.cmds, k);
    }
  }

  lemma ServedSleeps(w: World, turn: Turn, idleWait: nat, late: nat, k: ConnectionKey)
    requires WorldOnTime(w, late) && Timely(w, turn, idleWait, late)
    requires k in ServedTracks(DrainedTracks(w.tracks, turn.cmds), turn.now, turn.outputs)
    ensures Asleep(ServedTracks(DrainedTracks(w.tracks, turn.cmds), turn.now, turn.outputs)[k], turn.deadline, turn.now, late)
  {
    var drained := DrainedTracks(w.tracks, turn.cmds);
    var served := ServedTracks(drained, turn.now, turn.outputs);
    DrainedWait(w, turn, idleWait, late);
    assert Waiting(drained[k], w.deadline, turn.now, late);
    ServiceIsOnTime(drained[k], k, w.deadline, turn.now, turn.outputs, late);
    assert k in Erase(served) && Erase(served)[k] == served[k].conn;
  }

  lemma RemovedInTime(w: World, turn: Turn, idleWait: nat, late: nat, k: ConnectionKey)
    requires WorldOnTime(w, late) && Timely(w, turn, idleWait, late)
    requires var drained := DrainedTracks(w.tracks, turn.cmds); k in drained && drained[k].attempts != []
    ensures turn.now <= DrainedTracks(w.tracks, turn.cmds)[k].conn.TimeoutAt() + late
  {
    DrainedWait(w, turn, idleWait, late);
    assert Waiting(DrainedTracks(w.tracks, turn.cmds)[k], w.deadline, turn.now, late);
  }

  /** One turn keeps everything on time. */
  lemma TurnKeepsTime(w: World, turn: Turn, idleWait: nat, late: nat)
    requires WorldOnTime(w, late) && Timely(w, turn, idleWait, late)
    ensures WorldOnTime(AfterTurn(w, turn), late)
  {
    var drained := DrainedTracks(w.tracks, turn.cmds);
    var served := ServedTracks(drained, turn.now, turn.outputs);
    forall k | k in served ensures Asleep(served[k], turn.deadline, turn.now, late) {
      ServedSleeps(w, turn, idleWait, late, k);
    }
    DatagramsKeepAsleep(served, turn.datagrams, turn.deadline, turn.now, late);
    forall r | r in Removals(drained, turn.now) && r.served ensures r.timeoutAt <= r.at <= r.timeoutAt + late {
      RemovedInTime(w, turn, idleWait, late, r.key);
    }
  }

  // ---------------------------------------------------------------- whole runs

  ghost predicate TimelyRun(w: World, turns: seq<Turn>, idleWait: nat, late: nat)
    decreases |turns|
  {
    turns == [] || (Timely(w, turns[0], idleWait, late) && TimelyRun(AfterTurn(w, turns[0]), turns[1..], idleWait, late))
  }

  ghost function AfterTurns(w: World, turns: seq<Turn>): World
    decreases |turns|
  {
    if turns == [] then w else AfterTurns(AfterTurn(w, turns[0]), turns[1..])
  }

  lemma {:induction false} RunKeepsTime(w: World, turns: seq<Turn>, idleWait: nat, late: nat)
    requires WorldOnTime(w, late) && TimelyRun(w, turns, idleWait, late)
    ensures WorldOnTime(AfterTurns(w, turns), late)
    decreases |turns|
  {
    if turns != [] {
      TurnKeepsTime(w, turns[0], idleWait, late);
      RunKeepsTime(AfterTurn(w, turns[0]), turns[1..], idleWait, late);
    }
  }

  /** The thread when it starts: no connections. */
  function Started(now: int): World {
    World(map[], now, now, {})
  }

  /** Bounded liveness, up to a moment of the run. If every turn starts at most `late` < API
      after the deadline of the turn before, then in every run of the loop from an empty
      table: every connection in the table has attempted slot after slot without missing
      one, each from its second slot on within `late` of it; the thread sleeps past neither
      the next slot nor the timeout of any of them; and every timeout of a connection that
      was served before was acted on within `late`. */
  lemma NoSlotIsMissedAndTimeoutsAreActedOn(start: int, turns: seq<Turn>, idleWait: nat, late: nat)
    requires TimelyRun(Started(start), turns, idleWait, late)
    ensures var w := AfterTurns(Started(start), turns);
            && (forall k | k in w.tracks :: OnTime(w.tracks[k], late) && w.tracks[k].attempts != [])
            && (forall k | k in w.tracks ::
                  w.deadline <= w.tracks[k].conn.nextSend && w.deadline <= w.tracks[k].conn.TimeoutAt())
            && (forall r | r in w.removals && r.served :: r.timeoutAt <= r.at <= r.timeoutAt + late)
  {
    RunKeepsTime(Started(start), turns, idleWait, late);
    var w := AfterTurns(Started(start), turns);
    forall k | k in w.tracks
      ensures OnTime(w.tracks[k], late) && w.tracks[k].attempts != []
      ensures w.deadline <= w.tracks[k].conn.nextSend && w.deadline <= w.tracks[k].conn.TimeoutAt()
    {
      assert Asleep(w.tracks[k], w.deadline, w.clock, late);
    }
  }

  /** Nothing that was due when the turn was served is left undone. */
  predicate NothingDue(t: Track, now: int) {
    now < t.conn.nextSend && now < t.conn.TimeoutAt()
  }

  /** A connection no Remove was received for is served as it was, but for its output. */
  lemma {:induction false} DrainKeepsTrack(tr: Tracks, cmds: seq<Command>, k: ConnectionKey)
    requires k in tr && Remove(k) !in cmds
    ensures var d := DrainedTracks(tr, cmds);
            k in d && d[k] == tr[k].(conn := tr[k].conn.(output := d[k].conn.output, run := d[k].conn.run))
    decreases |cmds|
  {
    if cmds != [] && !cmds[0].Shutdown? {
      DrainKeepsTrack(CommandedTracks(tr, cmds[0]), cmds[1..], k);
    }
  }

  lemma {:induction false} DatagramsKeepAttempts(tr: Tracks, ds: seq<Datagram>)
    ensures var e := AfterDatagramsTracks(tr, ds);
            && e.Keys == tr.Keys
            && forall k | k in e :: e[k].attempts == tr[k].attempts && e[k].conn.nextSend == tr[k].conn.nextSend
    decreases |ds|
  {
    if ds != [] {
      DatagramsKeepAttempts(AfterDatagramTracks(tr, ds[0]), ds[1..]);
    }
  }

  lemma DatagramsKeepNothingDue(tr: Tracks, ds: seq<Datagram>, now: int, k: ConnectionKey)
    requires k in tr && NothingDue(tr[k], now) && tr[k].conn.lastReceive <= now
    requires forall i | 0 <= i < |ds| :: now <= ds[i].at
    requires forall i, j | 0 <= i < j < |ds| :: ds[i].at <= ds[j].at
    ensures k in AfterDatagramsTracks(tr, ds) && NothingDue(AfterDatagramsTracks(tr, ds)[k], now)
  {
    DatagramsKeepAttempts(tr, ds);
    EraseAllReceived(tr, ds);
    assert Erase(tr)[k] == tr[k].conn && Erase(AfterDatagramsTracks(tr, ds))[k] == AfterDatagramsTracks(tr, ds)[k].conn;
    ReceivingDefersDeadlines(Erase(tr), ds, k);
  }

  lemma TurnLeavesNothingDue(w: World, turn: Turn, idleWait: nat, late: nat, k: ConnectionKey)
    requires WorldOnTime(w, late) && Timely(w, turn, idleWait, late)
    requires k in AfterTurn(w, turn).tracks
    ensures NothingDue(AfterTurn(w, turn).tracks[k], turn.now)
  {
    var drained := DrainedTracks(w.tracks, turn.cmds);
    var served := ServedTracks(drained, turn.now, turn.outputs);
    DrainedWait(w, turn, idleWait, late);
    DatagramsKeepAttempts(served, turn.datagrams);
    assert Waiting(drained[k], w.deadline, turn.now, late);
    ServiceIsOnTime(drained[k], k, w.deadline, turn.now, turn.outputs, late);
    DatagramsKeepNothingDue(served, turn.datagrams, turn.now, k);
  }

  /** What one turn does with a connection that was in the table before it. */
  predicate ActedOn(t: Track, k: ConnectionKey, turn: Turn, after: World) {
    if t.conn.TimedOut(turn.now) then
      && k !in after.tracks
      && Removal(k, t.conn.TimeoutAt(), turn.now, true) in after.removals
    else
      && k in after.tracks
      && after.tracks[k].attempts ==
           if t.conn.SendDue(turn.now) then t.attempts + [Attempt(t.conn.nextSend, turn.now)] else t.attempts
  }

  lemma TurnActs(w: World, turn: Turn, idleWait: nat, late: nat, k: ConnectionKey)
    requires WorldOnTime(w, late) && Timely(w, turn, idleWait, late)
    requires k in w.tracks && Remove(k) !in turn.cmds
    ensures ActedOn(w.tracks[k], k, turn, AfterTurn(w, turn))
  {
    var drained := DrainedTracks(w.tracks, turn.cmds);
    var served := ServedTracks(drained, turn.now, turn.outputs);
    DrainKeepsTrack(w.tracks, turn.cmds, k);
    DatagramsKeepAttempts(served, turn.datagrams);
    assert Asleep(w.tracks[k], w.deadline, w.clock, late);
    if drained[k].conn.TimedOut(turn.now) {
      assert Removal(k, drained[k].conn.TimeoutAt(), turn.now, drained[k].attempts != []) in Removals(drained, turn.now);
    }
  }

  /** Bounded liveness, from one moment of the run to the next. Every further turn of such a
      run starts at most `late` after the next slot and after the timeout of every
      connection in the table; it removes those that timed out and attempts the slots that
      are due, so that after it nothing is left due that was due at its time. Only a Remove
      takes a connection out of this. */
  lemma EveryTurnActsOnWhatIsDue(start: int, turns: seq<Turn>, turn: Turn, idleWait: nat, late: nat)
    requires TimelyRun(Started(start), turns, idleWait, late)
    requires Timely(AfterTurns(Started(start), turns), turn, idleWait, late)
    ensures var w := AfterTurns(Started(start), turns);
            var after := AfterTurn(w, turn);
            && (forall k | k in w.tracks ::
                  turn.now <= w.tracks[k].conn.nextSend + late && turn.now <= w.tracks[k].conn.TimeoutAt() + late)
            && (forall k | k in w.tracks && Remove(k) !in turn.cmds :: ActedOn(w.tracks[k], k, turn, after))
            && (forall k | k in after.tracks :: NothingDue(after.tracks[k], turn.now))
  {
    RunKeepsTime(Started(start), turns, idleWait, late);
    var w := AfterTurns(Started(start), turns);
    var after := AfterTurn(w, turn);
    forall k | k in w.tracks
      ensures turn.now <= w.tracks[k].conn.nextSend + late && turn.now <= w.tracks[k].conn.TimeoutAt() + late
    {
      assert Asleep(w.tracks[k], w.deadline, w.clock, late);
    }
    forall k | k in w.tracks && Remove(k) !in turn.cmds ensures ActedOn(w.tracks[k], k, turn, after) {
      TurnActs(w, turn, idleWait, late, k);
    }
    forall k | k in after.tracks ensures NothingDue(after.tracks[k], turn.now) {
      TurnLeavesNothingDue(w, turn, idleWait, late, k);
    }
  }

  /** What being on time means for two consecutive attempts after the first: the slots are
      one interval apart and the attempts at most `late` off that. */
  lemma ConsecutiveAttempts(t: Track, late: nat, i: nat)
    requires OnTime(t, late) && 1 <= i && i + 1 < |t.attempts|
    ensures t.attempts[i + 1].slot == t.attempts[i].slot + t.conn.cfg.o2tApi
    ensures t.conn.cfg.o2tApi - late <= t.attempts[i + 1].at - t.attempts[i].at <= t.conn.cfg.o2tApi + late
  {
    assert t.attempts[..i + 1][|t.attempts[..i + 1]| - 1] == t.attempts[i];
  }

  // ---------------------------------------------------------------- timeouts

  /** The timeout counts from the last accepted datagram, or from creation if none was,
      and that is the latest of all these times. */
  ghost predicate Heard(t: Track, clock: int) {
    && t.conn.lastReceive == (if t.accepted == [] then t.created else t.accepted[|t.accepted| - 1])
    && t.created <= clock
    && (forall i | 0 <= i < |t.accepted| :: t.created <= t.accepted[i] <= t.conn.lastReceive <= clock)
  }

  ghost predicate AllHeard(tr: Tracks, clock: int) {
    forall k | k in tr :: Heard(tr[k], clock)
  }

  /** Clocks do not run backwards from one event to the next. */
  predicate Clocked(w: World, turn: Turn) {
    && w.clock <= turn.now
    && (forall cmd | cmd in turn.cmds && cmd.Add? :: cmd.created <= turn.now)
    && (forall i | 0 <= i < |turn.datagrams| :: turn.now <= turn.datagrams[i].at)
    && (forall i, j | 0 <= i < j < |turn.datagrams| :: turn.datagrams[i].at <= turn.datagrams[j].at)
  }

  ghost predicate ClockedRun(w: World, turns: seq<Turn>)
    decreases |turns|
  {
    turns == [] || (Clocked(w, turns[0]) && ClockedRun(AfterTurn(w, turns[0]), turns[1..]))
  }

  lemma {:induction false} DrainKeepsHeard(tr: Tracks, cmds: seq<Command>, now: int)
    requires AllHeard(tr, now)
    requires forall cmd | cmd in cmds && cmd.Add? :: cmd.created <= now
    ensures AllHeard(DrainedTracks(tr, cmds), now)
    decreases |cmds|
  {
    if cmds != [] && !cmds[0].Shutdown? {
      var tr' := CommandedTracks(tr, cmds[0]);
      assert cmds[0] in cmds;
      forall k | k in tr' ensures Heard(tr'[k], now) {
        assert k in tr ==> Heard(tr[k], now);
      }
      DrainKeepsHeard(tr', cmds[1..], now);
    }
  }

  lemma {:induction false} DatagramsKeepHeard(tr: Tracks, ds: seq<Datagram>, clock: int)
    requires AllHeard(tr, clock)
    requires forall i | 0 <= i < |ds| :: clock <= ds[i].at
    requires forall i, j | 0 <= i < j < |ds| :: ds[i].at <= ds[j].at
    ensures AllHeard(AfterDatagramsTracks(tr, ds), if ds == [] then clock else ds[|ds| - 1].at)
    decreases |ds|
  {
    if ds != [] {
      var tr' := AfterDatagramTracks(tr, ds[0]);
      forall k | k in tr' ensures Heard(tr'[k], ds[0].at) {
        assert Heard(tr[k], clock);
      }
      DatagramsKeepHeard(tr', ds[1..], ds[0].at);
      assert |ds| > 1 ==> ds[1..][|ds| - 2] == ds[|ds| - 1];
    }
  }

  lemma TurnKeepsHeard(w: World, turn: Turn)
    requires AllHeard(w.tracks, w.clock) && Clocked(w, turn)
    ensures AllHeard(DrainedTracks(w.tracks, turn.cmds), turn.now)
    ensures AllHeard(AfterTurn(w, turn).tracks, AfterTurn(w, turn).clock)
  {
    forall k | k in w.tracks ensures Heard(w.tracks[k], turn.now) {
      assert Heard(w.tracks[k], w.clock);
    }
    DrainKeepsHeard(w.tracks, turn.cmds, turn.now);
    var drained := DrainedTracks(w.tracks, turn.cmds);
    var served := ServedTracks(drained, turn.now, turn.outputs);
    forall k | k in served ensures Heard(served[k], turn.now) {
      assert Heard(drained[k], turn.now);
    }
    DatagramsKeepHeard(served, turn.datagrams, turn.now);
  }

  lemma {:induction false} RunKeepsHeard(w: World, turns: seq<Turn>)
    requires AllHeard(w.tracks, w.clock) && ClockedRun(w, turns)
    ensures AllHeard(AfterTurns(w, turns).tracks, AfterTurns(w, turns).clock)
    decreases |turns|
  {
    if turns != [] {
      TurnKeepsHeard(w, turns[0]);
      RunKeepsHeard(AfterTurn(w, turns[0]), turns[1..]);
    }
  }

  /** In every run, a service at `now` removes a connection if and only if the timeout has
      passed since its creation and since every datagram it ever accepted. */
  lemma RemovedIffSilent(start: int, turns: seq<Turn>, turn: Turn, k: ConnectionKey)
    requires ClockedRun(Started(start), turns)
    requires Clocked(AfterTurns(Started(start), turns), turn)
    requires k in DrainedTracks(AfterTurns(Started(start), turns).tracks, turn.cmds)
    ensures var drained := DrainedTracks(AfterTurns(Started(start), turns).tracks, turn.cmds);
            var t := drained[k];
            k !in ServedTracks(drained, turn.now, turn.outputs) <==>
              && turn.now >= t.created + t.conn.cfg.timeout
              && forall i | 0 <= i < |t.accepted| :: turn.now >= t.accepted[i] + t.conn.cfg.timeout
  {
    var w := AfterTurns(Started(start), turns);
    RunKeepsHeard(Started(start), turns);
    TurnKeepsHeard(w, turn);
    assert Heard(DrainedTracks(w.tracks, turn.cmds)[k], turn.now);
  }

  // ---------------------------------------------------------------- the rate of sends

  function Times(attempts: seq<Attempt>): seq<int> {
    if attempts == [] then [] else [attempts[0].at] + Times(attempts[1..])
  }

  lemma {:induction false} TimesSnoc(attempts: seq<Attempt>, a: Attempt)
    ensures Times(attempts + [a]) == Times(attempts) + [a.at]
  {
    if attempts != [] {
      assert (attempts + [a])[1..] == attempts[1..] + [a];
      TimesSnoc(attempts[1..], a);
    }
  }

  /** The attempts so far are services of a schedule that started at creation. */
  predicate Paced(t: Track) {
    var times := Times(t.attempts);
    DueRun(t.created, t.conn.cfg.o2tApi, times) && t.conn.nextSend == SlotOf(t.created, t.conn.cfg.o2tApi, times, |times|)
  }

  ghost predicate AllPaced(tr: Tracks) {
    forall k | k in tr :: Paced(tr[k])
  }

  lemma {:induction false} DueRunSnoc(next: int, api: nat, times: seq<int>, now: int)
    requires DueRun(next, api, times)
    requires var slot := SlotOf(next, api, times, |times|); slot <= now < slot + api * U32
    ensures DueRun(next, api, times + [now])
    ensures SlotOf(next, api, times + [now], |times| + 1) == NextSend(SlotOf(next, api, times, |times|), api, now)
    decreases |times|
  {
    var more := times + [now];
    if times == [] {
      assert more == [now] && more[1..] == [];
    } else {
      assert more[0] == times[0] && more[1..] == times[1..] + [now];
      DueRunSnoc(NextSend(next, api, times[0]), api, times[1..], now);
    }
  }

  lemma ServeKeepsPace(t: Track, k: ConnectionKey, now: int, outputs: map<ConnectionKey, bytes>)
    requires Paced(t) && Keeps(t.conn, now)
    ensures Paced(ServedTrack(t, k, now, outputs))
  {
    if t.conn.SendDue(now) {
      TimesSnoc(t.attempts, Attempt(t.conn.nextSend, now));
      DueRunSnoc(t.created, t.conn.cfg.o2tApi, Times(t.attempts), now);
    }
  }

  lemma {:induction false} DrainKeepsPace(tr: Tracks, cmds: seq<Command>)
    requires AllPaced(tr)
    ensures AllPaced(DrainedTracks(tr, cmds))
    decreases |cmds|
  {
    if cmds != [] && !cmds[0].Shutdown? {
      DrainKeepsPace(CommandedTracks(tr, cmds[0]), cmds[1..]);
    }
  }

  lemma {:induction false} DatagramsKeepPace(tr: Tracks, ds: seq<Datagram>)
    requires AllPaced(tr)
    ensures AllPaced(AfterDatagramsTracks(tr, ds)) && AfterDatagramsTracks(tr, ds).Keys == tr.Keys
    ensures forall k | k in tr :: AfterDatagramsTracks(tr, ds)[k].conn.cfg == tr[k].conn.cfg
    decreases |ds|
  {
    if ds != [] {
      DatagramsKeepPace(AfterDatagramTracks(tr, ds[0]), ds[1..]);
    }
  }

  /** Intervals are positive, and fewer than 2^32 slots were missed. */
  ghost predicate AllKeep(tr: Tracks, now: int) {
    forall k | k in tr :: Keeps(tr[k].conn, now)
  }

  /** Every service finds it so. Nothing is said about when the thread wakes. */
  ghost predicate KeptRun(w: World, turns: seq<Turn>)
    decreases |turns|
  {
    turns == [] || (AllKeep(DrainedTracks(w.tracks, turns[0].cmds), turns[0].now) && KeptRun(AfterTurn(w, turns[0]), turns[1..]))
  }

  ghost predicate AllPositive(tr: Tracks) {
    forall k | k in tr :: tr[k].conn.cfg.o2tApi > 0
  }

  lemma ServiceKeepsPace(drained: Tracks, now: int, outputs: map<ConnectionKey, bytes>)
    requires AllPaced(drained) && AllKeep(drained, now)
    ensures AllPaced(ServedTracks(drained, now, outputs)) && AllPositive(ServedTracks(drained, now, outputs))
  {
    var served := ServedTracks(drained, now, outputs);
    forall k | k in served ensures Paced(served[k]) && served[k].conn.cfg.o2tApi > 0 {
      assert Keeps(drained[k].conn, now);
      ServeKeepsPace(drained[k], k, now, outputs);
    }
  }

  lemma TurnKeepsPace(w: World, turn: Turn)
    requires AllPaced(w.tracks) && AllKeep(DrainedTracks(w.tracks, turn.cmds), turn.now)
    ensures AllPaced(AfterTurn(w, turn).tracks) && AllPositive(AfterTurn(w, turn).tracks)
  {
    var drained := DrainedTracks(w.tracks, turn.cmds);
    DrainKeepsPace(w.tracks, turn.cmds);
    ServiceKeepsPace(drained, turn.now, turn.outputs);
    DatagramsKeepPace(ServedTracks(drained, turn.now, turn.outputs), turn.datagrams);
  }

  lemma {:induction false} RunKeepsPace(w: World, turns: seq<Turn>)
    requires AllPaced(w.tracks) && AllPositive(w.tracks) && KeptRun(w, turns)
    ensures AllPaced(AfterTurns(w, turns).tracks) && AllPositive(AfterTurns(w, turns).tracks)
    decreases |turns|
  {
    if turns != [] {
      TurnKeepsPace(w, turns[0]);
      RunKeepsPace(AfterTurn(w, turns[0]), turns[1..]);
    }
  }

  /** The rate bound over whole runs of the loop, however late the thread wakes: in any
      window of width W a connection attempts at most ceil(W / API) + 1 sends. */
  lemma WindowHoldsFewAttempts(start: int, turns: seq<Turn>, k: ConnectionKey, from: int, width: nat)
    requires KeptRun(Started(start), turns) && k in AfterTurns(Started(start), turns).tracks
    ensures var t := AfterTurns(Started(start), turns).tracks[k];
            && t.conn.cfg.o2tApi > 0
            && SendsIn(Times(t.attempts), from, width) <= CeilDiv(width, t.conn.cfg.o2tApi) + 1
  {
    RunKeepsPace(Started(start), turns);
    var t := AfterTurns(Started(start), turns).tracks[k];
    assert Paced(t);
    WindowHoldsFewSends(t.created, t.conn.cfg.o2tApi, Times(t.attempts), from, width);
  }

  // ---------------------------------------------------------------- the packets on the wire

  /** The counters are the number of packets put on the wire, modulo their widths. */
  predicate CountsPackets(t: Track) {
    && t.conn.sequenceNumber == t.packets % U32
    && t.conn.sequenceCount == if t.conn.cfg.hasSequenceCount then t.packets % 0x1_0000 else 0
  }

  ghost predicate AllCountPackets(tr: Tracks) {
    forall k | k in tr :: CountsPackets(tr[k])
  }

  lemma ServeKeepsNumbers(t: Track, k: ConnectionKey, now: int, outputs: map<ConnectionKey, bytes>)
    requires CountsPackets(t)
    ensures CountsPackets(ServedTrack(t, k, now, outputs))
  {
    OneMore(t.packets, U32);
    OneMore(t.packets, 0x1_0000);
  }

  lemma OneMore(x: nat, m: nat)
    requires m == U32 || m == 0x1_0000
    ensures (x % m + 1) % m == (x + 1) % m
  {
  }

  lemma {:induction false} DrainKeepsNumbers(tr: Tracks, cmds: seq<Command>)
    requires AllCountPackets(tr)
    ensures AllCountPackets(DrainedTracks(tr, cmds))
    decreases |cmds|
  {
    if cmds != [] && !cmds[0].Shutdown? {
      DrainKeepsNumbers(CommandedTracks(tr, cmds[0]), cmds[1..]);
    }
  }

  lemma {:induction false} DatagramsKeepNumbers(tr: Tracks, ds: seq<Datagram>)
    requires AllCountPackets(tr)
    ensures AllCountPackets(AfterDatagramsTracks(tr, ds))
    decreases |ds|
  {
    if ds != [] {
      DatagramsKeepNumbers(AfterDatagramTracks(tr, ds[0]), ds[1..]);
    }
  }

  lemma {:induction false} RunKeepsNumbers(w: World, turns: seq<Turn>)
    requires AllCountPackets(w.tracks)
    ensures AllCountPackets(AfterTurns(w, turns).tracks)
    decreases |turns|
  {
    if turns != [] {
      var drained := DrainedTracks(w.tracks, turns[0].cmds);
      var served := ServedTracks(drained, turns[0].now, turns[0].outputs);
      DrainKeepsNumbers(w.tracks, turns[0].cmds);
      forall k | k in served ensures CountsPackets(served[k]) {
        ServeKeepsNumbers(drained[k], k, turns[0].now, turns[0].outputs);
      }
      DatagramsKeepNumbers(served, turns[0].datagrams);
      RunKeepsNumbers(AfterTurn(w, turns[0]), turns[1..]);
    }
  }

  /** In any run of the loop, the packet a turn puts on the wire for a connection is its n-th
      since it was created, where n counts its packets: a receiver with the mirrored settings
      recovers n in the sequence number and count, the run bit and the output, if and only if
      the payload fits 16 bits. */
  lemma SentPacketIsRecovered(start: int, turns: seq<Turn>, turn: Turn, k: ConnectionKey, receiver: Config)
    requires Sends(Erase(DrainedTracks(AfterTurns(Started(start), turns).tracks, turn.cmds)), k, turn.now, turn.outputs)
    requires var before := DrainedTracks(AfterTurns(Started(start), turns).tracks, turn.cmds)[k];
             Mirrors(receiver, before.conn.cfg)
    ensures var drained := DrainedTracks(AfterTurns(Started(start), turns).tracks, turn.cmds);
            k in drained && k in ServedTracks(drained, turn.now, turn.outputs)
    ensures var drained := DrainedTracks(AfterTurns(Started(start), turns).tracks, turn.cmds);
            var t := ServedTracks(drained, turn.now, turn.outputs)[k];
            var payload := Payload(t.conn.cfg, t.conn.sequenceCount, t.conn.run, t.conn.output);
            var packet := Cpf.ConnectedPacket(t.conn.cfg.o2tId, t.packets % U32, payload);
            && t.packets == drained[k].packets + 1
            && (Cpf.ConnectedDecoded(LastPacket(t.conn)) == Ok(packet) <==> |payload| < 0x1_0000)
            && Input(receiver, packet)
               == Some(InputData(t.packets % U32, if t.conn.cfg.hasSequenceCount then t.packets % 0x1_0000 else 0,
                                 if t.conn.cfg.o2tHeader && t.conn.run then 1 else 0, t.conn.output))
  {
    var w := AfterTurns(Started(start), turns);
    var drained := DrainedTracks(w.tracks, turn.cmds);
    var t := ServedTracks(drained, turn.now, turn.outputs)[k];
    RunKeepsNumbers(Started(start), turns);
    DrainKeepsNumbers(w.tracks, turn.cmds);
    ServeKeepsNumbers(drained[k], k, turn.now, turn.outputs);
    Cpf.ConnectedRoundTrip(t.conn.cfg.o2tId, t.conn.sequenceNumber,
                           Payload(t.conn.cfg, t.conn.sequenceCount, t.conn.run, t.conn.output));
    PayloadReadsBack(t.conn.cfg, receiver, t.conn.sequenceNumber, t.conn.sequenceCount, t.conn.run, t.conn.output);
  }
}
