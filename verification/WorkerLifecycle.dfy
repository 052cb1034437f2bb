/**
 The loop of the I/O thread seen as steps of the lifecycle.

 In any interleaving of the callers' steps with those of the worker, the table of connection
 objects the loop works on has an entry exactly where the lifecycle has one, with the settings
 of the connection that is there; `cfgs` says which settings each connection was opened with.
 So what holds of the connections in every interleaving holds of the objects.
 */
module WorkerLifecycle {
  import opened Wire
  import opened ConnectionKeys
  import opened Connections
  import WT = WorkerTable
  import L = Lifecycle

  type Settings = map<L.ConnId, Config>
  type Owners = map<ConnectionKey, L.ConnId>

  // ---------------------------------------------------------------- tables

  /** Whose entry sits under each key. */
  predicate SameEntries(owners: Owners, t: WT.Table, cfgs: Settings) {
    && owners.Keys == t.Keys
    && forall k | k in t :: owners[k] in cfgs && t[k].cfg == cfgs[owners[k]]
  }

  /** What the worker does to its table, one atomic action at a time. */
  datatype Move = Added(c: L.ConnId, key: ConnectionKey) | Removed(key: ConnectionKey) | Expired(c: L.ConnId, key: ConnectionKey)

  function Moved(owners: Owners, m: Move): Owners {
    match m
    case Added(c, key) => if key in owners then owners else owners[key := c]
    case Removed(key) => owners - {key}
    case Expired(_, key) => owners - {key}
  }

  function AllMoved(owners: Owners, moves: seq<Move>): Owners
    decreases |moves|
  {
    if moves == [] then owners else AllMoved(Moved(owners, moves[0]), moves[1..])
  }

  function MoveOf(s: L.State, step: L.Step): seq<Move>
    requires L.Enabled(s, step)
  {
    match step
    case DrainAdd(c) => [Added(c, s.conns[c].key)]
    case DrainRemove(_) => [Removed(s.queue[0].key)]
    case ExpireEntry(c) => [Expired(c, s.conns[c].key)]
    case _ => []
  }

  /** The moves in a run, whatever steps of callers are between them. */
  function Moves(s: L.State, steps: seq<L.Step>): seq<Move>
    requires L.CanRun(s, steps)
    decreases |steps|
  {
    if steps == [] then [] else MoveOf(s, steps[0]) + Moves(L.Apply(s, steps[0]), steps[1..])
  }

  lemma {:induction false} AllMovedConcat(owners: Owners, a: seq<Move>, b: seq<Move>)
    ensures AllMoved(owners, a + b) == AllMoved(AllMoved(owners, a), b)
    decreases |a|
  {
    if a == [] {
      assert a + b == b;
    } else {
      assert (a + b)[0] == a[0] && (a + b)[1..] == a[1..] + b;
      AllMovedConcat(Moved(owners, a[0]), a[1..], b);
    }
  }

  lemma TableMoves(s: L.State, step: L.Step)
    requires L.Enabled(s, step)
    ensures L.Apply(s, step).table == AllMoved(s.table, MoveOf(s, step))
  {
    if MoveOf(s, step) != [] {
      assert AllMoved(s.table, MoveOf(s, step)) == AllMoved(Moved(s.table, MoveOf(s, step)[0]), []);
    }
  }

  /** The table of the lifecycle is what the moves make of it. */
  lemma {:induction false} RunMovesTable(s: L.State, steps: seq<L.Step>)
    requires L.CanRun(s, steps)
    ensures L.Final(s, steps).table == AllMoved(s.table, Moves(s, steps))
    decreases |steps|
  {
    if steps != [] {
      TableMoves(s, steps[0]);
      RunMovesTable(L.Apply(s, steps[0]), steps[1..]);
      AllMovedConcat(s.table, MoveOf(s, steps[0]), Moves(L.Apply(s, steps[0]), steps[1..]));
    }
  }

  lemma {:induction false} MovesConcat(s: L.State, a: seq<L.Step>, b: seq<L.Step>)
    requires L.CanRun(s, a) && L.CanRun(L.Final(s, a), b) && L.CanRun(s, a + b)
    ensures Moves(s, a + b) == Moves(s, a) + Moves(L.Final(s, a), b)
    decreases |a|
  {
    if a == [] {
      assert a + b == b;
    } else {
      assert (a + b)[0] == a[0] && (a + b)[1..] == a[1..] + b;
      MovesConcat(L.Apply(s, a[0]), a[1..], b);
      JoinMoves(MoveOf(s, a[0]), Moves(L.Apply(s, a[0]), a[1..]), Moves(L.Final(s, a), b));
    }
  }

  lemma JoinMoves(a: seq<Move>, b: seq<Move>, c: seq<Move>)
    ensures a + b + c == a + (b + c)
  {
  }

  // ---------------------------------------------------------------- a turn as moves

  /** The moves that receive these commands; SetOutput and SetRun move nothing, and a
      shutdown ends the loop. */
  predicate Receives(moves: seq<Move>, cmds: seq<WT.Command>, cfgs: Settings)
    decreases |cmds|
  {
    if cmds == [] then moves == []
    else
      match cmds[0]
      case Add(cfg, _) =>
        && moves != [] && moves[0].Added? && moves[0].key == cfg.Key()
        && moves[0].c in cfgs && cfgs[moves[0].c] == cfg && Receives(moves[1..], cmds[1..], cfgs)
      case Remove(key) => moves != [] && moves[0] == Removed(key) && Receives(moves[1..], cmds[1..], cfgs)
      case Shutdown => false
      case _ => Receives(moves, cmds[1..], cfgs)
  }

  lemma CommandMoves(owners: Owners, t: WT.Table, m: Move, cmd: WT.Command, cfgs: Settings)
    requires SameEntries(owners, t, cfgs)
    requires match cmd
             case Add(cfg, _) => m.Added? && m.key == cfg.Key() && m.c in cfgs && cfgs[m.c] == cfg
             case Remove(key) => m == Removed(key)
             case _ => false
    ensures SameEntries(Moved(owners, m), WT.Commanded(t, cmd), cfgs)
  {
  }

  lemma {:induction false} DrainMoves(owners: Owners, t: WT.Table, moves: seq<Move>, cmds: seq<WT.Command>, cfgs: Settings)
    requires SameEntries(owners, t, cfgs) && Receives(moves, cmds, cfgs)
    ensures SameEntries(AllMoved(owners, moves), WT.Drained(t, cmds).0, cfgs)
    decreases |cmds|
  {
    if cmds != [] {
      if cmds[0].Add? || cmds[0].Remove? {
        CommandMoves(owners, t, moves[0], cmds[0], cfgs);
        DrainMoves(Moved(owners, moves[0]), WT.Commanded(t, cmds[0]), moves[1..], cmds[1..], cfgs);
      } else {
        DrainMoves(owners, WT.Commanded(t, cmds[0]), moves, cmds[1..], cfgs);
      }
    }
  }

  function TimedOutKeys(t: WT.Table, now: int): set<ConnectionKey> {
    set k | k in t && t[k].TimedOut(now)
  }

  /** Moves that take out the entries of just these keys, in some order. */
  predicate Expires(moves: seq<Move>, keys: set<ConnectionKey>) {
    && (forall i | 0 <= i < |moves| :: moves[i].Expired? && moves[i].key in keys)
    && (forall k | k in keys :: exists i :: 0 <= i < |moves| && moves[i].key == k)
  }

  lemma {:induction false} ExpireMoves(owners: Owners, moves: seq<Move>, k: ConnectionKey)
    requires forall i | 0 <= i < |moves| :: moves[i].Expired?
    ensures k in AllMoved(owners, moves) <==> k in owners && forall i | 0 <= i < |moves| :: moves[i].key != k
    ensures k in AllMoved(owners, moves) ==> AllMoved(owners, moves)[k] == owners[k]
    decreases |moves|
  {
    if moves != [] {
      ExpireMoves(Moved(owners, moves[0]), moves[1..], k);
      if k in owners && moves[0].key != k && forall i | 0 <= i < |moves[1..]| :: moves[1..][i].key != k {
        forall i | 0 <= i < |moves| ensures moves[i].key != k {
          assert i > 0 ==> moves[i] == moves[1..][i - 1];
        }
      }
    }
  }

  lemma ExpireAll(owners: Owners, moves: seq<Move>, keys: set<ConnectionKey>)
    requires Expires(moves, keys)
    ensures AllMoved(owners, moves) == owners - keys
  {
    forall k ensures k in AllMoved(owners, moves) <==> k in owners - keys
      ensures k in AllMoved(owners, moves) ==> AllMoved(owners, moves)[k] == owners[k]
    {
      ExpireMoves(owners, moves, k);
    }
  }

  lemma ServeKeepsEntries(owners: Owners, t: WT.Table, now: int, outputs: map<ConnectionKey, bytes>, cfgs: Settings)
    requires SameEntries(owners, t, cfgs)
    ensures SameEntries(owners - TimedOutKeys(t, now), WT.Served(t, now, outputs), cfgs)
  {
  }

  lemma ReceiveKeepsEntries(owners: Owners, t: WT.Table, ds: seq<WT.Datagram>, cfgs: Settings)
    requires SameEntries(owners, t, cfgs)
    ensures SameEntries(owners, WT.AfterDatagrams(t, ds), cfgs)
  {
    DatagramsKeepKeys(t, ds);
    forall k | k in t ensures WT.AfterDatagrams(t, ds)[k].cfg == t[k].cfg {
      WT.OnlyAcceptedDatagramsCount(t, ds, k);
    }
  }

  lemma {:induction false} DatagramsKeepKeys(t: WT.Table, ds: seq<WT.Datagram>)
    ensures WT.AfterDatagrams(t, ds).Keys == t.Keys
    decreases |ds|
  {
    if ds != [] {
      DatagramsKeepKeys(WT.AfterDatagram(t, ds[0]), ds[1..]);
    }
  }

  /** One turn of the loop, with the steps of a run that the worker and the callers take
      from the turn before to the end of its service: the moves that receive commands, those
      that take out entries, and whatever is between them. */
  datatype Round = Round(
    steps: seq<L.Step>,
    received: seq<Move>,
    expired: seq<Move>,
    cmds: seq<WT.Command>,
    now: int,
    outputs: map<ConnectionKey, bytes>,
    datagrams: seq<WT.Datagram>)

  /** What the turn leaves in the table of the loop. */
  function TableAfter(t: WT.Table, r: Round): WT.Table {
    WT.AfterDatagrams(WT.Served(WT.Drained(t, r.cmds).0, r.now, r.outputs), r.datagrams)
  }

  /** The run does what the turn does to the table: it receives the commands in order, then
      takes out the entries that timed out, and ends with the worker at rest. */
  predicate IsRound(s: L.State, t: WT.Table, r: Round, cfgs: Settings) {
    && L.CanRun(s, r.steps)
    && Moves(s, r.steps) == r.received + r.expired
    && Receives(r.received, r.cmds, cfgs)
    && Expires(r.expired, TimedOutKeys(WT.Drained(t, r.cmds).0, r.now))
    && L.Final(s, r.steps).running && L.Final(s, r.steps).worker == L.Idle
  }

  /** The worker is at rest, and the table of the loop has the entries of the lifecycle. */
  ghost predicate Matches(s: L.State, t: WT.Table, cfgs: Settings) {
    s.running && s.worker == L.Idle && L.Inv(s) && SameEntries(s.table, t, cfgs)
  }

  /** Whatever the callers do during a turn, the table the loop ends it with matches. */
  lemma RoundKeepsMatch(s: L.State, t: WT.Table, r: Round, cfgs: Settings)
    requires Matches(s, t, cfgs) && IsRound(s, t, r, cfgs)
    ensures Matches(L.Final(s, r.steps), TableAfter(t, r), cfgs)
  {
    var drained := WT.Drained(t, r.cmds).0;
    var owners := AllMoved(s.table, r.received);
    L.RunKeepsInv(s, r.steps);
    RunMovesTable(s, r.steps);
    AllMovedConcat(s.table, r.received, r.expired);
    DrainMoves(s.table, t, r.received, r.cmds, cfgs);
    ExpireAll(owners, r.expired, TimedOutKeys(drained, r.now));
    ServeKeepsEntries(owners, drained, r.now, r.outputs, cfgs);
    ReceiveKeepsEntries(owners - TimedOutKeys(drained, r.now), WT.Served(drained, r.now, r.outputs), r.datagrams, cfgs);
  }

  // ---------------------------------------------------------------- on_close in a turn

  /** An entry that is taken out is the one that was there. */
  lemma {:induction false} ExpiredWasThere(s: L.State, steps: seq<L.Step>, i: nat)
    requires L.CanRun(s, steps) && i < |Moves(s, steps)| && Moves(s, steps)[i].Expired?
    ensures var m := Moves(s, steps)[i]; var owners := AllMoved(s.table, Moves(s, steps)[..i]);
            m.key in owners && owners[m.key] == m.c && L.ExpireEntry(m.c) in steps
    decreases |steps|
  {
    var first, rest := MoveOf(s, steps[0]), Moves(L.Apply(s, steps[0]), steps[1..]);
    if i < |first| {
      assert Moves(s, steps)[..i] == [];
    } else {
      ExpiredWasThere(L.Apply(s, steps[0]), steps[1..], i - |first|);
      TableMoves(s, steps[0]);
      AllMovedConcat(s.table, first, rest[..i - |first|]);
      assert Moves(s, steps)[..i] == first + rest[..i - |first|];
    }
  }

  lemma {:induction false} ExpiryIsAMove(s: L.State, steps: seq<L.Step>, c: L.ConnId)
    requires L.CanRun(s, steps) && L.ExpireEntry(c) in steps
    ensures exists i :: 0 <= i < |Moves(s, steps)| && Moves(s, steps)[i].Expired? && Moves(s, steps)[i].c == c
    decreases |steps|
  {
    var first, rest := MoveOf(s, steps[0]), Moves(L.Apply(s, steps[0]), steps[1..]);
    if steps[0] == L.ExpireEntry(c) {
      assert Moves(s, steps)[0] == first[0];
    } else {
      assert L.ExpireEntry(c) in steps[1..];
      ExpiryIsAMove(L.Apply(s, steps[0]), steps[1..], c);
      var i :| 0 <= i < |rest| && rest[i].Expired? && rest[i].c == c;
      assert Moves(s, steps)[|first| + i] == rest[i];
    }
  }

  /** When the commands were received, the table had an entry of the connection, and it had
      timed out. */
  predicate FoundTimedOut(s: L.State, t: WT.Table, r: Round, c: L.ConnId) {
    exists k :: k in TimedOutKeys(WT.Drained(t, r.cmds).0, r.now) && IsOwner(AllMoved(s.table, r.received), k, c)
  }

  predicate IsOwner(owners: Owners, k: ConnectionKey, c: L.ConnId) {
    k in owners && owners[k] == c
  }

  lemma ExpiredOwns(s: L.State, t: WT.Table, r: Round, cfgs: Settings, j: nat)
    requires IsRound(s, t, r, cfgs) && j < |r.expired|
    ensures IsOwner(AllMoved(s.table, r.received), r.expired[j].key, r.expired[j].c)
    ensures L.ExpireEntry(r.expired[j].c) in r.steps
  {
    var owners, n := AllMoved(s.table, r.received), |r.received|;
    assert Moves(s, r.steps)[n + j] == r.expired[j];
    assert Moves(s, r.steps)[..n + j] == r.received + r.expired[..j];
    ExpiredWasThere(s, r.steps, n + j);
    AllMovedConcat(s.table, r.received, r.expired[..j]);
    ExpireMoves(owners, r.expired[..j], r.expired[j].key);
  }

  /** A round takes out the entry of a connection exactly if that entry timed out. */
  lemma RoundExpiresTheTimedOut(s: L.State, t: WT.Table, r: Round, cfgs: Settings, c: L.ConnId)
    requires Matches(s, t, cfgs) && IsRound(s, t, r, cfgs)
    ensures L.ExpireEntry(c) in r.steps <==> FoundTimedOut(s, t, r, c)
  {
    var n := |r.received|;
    if L.ExpireEntry(c) in r.steps {
      ExpiryIsAMove(s, r.steps, c);
      var i :| 0 <= i < |Moves(s, r.steps)| && Moves(s, r.steps)[i].Expired? && Moves(s, r.steps)[i].c == c;
      if i < n {
        ReceivedDoNotExpire(r.received, r.cmds, cfgs, i);
      }
      assert r.expired[i - n].c == c;
      ExpiredOwns(s, t, r, cfgs, i - n);
    }
    if k :| k in TimedOutKeys(WT.Drained(t, r.cmds).0, r.now) && IsOwner(AllMoved(s.table, r.received), k, c) {
      var j :| 0 <= j < |r.expired| && r.expired[j].key == k;
      ExpiredOwns(s, t, r, cfgs, j);
    }
  }

  lemma {:induction false} ReceivedDoNotExpire(moves: seq<Move>, cmds: seq<WT.Command>, cfgs: Settings, i: nat)
    requires Receives(moves, cmds, cfgs) && i < |moves|
    ensures !moves[i].Expired?
    decreases |cmds|
  {
    if cmds[0].Add? || cmds[0].Remove? {
      if i > 0 {
        ReceivedDoNotExpire(moves[1..], cmds[1..], cfgs, i - 1);
      }
    } else {
      ReceivedDoNotExpire(moves, cmds[1..], cfgs, i);
    }
  }

  /** Between two states with the worker at rest, on_close runs for exactly the connections
      that were found timed out. */
  lemma OnCloseBetweenRests(s: L.State, steps: seq<L.Step>, c: L.ConnId)
    requires L.Inv(s) && s.worker == L.Idle && L.CanRun(s, steps) && L.Final(s, steps).worker == L.Idle
    ensures multiset(steps)[L.RunOnClose(c)] == if L.ExpireEntry(c) in steps then 1 else 0
  {
    L.RunKeepsInv(s, steps);
    L.HistoryOfRun(s, steps, c);
    assert L.ConnInv(s, c) && L.ConnInv(L.Final(s, steps), c);
    if c in s.conns && s.conns[c].expired && L.ExpireEntry(c) in steps {
      ExpiresOnce(s, steps, c);
    }
    if c !in L.Final(s, steps).conns && L.ExpireEntry(c) in steps {
      ExpiredIsKnown(s, steps, c);
    }
  }

  lemma {:induction false} ExpiresOnce(s: L.State, steps: seq<L.Step>, c: L.ConnId)
    requires L.Inv(s) && L.CanRun(s, steps) && c in s.conns && s.conns[c].expired
    ensures L.ExpireEntry(c) !in steps
    decreases |steps|
  {
    if steps != [] {
      assert L.ConnInv(s, c);
      L.StepKeepsInv(s, steps[0]);
      L.HistoryOfStep(s, steps[0], c);
      ExpiresOnce(L.Apply(s, steps[0]), steps[1..], c);
    }
  }

  lemma {:induction false} ExpiredIsKnown(s: L.State, steps: seq<L.Step>, c: L.ConnId)
    requires L.CanRun(s, steps) && (c in s.conns || L.ExpireEntry(c) in steps)
    ensures c in L.Final(s, steps).conns
    decreases |steps|
  {
    if steps != [] {
      ExpiredIsKnown(L.Apply(s, steps[0]), steps[1..], c);
    }
  }

  /** A turn runs on_close once for each connection whose entry it finds timed out, and for
      no other. */
  lemma RoundClosesTheTimedOut(s: L.State, t: WT.Table, r: Round, cfgs: Settings, c: L.ConnId)
    requires Matches(s, t, cfgs) && IsRound(s, t, r, cfgs)
    ensures multiset(r.steps)[L.RunOnClose(c)] == if FoundTimedOut(s, t, r, c) then 1 else 0
  {
    OnCloseBetweenRests(s, r.steps, c);
    RoundExpiresTheTimedOut(s, t, r, cfgs, c);
  }

  // ---------------------------------------------------------------- the whole loop

  ghost predicate AreRounds(s: L.State, t: WT.Table, rounds: seq<Round>, cfgs: Settings)
    decreases |rounds|
  {
    rounds == [] ||
    (IsRound(s, t, rounds[0], cfgs) && AreRounds(L.Final(s, rounds[0].steps), TableAfter(t, rounds[0]), rounds[1..], cfgs))
  }

  /** The one run that all rounds are parts of. */
  function AllSteps(rounds: seq<Round>): seq<L.Step> {
    if rounds == [] then [] else rounds[0].steps + AllSteps(rounds[1..])
  }

  function TableAfterAll(t: WT.Table, rounds: seq<Round>): WT.Table
    decreases |rounds|
  {
    if rounds == [] then t else TableAfterAll(TableAfter(t, rounds[0]), rounds[1..])
  }

  lemma {:induction false} RoundsKeepMatch(s: L.State, t: WT.Table, rounds: seq<Round>, cfgs: Settings)
    requires Matches(s, t, cfgs) && AreRounds(s, t, rounds, cfgs)
    ensures L.CanRun(s, AllSteps(rounds))
    ensures Matches(L.Final(s, AllSteps(rounds)), TableAfterAll(t, rounds), cfgs)
    decreases |rounds|
  {
    if rounds != [] {
      var m := L.Final(s, rounds[0].steps);
      RoundKeepsMatch(s, t, rounds[0], cfgs);
      RoundsKeepMatch(m, TableAfter(t, rounds[0]), rounds[1..], cfgs);
      LeadsOn(s, rounds[0].steps, m, AllSteps(rounds[1..]), L.Final(m, AllSteps(rounds[1..])));
    }
  }

  lemma StartMatches(cfgs: Settings)
    ensures Matches(L.INITIAL, map[], cfgs)
  {
    L.InitialInv();
  }

  /** Turn after turn from the empty table, with the callers taking any steps at any time:
      after each turn the loop has an entry exactly where the lifecycle has one in that very
      run, with the settings of the connection that is there. */
  lemma LoopMatchesItsRun(rounds: seq<Round>, cfgs: Settings)
    requires AreRounds(L.INITIAL, map[], rounds, cfgs)
    ensures L.CanRun(L.INITIAL, AllSteps(rounds))
    ensures Matches(L.Final(L.INITIAL, AllSteps(rounds)), TableAfterAll(map[], rounds), cfgs)
  {
    StartMatches(cfgs);
    RoundsKeepMatch(L.INITIAL, map[], rounds, cfgs);
  }

  /** The loop serves a connection: there is an entry under its key, it is that of this
      connection, and it has its settings. */
  predicate IsServed(s: L.State, t: WT.Table, cfgs: Settings, c: L.ConnId) {
    L.InTable(s, c) && c in cfgs && s.conns[c].key in t && t[s.conns[c].key].cfg == cfgs[c]
  }

  /** After any turn that leaves the queue empty, an open connection whose forward_open has
      returned is served by the loop, unless the Remove of another connection with the same
      key took its entry out, and then it is not. */
  lemma OpenConnectionIsServedUnlessOusted(rounds: seq<Round>, cfgs: Settings, c: L.ConnId)
    requires AreRounds(L.INITIAL, map[], rounds, cfgs)
    requires L.CanRun(L.INITIAL, AllSteps(rounds))
    requires var s := L.Final(L.INITIAL, AllSteps(rounds)); s.queue == [] && L.IsOpen(s, c) && s.conns[c].opening == L.AddSent
    ensures IsServed(L.Final(L.INITIAL, AllSteps(rounds)), TableAfterAll(map[], rounds), cfgs, c)
            <==> !L.Ousted(L.INITIAL, AllSteps(rounds), c)
  {
    LoopMatchesItsRun(rounds, cfgs);
    L.OpenConnectionIsPlacedUnlessOusted(AllSteps(rounds), c);
  }

  /** So with fresh keys every open connection is served. */
  lemma OpenConnectionIsServed(rounds: seq<Round>, cfgs: Settings, c: L.ConnId)
    requires AreRounds(L.INITIAL, map[], rounds, cfgs)
    requires L.CanRunFresh(L.INITIAL, AllSteps(rounds))
    ensures L.CanRun(L.INITIAL, AllSteps(rounds))
    ensures var s := L.Final(L.INITIAL, AllSteps(rounds));
            s.queue == [] && L.IsOpen(s, c) && s.conns[c].opening == L.AddSent ==>
              IsServed(s, TableAfterAll(map[], rounds), cfgs, c)
  {
    L.InitialInv();
    L.FreshRunOustsNobody(L.INITIAL, AllSteps(rounds), c);
    var s := L.Final(L.INITIAL, AllSteps(rounds));
    if s.queue == [] && L.IsOpen(s, c) && s.conns[c].opening == L.AddSent {
      OpenConnectionIsServedUnlessOusted(rounds, cfgs, c);
    }
  }

  /** And with fresh keys the loop refuses no connection: whatever Add it receives, in any
      turn, the key has no entry. */
  lemma {:induction false} FreshAddsFindTheirKeyFree(s: L.State, steps: seq<L.Step>, i: nat)
    requires L.FreshInv(s) && L.CanRunFresh(s, steps) && L.CanRun(s, steps)
    requires i < |Moves(s, steps)| && Moves(s, steps)[i].Added?
    ensures Moves(s, steps)[i].key !in AllMoved(s.table, Moves(s, steps)[..i])
    decreases |steps|
  {
    var first, rest := MoveOf(s, steps[0]), Moves(L.Apply(s, steps[0]), steps[1..]);
    if i < |first| {
      L.AddFindsItsKeyFree(s, steps[0].c);
      assert Moves(s, steps)[..i] == [];
    } else {
      L.FreshStepKeepsInv(s, steps[0]);
      FreshAddsFindTheirKeyFree(L.Apply(s, steps[0]), steps[1..], i - |first|);
      TableMoves(s, steps[0]);
      AllMovedConcat(s.table, first, rest[..i - |first|]);
      assert Moves(s, steps)[..i] == first + rest[..i - |first|];
    }
  }

  // ---------------------------------------------------------------- every turn is a round

  function KeysOf(s: L.State): map<L.ConnId, ConnectionKey> {
    map c | c in s.conns :: s.conns[c].key
  }

  /** The queue that holds just these commands. */
  predicate Carries(q: seq<L.Command>, cmds: seq<WT.Command>, keys: map<L.ConnId, ConnectionKey>, cfgs: Settings)
    decreases |cmds|
  {
    if cmds == [] then q == []
    else
      match cmds[0]
      case Add(cfg, _) =>
        && q != [] && q[0].Add? && q[0].c in keys && keys[q[0].c] == cfg.Key()
        && q[0].c in cfgs && cfgs[q[0].c] == cfg && Carries(q[1..], cmds[1..], keys, cfgs)
      case Remove(key) => q != [] && q[0].Remove? && q[0].key == key && Carries(q[1..], cmds[1..], keys, cfgs)
      case Shutdown => false
      case _ => Carries(q, cmds[1..], keys, cfgs)
  }

  predicate ByWorker(steps: seq<L.Step>) {
    forall i | 0 <= i < |steps| :: !L.ByCaller(steps[i]) && !steps[i].StopWorker?
  }

  /** steps lead from s to e. */
  predicate Leads(s: L.State, steps: seq<L.Step>, e: L.State) {
    L.CanRun(s, steps) && L.Final(s, steps) == e
  }

  lemma {:induction false} LeadsOn(s: L.State, a: seq<L.Step>, m: L.State, b: seq<L.Step>, e: L.State)
    requires Leads(s, a, m) && Leads(m, b, e)
    ensures Leads(s, a + b, e)
    decreases |a|
  {
    if a == [] {
      assert a + b == b;
    } else {
      assert (a + b)[0] == a[0] && (a + b)[1..] == a[1..] + b;
      LeadsOn(L.Apply(s, a[0]), a[1..], m, b, e);
    }
  }

  lemma OneStep(s: L.State, step: L.Step)
    requires L.Enabled(s, step)
    ensures Leads(s, [step], L.Apply(s, step))
  {
    assert L.CanRun(L.Apply(s, step), []);
    assert [step][1..] == [];
  }

  lemma StepOn(s: L.State, steps: seq<L.Step>, m: L.State, step: L.Step) returns (more: seq<L.Step>, e: L.State)
    requires Leads(s, steps, m) && L.Inv(m) && L.Enabled(m, step)
    ensures more == steps + [step] && e == L.Apply(m, step) && Leads(s, more, e) && L.Inv(e)
  {
    more, e := steps + [step], L.Apply(m, step);
    OneStep(m, step);
    LeadsOn(s, steps, m, [step], e);
    L.StepKeepsInv(m, step);
  }

  // ---------------------------------------------------------------- closing an entry

  /** Nothing that the callers or the table have to do with is different. */
  predicate SameAround(s: L.State, e: L.State) {
    e.running == s.running && e.table == s.table && e.queue == s.queue && KeysOf(e) == KeysOf(s)
  }

  /** A step of the worker that is neither a command nor a timeout. */
  predicate IsClosing(step: L.Step) {
    step.SwapByWorker? || step.SubtractByWorker? || step.RunOnClose?
  }

  predicate AreClosing(steps: seq<L.Step>) {
    forall i | 0 <= i < |steps| :: IsClosing(steps[i])
  }

  lemma ClosingKeepsAround(s: L.State, step: L.Step)
    requires L.Enabled(s, step) && IsClosing(step)
    ensures SameAround(s, L.Apply(s, step))
  {
  }

  lemma NotifySteps(m: L.State, c: L.ConnId) returns (steps: seq<L.Step>, e: L.State)
    requires L.Inv(m) && m.running && c in m.conns && (m.worker == L.Notifying(c) || m.worker == L.Idle)
    ensures Leads(m, steps, e) && AreClosing(steps)
    ensures e.worker == L.Idle && L.Inv(e) && SameAround(m, e)
    ensures forall d :: L.RunOnClose(d) in steps <==> m.worker == L.Notifying(d)
  {
    steps, e := [], m;
    if m.worker.Notifying? {
      assert Leads(m, [], m);
      ClosingKeepsAround(m, L.RunOnClose(c));
      steps, e := StepOn(m, steps, e, L.RunOnClose(c));
    }
  }

  lemma SubtractSteps(m: L.State, c: L.ConnId) returns (steps: seq<L.Step>, e: L.State)
    requires L.Inv(m) && m.running && c in m.conns && m.worker.Subtracting? && m.worker.c == c
    ensures Leads(m, steps, e) && AreClosing(steps)
    ensures e.worker == L.Idle && L.Inv(e) && SameAround(m, e)
    ensures forall d :: L.RunOnClose(d) in steps <==> m.worker.notify && d == c
  {
    var step := L.SubtractByWorker(c);
    var n := L.Apply(m, step);
    OneStep(m, step);
    L.StepKeepsInv(m, step);
    ClosingKeepsAround(m, step);
    var more;
    more, e := NotifySteps(n, c);
    LeadsOn(m, [step], n, more, e);
    steps := [step] + more;
  }

  /** The worker closes the flag of the connection it holds, and runs on_close if it timed out. */
  lemma ClosingSteps(s: L.State, c: L.ConnId) returns (steps: seq<L.Step>, e: L.State)
    requires L.Inv(s) && s.running && c in s.conns && (s.worker == L.Rejecting(c) || s.worker == L.TimedOut(c))
    ensures Leads(s, steps, e) && AreClosing(steps)
    ensures e.worker == L.Idle && L.Inv(e) && SameAround(s, e)
    ensures forall d :: L.RunOnClose(d) in steps <==> s.worker == L.TimedOut(d)
  {
    var step := L.SwapByWorker(c);
    var m := L.Apply(s, step);
    OneStep(s, step);
    L.StepKeepsInv(s, step);
    ClosingKeepsAround(s, step);
    var more;
    if m.worker.Subtracting? {
      more, e := SubtractSteps(m, c);
    } else {
      more, e := NotifySteps(m, c);
    }
    LeadsOn(s, [step], m, more, e);
    steps := [step] + more;
  }

  // ---------------------------------------------------------------- commands

  lemma MovesOn(s: L.State, a: seq<L.Step>, m: L.State, b: seq<L.Step>, e: L.State)
    requires Leads(s, a, m) && Leads(m, b, e)
    ensures Leads(s, a + b, e) && Moves(s, a + b) == Moves(s, a) + Moves(m, b)
  {
    LeadsOn(s, a, m, b, e);
    MovesConcat(s, a, b);
  }

  lemma OneMove(s: L.State, step: L.Step)
    requires L.Enabled(s, step)
    ensures Leads(s, [step], L.Apply(s, step)) && Moves(s, [step]) == MoveOf(s, step)
  {
    OneStep(s, step);
    assert [step][1..] == [];
    assert MoveOf(s, step) + [] == MoveOf(s, step);
  }

  lemma {:induction false} ClosingMovesNothing(s: L.State, steps: seq<L.Step>)
    requires L.CanRun(s, steps) && forall i | 0 <= i < |steps| :: IsClosing(steps[i]) || L.ByCaller(steps[i])
    ensures Moves(s, steps) == []
    decreases |steps|
  {
    if steps != [] {
      ClosingMovesNothing(L.Apply(s, steps[0]), steps[1..]);
    }
  }

  lemma AddSteps(s: L.State, c: L.ConnId) returns (steps: seq<L.Step>, e: L.State)
    requires L.Inv(s) && s.running && s.worker == L.Idle && s.queue != [] && s.queue[0] == L.Add(c) && c in s.conns
    ensures Leads(s, steps, e) && ByWorker(steps) && Moves(s, steps) == [Added(c, s.conns[c].key)]
    ensures e.running && e.worker == L.Idle && L.Inv(e)
    ensures e.queue == s.queue[1..] && KeysOf(e) == KeysOf(s)
    ensures forall d :: L.RunOnClose(d) !in steps
  {
    var m := L.Apply(s, L.DrainAdd(c));
    OneMove(s, L.DrainAdd(c));
    L.StepKeepsInv(s, L.DrainAdd(c));
    steps, e := [L.DrainAdd(c)], m;
    if m.worker != L.Idle {
      var more, n := ClosingSteps(m, c);
      ClosingMovesNothing(m, more);
      MovesOn(s, steps, m, more, n);
      steps, e := steps + more, n;
    }
  }

  lemma RemoveSteps(s: L.State) returns (steps: seq<L.Step>, e: L.State)
    requires L.Inv(s) && s.running && s.worker == L.Idle && s.queue != [] && s.queue[0].Remove?
    ensures Leads(s, steps, e) && ByWorker(steps) && Moves(s, steps) == [Removed(s.queue[0].key)]
    ensures e.running && e.worker == L.Idle && L.Inv(e)
    ensures e.queue == s.queue[1..] && KeysOf(e) == KeysOf(s)
    ensures forall d :: L.RunOnClose(d) !in steps
  {
    var c := s.queue[0].owner;
    assert L.ConnInv(s, c) && L.Remove(s.queue[0].key, c) in s.queue;
    OneMove(s, L.DrainRemove(c));
    L.StepKeepsInv(s, L.DrainRemove(c));
    steps, e := [L.DrainRemove(c)], L.Apply(s, L.DrainRemove(c));
  }

  lemma {:induction false} DrainSteps(s: L.State, q: seq<L.Command>, rest: seq<L.Command>, cmds: seq<WT.Command>, cfgs: Settings)
      returns (steps: seq<L.Step>, e: L.State)
    requires L.Inv(s) && s.running && s.worker == L.Idle && s.queue == q + rest && Carries(q, cmds, KeysOf(s), cfgs)
    ensures Leads(s, steps, e) && ByWorker(steps) && Receives(Moves(s, steps), cmds, cfgs)
    ensures e.running && e.worker == L.Idle && L.Inv(e) && e.queue == rest
    ensures forall d :: L.RunOnClose(d) !in steps
    decreases |cmds|
  {
    if cmds == [] {
      steps, e := [], s;
      assert q + rest == rest;
    } else if cmds[0].Add? || cmds[0].Remove? {
      assert s.queue[0] == q[0] && s.queue[1..] == q[1..] + rest;
      var m;
      if cmds[0].Add? {
        assert KeysOf(s)[q[0].c] == s.conns[q[0].c].key;
        steps, m := AddSteps(s, q[0].c);
      } else {
        steps, m := RemoveSteps(s);
      }
      var more;
      more, e := DrainSteps(m, q[1..], rest, cmds[1..], cfgs);
      MovesOn(s, steps, m, more, e);
      assert (Moves(s, steps) + Moves(m, more))[1..] == Moves(m, more);
      steps := steps + more;
    } else {
      steps, e := DrainSteps(s, q, rest, cmds[1..], cfgs);
    }
  }

  // ---------------------------------------------------------------- service

  lemma ExpireSteps(s: L.State, key: ConnectionKey) returns (steps: seq<L.Step>, e: L.State)
    requires L.Inv(s) && s.running && s.worker == L.Idle && key in s.table
    ensures Leads(s, steps, e) && ByWorker(steps) && Moves(s, steps) == [Expired(s.table[key], key)]
    ensures e.running && e.worker == L.Idle && L.Inv(e)
    ensures e.table == s.table - {key} && e.queue == s.queue
  {
    var c := s.table[key];
    assert L.ConnInv(s, c);
    var m := L.Apply(s, L.ExpireEntry(c));
    OneMove(s, L.ExpireEntry(c));
    L.StepKeepsInv(s, L.ExpireEntry(c));
    var more;
    more, e := ClosingSteps(m, c);
    ClosingMovesNothing(m, more);
    MovesOn(s, [L.ExpireEntry(c)], m, more, e);
    steps := [L.ExpireEntry(c)] + more;
  }

  lemma ExpireOneMore(m: Move, moves: seq<Move>, keys: set<ConnectionKey>)
    requires m.Expired? && m.key in keys && Expires(moves, keys - {m.key})
    ensures Expires([m] + moves, keys)
  {
    var all := [m] + moves;
    forall k | k in keys ensures exists i :: 0 <= i < |all| && all[i].key == k {
      if k == m.key {
        assert all[0].key == k;
      } else {
        assert k in keys - {m.key};
        var i :| 0 <= i < |moves| && moves[i].key == k;
        assert all[i + 1].key == k;
      }
    }
  }

  lemma {:induction false} ServiceSteps(s: L.State, keys: set<ConnectionKey>) returns (steps: seq<L.Step>, e: L.State)
    requires L.Inv(s) && s.running && s.worker == L.Idle && keys <= s.table.Keys
    ensures Leads(s, steps, e) && ByWorker(steps) && Expires(Moves(s, steps), keys)
    ensures e.running && e.worker == L.Idle && L.Inv(e) && e.queue == s.queue
    decreases |keys|
  {
    if keys == {} {
      steps, e := [], s;
    } else {
      var key :| key in keys;
      var m;
      steps, m := ExpireSteps(s, key);
      var more;
      more, e := ServiceSteps(m, keys - {key});
      MovesOn(s, steps, m, more, e);
      ExpireOneMore(Expired(s.table[key], key), Moves(m, more), keys);
      steps := steps + more;
    }
  }

  // ---------------------------------------------------------------- whole turns

  lemma {:induction false} CallersKeepMatch(s: L.State, t: WT.Table, steps: seq<L.Step>, cfgs: Settings)
    requires Matches(s, t, cfgs) && L.CanRun(s, steps)
    requires forall i | 0 <= i < |steps| :: L.ByCaller(steps[i])
    ensures Matches(L.Final(s, steps), t, cfgs)
    decreases |steps|
  {
    if steps != [] {
      L.StepKeepsInv(s, steps[0]);
      CallersKeepMatch(L.Apply(s, steps[0]), t, steps[1..], cfgs);
    }
  }

  /** Every turn can be taken: after any steps of the callers, the worker has steps that
      receive the commands at the head of the queue and then time out what is due, and with
      them the turn is a round, in which on_close runs only in the service. */
  lemma TurnIsARound(s: L.State, t: WT.Table, callers: seq<L.Step>, q: seq<L.Command>, rest: seq<L.Command>,
                     cmds: seq<WT.Command>, now: int, outputs: map<ConnectionKey, bytes>, ds: seq<WT.Datagram>, cfgs: Settings)
      returns (drain: seq<L.Step>, service: seq<L.Step>, r: Round)
    requires Matches(s, t, cfgs) && L.CanRun(s, callers) && forall i | 0 <= i < |callers| :: L.ByCaller(callers[i])
    requires L.Final(s, callers).queue == q + rest && Carries(q, cmds, KeysOf(L.Final(s, callers)), cfgs)
    ensures ByWorker(drain) && ByWorker(service) && r.steps == callers + (drain + service)
    ensures r.cmds == cmds && r.now == now && r.outputs == outputs && r.datagrams == ds
    ensures IsRound(s, t, r, cfgs) && L.Final(s, r.steps).queue == rest
    ensures forall c :: L.RunOnClose(c) !in drain
  {
    var m := L.Final(s, callers);
    CallersKeepMatch(s, t, callers, cfgs);
    ClosingMovesNothing(s, callers);
    var drained, e;
    drain, drained := DrainSteps(m, q, rest, cmds, cfgs);
    var received := Moves(m, drain);
    DrainMoves(s.table, t, received, cmds, cfgs);
    CallersKeepTable(s, callers);
    RunMovesTable(m, drain);
    service, e := ServiceSteps(drained, TimedOutKeys(WT.Drained(t, cmds).0, now));
    MovesOn(m, drain, drained, service, e);
    MovesOn(s, callers, m, drain + service, e);
    assert [] + Moves(m, drain + service) == Moves(m, drain + service);
    r := Round(callers + (drain + service), received, Moves(drained, service), cmds, now, outputs, ds);
  }

  lemma CallersKeepTable(s: L.State, callers: seq<L.Step>)
    requires L.CanRun(s, callers) && forall i | 0 <= i < |callers| :: L.ByCaller(callers[i])
    ensures L.Final(s, callers).table == s.table
  {
    ClosingMovesNothing(s, callers);
    RunMovesTable(s, callers);
  }
}
