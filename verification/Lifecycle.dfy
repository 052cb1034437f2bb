/**
 The life of an I/O connection, as callers and the I/O thread see it.

 Callers of forward_open and forward_close and the single worker thread share one
 flag per connection, one counter of open connections and one first-in first-out
 command queue. Each step below is one atomic action of one thread (`fetch_add`,
 `swap`, `fetch_sub`, a queue send, a queue receive, a table removal, a callback), so
 a sequence of steps is one interleaving, and a theorem about every sequence of
 enabled steps is a theorem about every interleaving.
 */
module Lifecycle {
  import opened ConnectionKeys

  /** Identity of a connection: one number per successful Forward Open reply. */
  type ConnId = nat

  /** How far the forward_open call of a connection has got. */
  datatype Opening =
    | Counted      // the counter was incremented, the flag does not exist yet
    | FlagMade     // the flag exists and is open, Add was not sent yet
    | AddSent      // Add is in the queue or was received; the caller has the handle
    | AddRefused   // the worker had stopped: forward_open returned an error

  /** How far the forward_close call of a connection has got. The handle is consumed,
      so there is at most one such call. */
  datatype Closing =
    | NotClosing
    | Swapped           // won the swap, the counter was not decremented yet
    | Subtracted        // decremented, Remove was not sent yet
    | RemoveSent        // Remove was sent, Forward Close was not
    | RemoveRefused     // the worker had stopped: forward_close returned an error
    | ForwardCloseSent
    | FoundClosed       // lost the swap: nothing is sent

  /** One connection. The last six fields are history: no step is guarded by them. */
  datatype Conn = Conn(
    key: ConnectionKey,
    opening: Opening,
    open: bool,
    closing: Closing,
    callerWon: bool,
    workerWon: bool,
    decrements: nat,
    expired: bool,
    onCloseRuns: nat,
    removeDrained: bool)
  {
    /** The call is past a swap that it won. */
    predicate PastSwap() {
      closing.Swapped? || closing.Subtracted? || closing.RemoveSent? || closing.RemoveRefused? || closing.ForwardCloseSent?
    }
  }

  /** Commands that change the table. The owner of a Remove is history: the worker
      only looks at the key. */
  datatype Command = Add(c: ConnId) | Remove(key: ConnectionKey, owner: ConnId)

  /** What the worker is in the middle of. */
  datatype WorkerPc =
    | Idle
    | Rejecting(c: ConnId)            // Add found its key occupied
    | TimedOut(c: ConnId)             // the entry left the table because it timed out
    | Subtracting(c: ConnId, notify: bool) // won the swap, before fetch_sub
    | Notifying(c: ConnId)            // about to run on_close

  datatype State = State(
    conns: map<ConnId, Conn>,
    queue: seq<Command>,
    table: map<ConnectionKey, ConnId>,
    worker: WorkerPc,
    openCount: int,
    running: bool)

  const INITIAL := State(map[], [], map[], Idle, 0, true)

  datatype Step =
    | CountOpen(c: ConnId, key: ConnectionKey)
    | MakeFlag(c: ConnId)
    | SendAdd(c: ConnId)
    | SwapByCaller(c: ConnId)
    | SubtractByCaller(c: ConnId)
    | SendRemove(c: ConnId)
    | SendForwardClose(c: ConnId)
    | DrainAdd(c: ConnId)
    | DrainRemove(c: ConnId)
    | ExpireEntry(c: ConnId)
    | SwapByWorker(c: ConnId)
    | SubtractByWorker(c: ConnId)
    | RunOnClose(c: ConnId)
    | StopWorker

  predicate Enabled(s: State, step: Step) {
    match step
    case CountOpen(c, key) => c !in s.conns
    case MakeFlag(c) => c in s.conns && s.conns[c].opening == Counted
    case SendAdd(c) => c in s.conns && s.conns[c].opening == FlagMade
    case SwapByCaller(c) => c in s.conns && s.conns[c].opening == AddSent && s.conns[c].closing == NotClosing
    case SubtractByCaller(c) => c in s.conns && s.conns[c].closing == Swapped
    case SendRemove(c) => c in s.conns && s.conns[c].closing == Subtracted
    case SendForwardClose(c) => c in s.conns && s.conns[c].closing == RemoveSent
    case DrainAdd(c) => s.running && s.worker == Idle && s.queue != [] && s.queue[0] == Add(c) && c in s.conns
    case DrainRemove(c) =>
      s.running && s.worker == Idle && s.queue != [] && s.queue[0].Remove? && s.queue[0].owner == c && c in s.conns
    case ExpireEntry(c) =>
      s.running && s.worker == Idle && c in s.conns && s.conns[c].key in s.table && s.table[s.conns[c].key] == c
    case SwapByWorker(c) => s.running && (s.worker == Rejecting(c) || s.worker == TimedOut(c)) && c in s.conns
    case SubtractByWorker(c) => s.running && s.worker.Subtracting? && s.worker.c == c && c in s.conns
    case RunOnClose(c) => s.running && s.worker == Notifying(c) && c in s.conns
    case StopWorker => s.running
  }

  function Apply(s: State, step: Step): State
    requires Enabled(s, step)
  {
    match step
    case CountOpen(c, key) =>
      s.(conns := s.conns[c := Conn(key, Counted, false, NotClosing, false, false, 0, false, 0, false)],
         openCount := s.openCount + 1)
    case MakeFlag(c) =>
      s.(conns := s.conns[c := s.conns[c].(opening := FlagMade, open := true)])
    case SendAdd(c) =>
      if s.running then
        s.(conns := s.conns[c := s.conns[c].(opening := AddSent)], queue := s.queue + [Add(c)])
      else
        s.(conns := s.conns[c := s.conns[c].(opening := AddRefused)])
    case SwapByCaller(c) =>
      s.(conns := s.conns[c := s.conns[c].(open := false, callerWon := s.conns[c].callerWon || s.conns[c].open,
                                           closing := if s.conns[c].open then Swapped else FoundClosed)])
    case SubtractByCaller(c) =>
      s.(conns := s.conns[c := s.conns[c].(closing := Subtracted, decrements := s.conns[c].decrements + 1)],
         openCount := s.openCount - 1)
    case SendRemove(c) =>
      if s.running then
        s.(conns := s.conns[c := s.conns[c].(closing := RemoveSent)],
           queue := s.queue + [Remove(s.conns[c].key, c)])
      else
        s.(conns := s.conns[c := s.conns[c].(closing := RemoveRefused)])
    case SendForwardClose(c) =>
      s.(conns := s.conns[c := s.conns[c].(closing := ForwardCloseSent)])
    case DrainAdd(c) =>
      if s.conns[c].key in s.table then
        s.(queue := s.queue[1..], worker := Rejecting(c))
      else
        s.(queue := s.queue[1..], table := s.table[s.conns[c].key := c])
    case DrainRemove(c) =>
      s.(queue := s.queue[1..], table := s.table - {s.queue[0].key},
         conns := s.conns[c := s.conns[c].(removeDrained := true)])
    case ExpireEntry(c) =>
      s.(table := s.table - {s.conns[c].key}, worker := TimedOut(c),
         conns := s.conns[c := s.conns[c].(expired := true)])
    case SwapByWorker(c) =>
      var notify := s.worker.TimedOut?;
      s.(conns := s.conns[c := s.conns[c].(open := false, workerWon := s.conns[c].workerWon || s.conns[c].open)],
         worker := if s.conns[c].open then Subtracting(c, notify) else if notify then Notifying(c) else Idle)
    case SubtractByWorker(c) =>
      s.(conns := s.conns[c := s.conns[c].(decrements := s.conns[c].decrements + 1)],
         openCount := s.openCount - 1,
         worker := if s.worker.notify then Notifying(c) else Idle)
    case RunOnClose(c) =>
      s.(conns := s.conns[c := s.conns[c].(onCloseRuns := s.conns[c].onCloseRuns + 1)], worker := Idle)
    case StopWorker =>
      s.(running := false)
  }

  // ---------------------------------------------------------------- runs

  predicate CanRun(s: State, steps: seq<Step>)
    decreases |steps|
  {
    steps == [] || (Enabled(s, steps[0]) && CanRun(Apply(s, steps[0]), steps[1..]))
  }

  function Final(s: State, steps: seq<Step>): State
    requires CanRun(s, steps)
    decreases |steps|
  {
    if steps == [] then s else Final(Apply(s, steps[0]), steps[1..])
  }

  /** A connection that can no longer put anything into the table or the queue. */
  ghost predicate Retired(s: State, c: ConnId)
    requires c in s.conns
  {
    var conn := s.conns[c];
    && conn.opening == AddSent
    && !conn.open
    && conn.closing != Swapped && conn.closing != Subtracted
    && Add(c) !in s.queue
    && Remove(conn.key, c) !in s.queue
    && !(conn.key in s.table && s.table[conn.key] == c)
  }

  /** The target does not hand out a key whose earlier holders are still around. */
  ghost predicate GrantsFreshKey(s: State, step: Step) {
    step.CountOpen? ==> forall c | c in s.conns && s.conns[c].key == step.key :: Retired(s, c)
  }

  /** A run in which every key that is granted is fresh when it is granted. */
  ghost predicate CanRunFresh(s: State, steps: seq<Step>)
    decreases |steps|
  {
    steps == [] ||
    (Enabled(s, steps[0]) && GrantsFreshKey(s, steps[0]) && CanRunFresh(Apply(s, steps[0]), steps[1..]))
  }

  // ---------------------------------------------------------------- invariants

  /** The worker is busy with c, which it has taken out of the queue or the table. */
  predicate HeldByWorker(s: State, c: ConnId) {
    !s.worker.Idle? && s.worker.c == c
  }

  predicate InTable(s: State, c: ConnId) {
    c in s.conns && s.conns[c].key in s.table && s.table[s.conns[c].key] == c
  }

  /** The connection still counts: its increment has not been undone. */
  predicate Owes(s: State, c: ConnId) {
    c in s.conns &&
    var conn := s.conns[c];
    conn.opening == Counted || conn.open || conn.closing == Swapped ||
    (s.worker.Subtracting? && s.worker.c == c)
  }

  ghost function Owing(s: State): set<ConnId> {
    set c | c in s.conns && Owes(s, c)
  }

  /** Flag and counter history of one connection. */
  ghost predicate FlagInv(s: State, c: ConnId)
    requires c in s.conns
  {
    var conn := s.conns[c];
    && conn.callerWon == conn.PastSwap()
    && (conn.opening == Counted ==> !conn.open && !conn.callerWon && !conn.workerWon)
    && (conn.opening != Counted && conn.open ==> !conn.callerWon && !conn.workerWon)
    && (conn.opening != Counted && !conn.open ==> conn.callerWon != conn.workerWon)
    && (conn.opening != AddSent ==> conn.closing == NotClosing && !conn.workerWon)
    && (s.worker.Subtracting? && s.worker.c == c ==> conn.workerWon)
    && conn.decrements == (if Owes(s, c) then 0 else 1)
    && (conn.closing == FoundClosed ==> conn.workerWon)
    && (s.running ==> conn.opening != AddRefused && conn.closing != RemoveRefused)
  }

  /** Where one connection can be: queued, in the table or held by the worker, in that order, once. */
  ghost predicate PlaceInv(s: State, c: ConnId)
    requires c in s.conns
  {
    var conn := s.conns[c];
    && multiset(s.queue)[Add(c)] + (if InTable(s, c) then 1 else 0) + (if HeldByWorker(s, c) then 1 else 0) <= 1
    && (Add(c) in s.queue || InTable(s, c) || HeldByWorker(s, c) ==>
          conn.opening == AddSent && conn.onCloseRuns == 0 && !conn.removeDrained)
    && (Add(c) in s.queue || InTable(s, c) ==> !conn.expired && !conn.workerWon)
    && (HeldByWorker(s, c) && (s.worker.TimedOut? || s.worker.Notifying?) ==> conn.expired)
    && (HeldByWorker(s, c) && s.worker.Subtracting? && s.worker.notify ==> conn.expired)
    && (HeldByWorker(s, c) && s.worker.Notifying? ==> !conn.open)
    && (conn.opening != AddSent ==> !conn.expired && conn.onCloseRuns == 0 && !conn.removeDrained)
    && conn.onCloseRuns <= 1
    && (conn.onCloseRuns == 1 ==> conn.expired)
    && (forall k | k in s.table && s.table[k] == c :: k == conn.key)
  }

  ghost predicate AddComesFirst(q: seq<Command>, key: ConnectionKey, c: ConnId) {
    forall i, j | 0 <= i < j < |q| :: !(q[i] == Remove(key, c) && q[j] == Add(c))
  }

  /** The Remove of one connection: queued once after its Add, or already received. */
  ghost predicate RemoveInv(s: State, c: ConnId)
    requires c in s.conns
  {
    var conn := s.conns[c];
    && multiset(s.queue)[Remove(conn.key, c)] + (if conn.removeDrained then 1 else 0)
       == (if conn.closing == RemoveSent || conn.closing == ForwardCloseSent then 1 else 0)
    && AddComesFirst(s.queue, conn.key, c)
    && (forall k | Remove(k, c) in s.queue :: k == conn.key)
  }

  /** A number that was not given to a connection yet occurs nowhere. */
  ghost predicate UnusedInv(s: State, c: ConnId) {
    && Add(c) !in s.queue
    && (forall k :: Remove(k, c) !in s.queue)
    && (forall k | k in s.table :: s.table[k] != c)
    && !HeldByWorker(s, c)
  }

  /** A connection that timed out had its on_close run, or the worker is about to run it. */
  ghost predicate CloseInv(s: State, c: ConnId)
    requires c in s.conns
  {
    s.conns[c].expired ==>
      || s.conns[c].onCloseRuns == 1
      || (HeldByWorker(s, c) && !s.worker.Rejecting? && (s.worker.Subtracting? ==> s.worker.notify))
  }

  ghost predicate ConnInv(s: State, c: ConnId) {
    if c in s.conns then FlagInv(s, c) && PlaceInv(s, c) && RemoveInv(s, c) && CloseInv(s, c) else UnusedInv(s, c)
  }

  /** What holds in every state of every run, whatever keys the target grants. */
  ghost predicate Inv(s: State) {
    && (forall c: ConnId :: ConnInv(s, c))
    && s.openCount == |Owing(s)|
  }

  // ---------------------------------------------------------------- every step keeps the invariant

  lemma QueueHead(q: seq<Command>, cmd: Command)
    requires q != []
    ensures multiset(q)[cmd] == multiset(q[1..])[cmd] + (if cmd == q[0] then 1 else 0)
  {
    assert q == [q[0]] + q[1..];
  }

  lemma AppendKeepsOrder(q: seq<Command>, cmd: Command, key: ConnectionKey, c: ConnId)
    requires AddComesFirst(q, key, c)
    requires cmd == Add(c) ==> Remove(key, c) !in q
    ensures AddComesFirst(q + [cmd], key, c)
  {
  }

  /** Steps of the threads that call forward_open and forward_close. */
  predicate ByCaller(step: Step) {
    step.CountOpen? || step.MakeFlag? || step.SendAdd? || step.SwapByCaller? || step.SubtractByCaller? ||
    step.SendRemove? || step.SendForwardClose?
  }

  lemma FlagKeptByCaller(s: State, step: Step, c: ConnId)
    requires ByCaller(step) && Enabled(s, step) && c in Apply(s, step).conns && ConnInv(s, c)
    ensures FlagInv(Apply(s, step), c)
  {
  }

  lemma FlagKeptByWorker(s: State, step: Step, c: ConnId)
    requires !ByCaller(step) && Enabled(s, step) && c in s.conns && ConnInv(s, c)
    ensures FlagInv(Apply(s, step), c)
  {
  }

  lemma PlaceKeptByCaller(s: State, step: Step, c: ConnId)
    requires ByCaller(step) && Enabled(s, step) && c in Apply(s, step).conns && ConnInv(s, c)
    ensures PlaceInv(Apply(s, step), c)
  {
  }

  lemma PlaceKeptByWorker(s: State, step: Step, c: ConnId)
    requires !ByCaller(step) && Enabled(s, step) && c in s.conns && ConnInv(s, c)
    ensures PlaceInv(Apply(s, step), c)
  {
    if step.DrainAdd? || step.DrainRemove? {
      QueueHead(s.queue, Add(c));
    }
  }

  lemma CloseKept(s: State, step: Step, c: ConnId)
    requires Enabled(s, step) && c in Apply(s, step).conns && ConnInv(s, c)
    ensures CloseInv(Apply(s, step), c)
  {
  }

  lemma RemoveKeptBySend(s: State, step: Step, c: ConnId)
    requires (step.SendAdd? || step.SendRemove?) && Enabled(s, step) && c in s.conns && ConnInv(s, c)
    ensures RemoveInv(Apply(s, step), c)
  {
    if step.SendAdd? {
      AppendKeepsOrder(s.queue, Add(step.c), s.conns[c].key, c);
    } else {
      AppendKeepsOrder(s.queue, Remove(s.conns[step.c].key, step.c), s.conns[c].key, c);
    }
  }

  lemma RemoveKeptByCaller(s: State, step: Step, c: ConnId)
    requires ByCaller(step) && Enabled(s, step) && c in Apply(s, step).conns && ConnInv(s, c)
    ensures RemoveInv(Apply(s, step), c)
  {
    if step.SendAdd? || step.SendRemove? {
      RemoveKeptBySend(s, step, c);
    }
  }

  lemma RemoveKeptByWorker(s: State, step: Step, c: ConnId)
    requires !ByCaller(step) && Enabled(s, step) && c in s.conns && ConnInv(s, c)
    ensures RemoveInv(Apply(s, step), c)
  {
    if s.queue != [] {
      QueueHead(s.queue, Remove(s.conns[c].key, c));
    }
  }

  lemma UnusedKept(s: State, step: Step, c: ConnId)
    requires Enabled(s, step) && c !in Apply(s, step).conns && ConnInv(s, c)
    ensures UnusedInv(Apply(s, step), c)
  {
  }

  /** The two steps that decrement the counter on behalf of c. */
  predicate Subtracts(step: Step, c: ConnId) {
    step == SubtractByCaller(c) || step == SubtractByWorker(c)
  }

  lemma OwesAfter(s: State, step: Step, c: ConnId)
    requires Enabled(s, step) && ConnInv(s, c)
    ensures Owes(Apply(s, step), c) <==> (step.CountOpen? && step.c == c) || (Owes(s, c) && !Subtracts(step, c))
    ensures step.CountOpen? && step.c == c ==> !Owes(s, c)
    ensures Subtracts(step, c) ==> Owes(s, c)
  {
  }

  lemma OwingAfter(s: State, step: Step)
    requires Inv(s) && Enabled(s, step)
    ensures forall c :: c in Owing(Apply(s, step)) <==>
              (step.CountOpen? && step.c == c) || (c in Owing(s) && !Subtracts(step, c))
    ensures forall c :: step.CountOpen? && step.c == c ==> c !in Owing(s)
    ensures forall c :: Subtracts(step, c) ==> c in Owing(s)
  {
    forall c: ConnId
      ensures c in Owing(Apply(s, step)) <==> (step.CountOpen? && step.c == c) || (c in Owing(s) && !Subtracts(step, c))
      ensures step.CountOpen? && step.c == c ==> c !in Owing(s)
      ensures Subtracts(step, c) ==> c in Owing(s)
    {
      assert ConnInv(s, c);
      OwesAfter(s, step, c);
    }
  }

  /** How a step changes the counter. */
  function CountChange(step: Step): int {
    match step
    case CountOpen(_, _) => 1
    case SubtractByCaller(_) => -1
    case SubtractByWorker(_) => -1
    case _ => 0
  }

  lemma CountAfter(s: State, step: Step)
    requires Enabled(s, step)
    ensures Apply(s, step).openCount == s.openCount + CountChange(step)
  {
  }

  lemma SetGrows(a: set<ConnId>, b: set<ConnId>, c: ConnId)
    requires c !in a && forall x :: x in b <==> x == c || x in a
    ensures |b| == |a| + 1
  {
    assert b == a + {c};
  }

  lemma SetStays(a: set<ConnId>, b: set<ConnId>)
    requires forall x :: x in b <==> x in a
    ensures |b| == |a|
  {
    assert b == a;
  }

  lemma StepKeepsCount(s: State, step: Step)
    requires Inv(s) && Enabled(s, step)
    ensures Apply(s, step).openCount == |Owing(Apply(s, step))|
  {
    var owing, owing' := Owing(s), Owing(Apply(s, step));
    OwingAfter(s, step);
    CountAfter(s, step);
    match step
    case CountOpen(c, _) => SetGrows(owing, owing', c);
    case SubtractByCaller(c) => SetGrows(owing', owing, c);
    case SubtractByWorker(c) => SetGrows(owing', owing, c);
    case _ => SetStays(owing, owing');
  }

  lemma StepKeepsInv(s: State, step: Step)
    requires Inv(s) && Enabled(s, step)
    ensures Inv(Apply(s, step))
  {
    var s' := Apply(s, step);
    forall c: ConnId ensures ConnInv(s', c) {
      assert ConnInv(s, c);
      if c !in s'.conns {
        UnusedKept(s, step, c);
      } else if ByCaller(step) {
        CloseKept(s, step, c);
        FlagKeptByCaller(s, step, c);
        PlaceKeptByCaller(s, step, c);
        RemoveKeptByCaller(s, step, c);
      } else {
        CloseKept(s, step, c);
        FlagKeptByWorker(s, step, c);
        PlaceKeptByWorker(s, step, c);
        RemoveKeptByWorker(s, step, c);
      }
    }
    StepKeepsCount(s, step);
  }

  lemma {:induction false} RunKeepsInv(s: State, steps: seq<Step>)
    requires Inv(s) && CanRun(s, steps)
    ensures Inv(Final(s, steps))
    decreases |steps|
  {
    if steps != [] {
      StepKeepsInv(s, steps[0]);
      RunKeepsInv(Apply(s, steps[0]), steps[1..]);
    }
  }

  lemma InitialInv()
    ensures Inv(INITIAL)
  {
    assert Owing(INITIAL) == {};
  }

  // ---------------------------------------------------------------- the counter

  ghost function OpenFlags(s: State): set<ConnId> {
    set c | c in s.conns && s.conns[c].open
  }

  /** Opens between the fetch_add and the creation of the flag. */
  ghost function HalfOpened(s: State): set<ConnId> {
    set c | c in s.conns && s.conns[c].opening == Counted
  }

  /** Closes between the winning swap and the fetch_sub, on a caller or on the worker. */
  ghost function HalfClosed(s: State): set<ConnId> {
    set c | c in s.conns && (s.conns[c].closing == Swapped || (s.worker.Subtracting? && s.worker.c == c))
  }

  lemma CountInInvState(s: State)
    requires Inv(s)
    ensures s.openCount == |OpenFlags(s)| + |HalfOpened(s)| + |HalfClosed(s)|
  {
    forall c | c in s.conns
      ensures c in Owing(s) <==> c in OpenFlags(s) || c in HalfOpened(s) || c in HalfClosed(s)
      ensures c in OpenFlags(s) ==> c !in HalfOpened(s) && c !in HalfClosed(s)
      ensures c in HalfOpened(s) ==> c !in HalfClosed(s)
    {
      assert ConnInv(s, c);
    }
    assert Owing(s) == OpenFlags(s) + HalfOpened(s) + HalfClosed(s);
  }

  /** In every interleaving the counter is the number of open flags plus the opens and
      closes caught between their two atomic actions. */
  lemma CounterIsExact(steps: seq<Step>)
    requires CanRun(INITIAL, steps)
    ensures var s := Final(INITIAL, steps);
            s.openCount == |OpenFlags(s)| + |HalfOpened(s)| + |HalfClosed(s)|
  {
    InitialInv();
    RunKeepsInv(INITIAL, steps);
    CountInInvState(Final(INITIAL, steps));
  }

  /** A decrement never finds the counter at zero; each connection is decremented at
      most once, and never while its flag is open. */
  lemma CounterNeverUnderflows(steps: seq<Step>, c: ConnId)
    requires CanRun(INITIAL, steps)
    ensures var s := Final(INITIAL, steps);
            && s.openCount >= 0
            && (Enabled(s, SubtractByCaller(c)) || Enabled(s, SubtractByWorker(c)) ==> s.openCount > 0)
            && (c in s.conns ==> s.conns[c].decrements <= 1 && (s.conns[c].decrements == 1 ==> !s.conns[c].open))
  {
    var s := Final(INITIAL, steps);
    InitialInv();
    RunKeepsInv(INITIAL, steps);
    assert ConnInv(s, c);
    if Enabled(s, SubtractByCaller(c)) || Enabled(s, SubtractByWorker(c)) {
      assert c in Owing(s);
    }
  }

  // ---------------------------------------------------------------- one winner per connection

  /** A closed flag was closed by exactly one of the caller and the worker. */
  lemma OneSwapWins(steps: seq<Step>, c: ConnId)
    requires CanRun(INITIAL, steps)
    requires c in Final(INITIAL, steps).conns
    ensures var conn := Final(INITIAL, steps).conns[c];
            && !(conn.callerWon && conn.workerWon)
            && (conn.callerWon || conn.workerWon <==> conn.opening != Counted && !conn.open)
            && (conn.closing == FoundClosed ==> conn.workerWon)
  {
    InitialInv();
    RunKeepsInv(INITIAL, steps);
    assert ConnInv(Final(INITIAL, steps), c);
  }

  /** A connection is marked as closed with a Forward Close by that step and no other. */
  lemma {:induction false} ForwardClosesOfRun(s: State, steps: seq<Step>, c: ConnId)
    requires CanRun(s, steps)
    ensures var e := Final(s, steps);
            && (c in s.conns ==> c in e.conns)
            && (c in e.conns ==>
                  (e.conns[c].closing == ForwardCloseSent <==>
                     (c in s.conns && s.conns[c].closing == ForwardCloseSent) || SendForwardClose(c) in steps))
    decreases |steps|
  {
    if steps != [] {
      assert steps == [steps[0]] + steps[1..];
      ForwardClosesOfRun(Apply(s, steps[0]), steps[1..], c);
    }
  }

  /** While the worker runs, a finished forward_close call has sent a Forward Close exactly
      when it found the flag open, and then the worker did not. */
  lemma ForwardCloseIffCallerWon(steps: seq<Step>, c: ConnId)
    requires CanRun(INITIAL, steps)
    requires c in Final(INITIAL, steps).conns
    requires Final(INITIAL, steps).running
    ensures var conn := Final(INITIAL, steps).conns[c];
            conn.closing == FoundClosed || conn.closing == ForwardCloseSent || conn.closing == RemoveRefused ==>
              && (SendForwardClose(c) in steps <==> conn.callerWon)
              && conn.callerWon != conn.workerWon
  {
    InitialInv();
    RunKeepsInv(INITIAL, steps);
    ForwardClosesOfRun(INITIAL, steps, c);
    assert ConnInv(Final(INITIAL, steps), c);
  }

  // ---------------------------------------------------------------- the callers always get on

  /** What forward_open does from its reply on. */
  function OpenSteps(c: ConnId, key: ConnectionKey): seq<Step> {
    [CountOpen(c, key), MakeFlag(c), SendAdd(c)]
  }

  /** What forward_close does after a swap that it won. */
  function CloseSteps(c: ConnId): seq<Step> {
    [SubtractByCaller(c), SendRemove(c), SendForwardClose(c)]
  }

  lemma RunOfTwo(s: State, a: Step, b: Step)
    requires Enabled(s, a) && Enabled(Apply(s, a), b)
    ensures CanRun(s, [a, b]) && Final(s, [a, b]) == Apply(Apply(s, a), b)
  {
    var m := Apply(s, a);
    RunOfOne(m, b);
    assert [a, b][1..] == [b];
  }

  lemma RunOfOne(s: State, a: Step)
    requires Enabled(s, a)
    ensures CanRun(s, [a]) && Final(s, [a]) == Apply(s, a)
  {
    assert CanRun(Apply(s, a), []);
    assert [a][1..] == [];
  }

  lemma RunOfThree(s: State, a: Step, b: Step, c: Step)
    requires Enabled(s, a) && Enabled(Apply(s, a), b) && Enabled(Apply(Apply(s, a), b), c)
    ensures CanRun(s, [a, b, c]) && Final(s, [a, b, c]) == Apply(Apply(Apply(s, a), b), c)
  {
    RunOfTwo(Apply(s, a), b, c);
    assert [a, b, c][1..] == [b, c];
  }

  lemma {:induction false} RunOn(s: State, a: seq<Step>, b: seq<Step>)
    requires CanRun(s, a) && CanRun(Final(s, a), b)
    ensures CanRun(s, a + b) && Final(s, a + b) == Final(Final(s, a), b)
    decreases |a|
  {
    if a == [] {
      assert a + b == b;
    } else {
      assert (a + b)[0] == a[0] && (a + b)[1..] == a[1..] + b;
      RunOn(Apply(s, a[0]), a[1..], b);
    }
  }

  /** A connection with a running worker whose forward_open has returned. */
  function Opened(key: ConnectionKey): Conn {
    Conn(key, AddSent, true, NotClosing, false, false, 0, false, 0, false)
  }

  /** From every state, whatever the others are doing, a forward_open can run to its end: with
      a running worker its Add is the last command in the queue, otherwise it is refused; and
      nothing but the counter is different for the others. */
  lemma ForwardOpenRuns(s: State, c: ConnId, key: ConnectionKey)
    requires c !in s.conns
    ensures CanRun(s, OpenSteps(c, key))
    ensures Final(s, OpenSteps(c, key)) ==
              s.(conns := s.conns[c := if s.running then Opened(key) else Opened(key).(opening := AddRefused)],
                 queue := if s.running then s.queue + [Add(c)] else s.queue,
                 openCount := s.openCount + 1)
  {
    RunOfThree(s, CountOpen(c, key), MakeFlag(c), SendAdd(c));
  }

  /** The Add of c is the last command in the queue, or was refused. */
  predicate IsOpenedFrom(s: State, e: State, c: ConnId) {
    && c in e.conns && e.conns[c].open
    && e.conns[c].opening == (if s.running then AddSent else AddRefused)
    && e.queue == s.queue + (if s.running then [Add(c)] else [])
  }

  /** A forward_open that has begun can finish, at any point of any run. */
  lemma BegunOpenCanFinish(run: seq<Step>, c: ConnId)
    requires CanRun(INITIAL, run) && c in Final(INITIAL, run).conns
    requires SendAdd(c) !in run
    ensures exists i: nat :: i < 3 && var rest := OpenSteps(c, Final(INITIAL, run).conns[c].key)[i..];
              && CanRun(INITIAL, run + rest) && SendAdd(c) in rest
              && IsOpenedFrom(Final(INITIAL, run), Final(INITIAL, run + rest), c)
  {
    var s := Final(INITIAL, run);
    var key := s.conns[c].key;
    InitialInv();
    AddSendsOfRun(INITIAL, run, c);
    if s.conns[c].opening == Counted {
      RunOfTwo(s, MakeFlag(c), SendAdd(c));
      assert OpenSteps(c, key)[1..] == [MakeFlag(c), SendAdd(c)];
      RunOn(INITIAL, run, OpenSteps(c, key)[1..]);
      assert SendAdd(c) in OpenSteps(c, key)[1..];
    } else {
      RunOfOne(s, SendAdd(c));
      assert OpenSteps(c, key)[2..] == [SendAdd(c)];
      RunOn(INITIAL, run, OpenSteps(c, key)[2..]);
      assert SendAdd(c) in OpenSteps(c, key)[2..];
    }
  }

  /** An open call on its way: counted, or with its flag made and nothing done to that. */
  predicate IsOpening(s: State, c: ConnId) {
    c in s.conns ==> s.conns[c].opening == Counted || (s.conns[c].opening == FlagMade && s.conns[c].open)
  }

  lemma {:induction false} AddSendsOfRun(s: State, steps: seq<Step>, c: ConnId)
    requires Inv(s) && CanRun(s, steps) && SendAdd(c) !in steps && IsOpening(s, c)
    ensures IsOpening(Final(s, steps), c)
    decreases |steps|
  {
    if steps != [] {
      assert steps[0] in steps && ConnInv(s, c);
      StepKeepsInv(s, steps[0]);
      AddSendsOfRun(Apply(s, steps[0]), steps[1..], c);
    }
  }

  /** What a forward_close leaves behind: if it found the flag open, the counter is one less,
      and with a running worker one Remove is behind everything that was queued and the
      Forward Close is sent; with a stopped one it ends with an error. If it found the flag
      closed, it changes nothing. */
  function AfterClose(s: State, c: ConnId): State
    requires c in s.conns
  {
    var conn := s.conns[c].(open := false);
    if !s.conns[c].open then s.(conns := s.conns[c := conn.(closing := FoundClosed)])
    else
      var won := conn.(callerWon := true, decrements := conn.decrements + 1);
      if s.running then
        s.(conns := s.conns[c := won.(closing := ForwardCloseSent)], queue := s.queue + [Remove(conn.key, c)],
           openCount := s.openCount - 1)
      else
        s.(conns := s.conns[c := won.(closing := RemoveRefused)], openCount := s.openCount - 1)
  }

  /** A caller that holds a handle it has not closed. */
  predicate HoldsHandle(s: State, c: ConnId) {
    c in s.conns && s.conns[c].opening == AddSent && s.conns[c].closing == NotClosing
  }

  lemma WinningCloseRuns(s: State, c: ConnId)
    requires HoldsHandle(s, c) && s.conns[c].open && s.running
    ensures CanRun(s, [SwapByCaller(c)] + CloseSteps(c)) && Final(s, [SwapByCaller(c)] + CloseSteps(c)) == AfterClose(s, c)
  {
    var m := Apply(s, SwapByCaller(c));
    RunOfOne(s, SwapByCaller(c));
    RunOfThree(m, SubtractByCaller(c), SendRemove(c), SendForwardClose(c));
    RunOn(s, [SwapByCaller(c)], CloseSteps(c));
    assert Final(m, CloseSteps(c)).conns == AfterClose(s, c).conns;
  }

  lemma RefusedCloseRuns(s: State, c: ConnId)
    requires HoldsHandle(s, c) && s.conns[c].open && !s.running
    ensures var steps := [SwapByCaller(c), SubtractByCaller(c), SendRemove(c)];
            CanRun(s, steps) && Final(s, steps) == AfterClose(s, c)
  {
    RunOfThree(s, SwapByCaller(c), SubtractByCaller(c), SendRemove(c));
    assert Final(s, [SwapByCaller(c), SubtractByCaller(c), SendRemove(c)]).conns == AfterClose(s, c).conns;
  }

  /** Whatever the others are doing, a forward_close can run to its end. */
  lemma ForwardCloseRuns(s: State, c: ConnId)
    requires HoldsHandle(s, c)
    ensures exists steps: seq<Step> ::
              && CanRun(s, steps) && Final(s, steps) == AfterClose(s, c)
              && (SendForwardClose(c) in steps <==> s.conns[c].open && s.running)
  {
    if !s.conns[c].open {
      RunOfOne(s, SwapByCaller(c));
      assert SendForwardClose(c) !in [SwapByCaller(c)];
    } else if s.running {
      WinningCloseRuns(s, c);
      assert ([SwapByCaller(c)] + CloseSteps(c))[3] == SendForwardClose(c);
    } else {
      RefusedCloseRuns(s, c);
      assert SendForwardClose(c) !in [SwapByCaller(c), SubtractByCaller(c), SendRemove(c)];
    }
  }

  predicate IsClosedBy(e: State, c: ConnId) {
    c in e.conns && e.conns[c].closing == ForwardCloseSent
  }

  lemma RestOfCloseRuns(s: State, c: ConnId) returns (i: nat)
    requires s.running && c in s.conns
    requires s.conns[c].closing == Swapped || s.conns[c].closing == Subtracted || s.conns[c].closing == RemoveSent
    ensures i < 3 && CanRun(s, CloseSteps(c)[i..]) && SendForwardClose(c) in CloseSteps(c)[i..]
    ensures IsClosedBy(Final(s, CloseSteps(c)[i..]), c)
  {
    var steps := CloseSteps(c);
    if s.conns[c].closing == Swapped {
      i := 0;
      RunOfThree(s, SubtractByCaller(c), SendRemove(c), SendForwardClose(c));
      assert steps[0..] == steps;
    } else if s.conns[c].closing == Subtracted {
      i := 1;
      RunOfTwo(s, SendRemove(c), SendForwardClose(c));
      assert steps[1..] == [SendRemove(c), SendForwardClose(c)];
    } else {
      i := 2;
      RunOfOne(s, SendForwardClose(c));
      assert steps[2..] == [SendForwardClose(c)];
    }
    assert steps[i..][2 - i] == SendForwardClose(c);
  }

  /** At any point of any run with a running worker, a forward_close that has won its swap can
      take its remaining steps at once, and they end with the Forward Close sent. */
  lemma WonCloseCanFinish(run: seq<Step>, c: ConnId)
    requires CanRun(INITIAL, run) && Final(INITIAL, run).running
    requires c in Final(INITIAL, run).conns && Final(INITIAL, run).conns[c].callerWon
    requires SendForwardClose(c) !in run
    ensures exists i: nat :: i < 3 && var rest := CloseSteps(c)[i..];
              && CanRun(INITIAL, run + rest) && SendForwardClose(c) in rest
              && IsClosedBy(Final(INITIAL, run + rest), c)
  {
    var s := Final(INITIAL, run);
    InitialInv();
    RunKeepsInv(INITIAL, run);
    assert ConnInv(s, c);
    ForwardClosesOfRun(INITIAL, run, c);
    var i := RestOfCloseRuns(s, c);
    RunOn(INITIAL, run, CloseSteps(c)[i..]);
  }

  /** The worker can stop at any moment, and then nobody but the callers takes a step. */
  lemma WorkerCanStop(s: State)
    requires s.running
    ensures CanRun(s, [StopWorker]) && Final(s, [StopWorker]) == s.(running := false)
  {
    RunOfOne(s, StopWorker);
  }

  lemma {:induction false} StoppedWorkerDoesNothing(s: State, steps: seq<Step>)
    requires CanRun(s, steps) && !s.running
    ensures forall i | 0 <= i < |steps| :: ByCaller(steps[i])
    ensures Final(s, steps).queue == s.queue && Final(s, steps).table == s.table
    decreases |steps|
  {
    if steps != [] {
      StoppedWorkerDoesNothing(Apply(s, steps[0]), steps[1..]);
    }
  }

  /** A forward_close that finds the worker stopped never sends a Forward Close. */
  lemma {:induction false} RefusedCloseSendsNothing(s: State, steps: seq<Step>, c: ConnId)
    requires CanRun(s, steps) && c in s.conns && s.conns[c].closing == RemoveRefused
    ensures SendForwardClose(c) !in steps
    decreases |steps|
  {
    if steps != [] {
      RefusedCloseSendsNothing(Apply(s, steps[0]), steps[1..], c);
    }
  }

  // ---------------------------------------------------------------- the on_close callback

  lemma {:induction false} FinalOfSplit(s: State, a: seq<Step>, b: seq<Step>)
    requires CanRun(s, a + b)
    ensures CanRun(s, a) && CanRun(Final(s, a), b) && Final(s, a + b) == Final(Final(s, a), b)
    decreases |a|
  {
    if a == [] {
      assert a + b == b;
    } else {
      assert (a + b)[0] == a[0] && (a + b)[1..] == a[1..] + b;
      FinalOfSplit(Apply(s, a[0]), a[1..], b);
    }
  }

  lemma HistoryOfStep(s: State, step: Step, c: ConnId)
    requires Inv(s) && Enabled(s, step)
    ensures var s' := Apply(s, step);
            && (c in s.conns ==>
                  && c in s'.conns
                  && s'.conns[c].onCloseRuns == s.conns[c].onCloseRuns + (if step == RunOnClose(c) then 1 else 0)
                  && s'.conns[c].expired == (s.conns[c].expired || step == ExpireEntry(c))
                  && s'.conns[c].removeDrained == (s.conns[c].removeDrained || step == DrainRemove(c)))
            && (c !in s.conns ==>
                  && step != RunOnClose(c) && step != ExpireEntry(c) && step != DrainRemove(c)
                  && (c in s'.conns ==>
                        s'.conns[c].onCloseRuns == 0 && !s'.conns[c].expired && !s'.conns[c].removeDrained))
  {
  }

  /** The history fields say which steps the run took. */
  lemma {:induction false} HistoryOfRun(s: State, steps: seq<Step>, c: ConnId)
    requires Inv(s) && CanRun(s, steps)
    ensures var e := Final(s, steps);
            && (c in s.conns ==> c in e.conns)
            && (c in e.conns ==>
                  && e.conns[c].onCloseRuns == (if c in s.conns then s.conns[c].onCloseRuns else 0) + multiset(steps)[RunOnClose(c)]
                  && e.conns[c].expired == ((c in s.conns && s.conns[c].expired) || ExpireEntry(c) in steps)
                  && e.conns[c].removeDrained == ((c in s.conns && s.conns[c].removeDrained) || DrainRemove(c) in steps))
            && (c !in e.conns ==> RunOnClose(c) !in steps)
    decreases |steps|
  {
    if steps != [] {
      assert steps == [steps[0]] + steps[1..];
      StepKeepsInv(s, steps[0]);
      HistoryOfStep(s, steps[0], c);
      HistoryOfRun(Apply(s, steps[0]), steps[1..], c);
    }
  }

  /** on_close of a connection runs at most once in any run, only after a timeout took
      that connection out of the table, and never after its Remove was received. */
  lemma OnCloseOnceAfterTimeout(before: seq<Step>, c: ConnId, after: seq<Step>)
    requires CanRun(INITIAL, before + [RunOnClose(c)] + after)
    ensures RunOnClose(c) !in before && RunOnClose(c) !in after
    ensures ExpireEntry(c) in before
    ensures DrainRemove(c) !in before
  {
    var steps := before + [RunOnClose(c)] + after;
    InitialInv();
    RunKeepsInv(INITIAL, steps);
    HistoryOfRun(INITIAL, steps, c);
    FinalOfSplit(INITIAL, before + [RunOnClose(c)], after);
    FinalOfSplit(INITIAL, before, [RunOnClose(c)]);
    var s := Final(INITIAL, before);
    RunKeepsInv(INITIAL, before);
    HistoryOfRun(INITIAL, before, c);
    assert ConnInv(s, c);
    assert ConnInv(Final(INITIAL, steps), c);
    assert multiset(steps) == multiset(before) + multiset{RunOnClose(c)} + multiset(after);
    assert Enabled(s, RunOnClose(c));
  }

  /** In every run on_close of a connection has run exactly once if the connection was found
      timed out, and not at all otherwise, unless the worker is just about to run it. */
  lemma OnCloseRunsIffTimedOut(steps: seq<Step>, c: ConnId)
    requires CanRun(INITIAL, steps)
    requires c in Final(INITIAL, steps).conns && !HeldByWorker(Final(INITIAL, steps), c)
    ensures multiset(steps)[RunOnClose(c)] == if ExpireEntry(c) in steps then 1 else 0
  {
    InitialInv();
    RunKeepsInv(INITIAL, steps);
    HistoryOfRun(INITIAL, steps, c);
    assert ConnInv(Final(INITIAL, steps), c);
  }

  /** When on_close runs for a connection that was closed by forward_close: exactly when the
      worker had found it timed out before it received the Remove. If it had, on_close ran
      once; if not, on_close never runs, as documented. */
  lemma OnCloseAfterForwardCloseIff(before: seq<Step>, c: ConnId, after: seq<Step>)
    requires CanRun(INITIAL, before + [DrainRemove(c)] + after)
    ensures var steps := before + [DrainRemove(c)] + after;
            && c in Final(INITIAL, steps).conns && Final(INITIAL, steps).conns[c].callerWon
            && multiset(steps)[RunOnClose(c)] == if ExpireEntry(c) in before then 1 else 0
  {
    var steps := before + [DrainRemove(c)] + after;
    FinalOfSplit(INITIAL, before + [DrainRemove(c)], after);
    FinalOfSplit(INITIAL, before, [DrainRemove(c)]);
    InitialInv();
    RunKeepsInv(INITIAL, before);
    RunKeepsInv(INITIAL, steps);
    assert Enabled(Final(INITIAL, before), DrainRemove(c));
    OnCloseRunsIffTimedOut(before, c);
    HistoryOfRun(INITIAL, before, c);
    HistoryOfRun(Final(INITIAL, before), [DrainRemove(c)] + after, c);
    HistoryOfRun(INITIAL, steps, c);
    assert ConnInv(Final(INITIAL, steps), c);
    NoOnCloseAfterRemove(before, c, after);
    assert multiset(steps) == multiset(before) + multiset{DrainRemove(c)} + multiset(after);
  }

  lemma NoOnCloseAfterRemove(before: seq<Step>, c: ConnId, after: seq<Step>)
    requires CanRun(INITIAL, before + [DrainRemove(c)] + after)
    ensures RunOnClose(c) !in after
  {
    if RunOnClose(c) in after {
      var i :| 0 <= i < |after| && after[i] == RunOnClose(c);
      var upTo := before + [DrainRemove(c)] + after[..i];
      assert before + [DrainRemove(c)] + after == upTo + [RunOnClose(c)] + after[i + 1..];
      assert upTo[|before|] == DrainRemove(c);
      OnCloseOnceAfterTimeout(upTo, c, after[i + 1..]);
    }
  }

  // ---------------------------------------------------------------- where a connection is

  /** Under a running worker, a table entry whose flag is closed has exactly one Remove,
      either in the queue or about to be sent by the caller that closed it. */
  lemma ClosedEntryIsBeingRemoved(steps: seq<Step>, c: ConnId)
    requires CanRun(INITIAL, steps)
    requires var s := Final(INITIAL, steps); s.running && InTable(s, c) && !s.conns[c].open
    ensures var s := Final(INITIAL, steps);
            var sending := s.conns[c].closing == Swapped || s.conns[c].closing == Subtracted;
            multiset(s.queue)[Remove(s.conns[c].key, c)] == if sending then 0 else 1
  {
    InitialInv();
    RunKeepsInv(INITIAL, steps);
    assert ConnInv(Final(INITIAL, steps), c);
  }

  /** Somewhere an open connection is handed on or served. */
  predicate Placed(s: State, c: ConnId)
    requires c in s.conns
  {
    s.conns[c].opening == FlagMade || Add(c) in s.queue || InTable(s, c) || s.worker == TimedOut(c) || s.worker == Rejecting(c)
  }

  /** In how many places a connection is. */
  function Places(s: State, c: ConnId): nat
    requires c in s.conns
  {
    (if s.conns[c].opening == FlagMade then 1 else 0) + multiset(s.queue)[Add(c)] +
    (if InTable(s, c) then 1 else 0) + (if s.worker == TimedOut(c) || s.worker == Rejecting(c) then 1 else 0)
  }

  predicate IsOpen(s: State, c: ConnId) {
    c in s.conns && s.conns[c].open
  }

  /** The step receives the Remove of another connection and takes c out of the table,
      because both have the same key. */
  predicate Ousts(s: State, step: Step, c: ConnId) {
    step.DrainRemove? && step.c != c && IsOpen(s, c) && InTable(s, c) && s.queue != [] && s.queue[0] == Remove(s.conns[c].key, step.c)
  }

  predicate Ousted(s: State, steps: seq<Step>, c: ConnId)
    requires CanRun(s, steps)
    decreases |steps|
  {
    steps != [] && (Ousts(s, steps[0], c) || Ousted(Apply(s, steps[0]), steps[1..], c))
  }

  /** Steps of the callers place a connection with its flag and never lose it. */
  lemma PlacedAfterCaller(s: State, step: Step, c: ConnId)
    requires ByCaller(step) && Enabled(s, step) && ConnInv(s, c) && s.running && IsOpen(Apply(s, step), c)
    ensures Placed(Apply(s, step), c) <==> (IsOpen(s, c) ==> Placed(s, c))
  {
  }

  lemma PlacedAfterDrain(s: State, step: Step, c: ConnId)
    requires (step.DrainAdd? || step.DrainRemove?) && Enabled(s, step) && ConnInv(s, c) && IsOpen(Apply(s, step), c)
    ensures Placed(Apply(s, step), c) <==> Placed(s, c) && !Ousts(s, step, c)
  {
    QueueHead(s.queue, Add(c));
    QueueHead(s.queue, Remove(s.conns[c].key, c));
  }

  lemma PlacedAfterWorker(s: State, step: Step, c: ConnId)
    requires !ByCaller(step) && !step.DrainAdd? && !step.DrainRemove? && !step.StopWorker?
    requires Enabled(s, step) && ConnInv(s, c) && IsOpen(Apply(s, step), c)
    ensures Placed(Apply(s, step), c) <==> Placed(s, c)
  {
  }

  /** A step leaves an open connection in a place exactly when it was in one and the step
      does not oust it; a connection whose flag the step makes is in one. */
  lemma PlacedAfterStep(s: State, step: Step, c: ConnId)
    requires Enabled(s, step) && ConnInv(s, c) && Apply(s, step).running && IsOpen(Apply(s, step), c)
    ensures Placed(Apply(s, step), c) <==> (IsOpen(s, c) ==> Placed(s, c)) && !Ousts(s, step, c)
  {
    if ByCaller(step) {
      PlacedAfterCaller(s, step, c);
    } else if step.DrainAdd? || step.DrainRemove? {
      PlacedAfterDrain(s, step, c);
    } else {
      PlacedAfterWorker(s, step, c);
    }
  }

  lemma {:induction false} ClosedStaysClosed(s: State, steps: seq<Step>, c: ConnId)
    requires CanRun(s, steps) && c in s.conns && !s.conns[c].open && s.conns[c].opening != Counted
    ensures !IsOpen(Final(s, steps), c)
    decreases |steps|
  {
    if steps != [] {
      ClosedStaysClosed(Apply(s, steps[0]), steps[1..], c);
    }
  }

  lemma {:induction false} StoppedStaysStopped(s: State, steps: seq<Step>)
    requires CanRun(s, steps) && !s.running
    ensures !Final(s, steps).running
    decreases |steps|
  {
    if steps != [] {
      StoppedStaysStopped(Apply(s, steps[0]), steps[1..]);
    }
  }

  lemma {:induction false} PlacedAfterRun(s: State, steps: seq<Step>, c: ConnId)
    requires Inv(s) && CanRun(s, steps) && Final(s, steps).running && IsOpen(Final(s, steps), c)
    ensures Placed(Final(s, steps), c) <==> (IsOpen(s, c) ==> Placed(s, c)) && !Ousted(s, steps, c)
    decreases |steps|
  {
    if steps != [] {
      var m := Apply(s, steps[0]);
      assert ConnInv(s, c);
      StepKeepsInv(s, steps[0]);
      PlacedAfterRun(m, steps[1..], c);
      if !m.running {
        StoppedStaysStopped(m, steps[1..]);
      } else if IsOpen(m, c) {
        PlacedAfterStep(s, steps[0], c);
      } else if IsOpen(s, c) {
        ClosedStaysClosed(m, steps[1..], c);
      }
    }
  }

  /** In every interleaving, whatever keys the target grants: while the worker runs, an open
      connection is in exactly one place, unless the Remove of another connection with the
      same key took it out of the table, and then it is in none. */
  lemma OpenConnectionIsPlacedUnlessOusted(steps: seq<Step>, c: ConnId)
    requires CanRun(INITIAL, steps)
    requires Final(INITIAL, steps).running && IsOpen(Final(INITIAL, steps), c)
    ensures Places(Final(INITIAL, steps), c) == if Ousted(INITIAL, steps, c) then 0 else 1
  {
    InitialInv();
    RunKeepsInv(INITIAL, steps);
    PlacedAfterRun(INITIAL, steps, c);
    assert ConnInv(Final(INITIAL, steps), c);
  }

  /** Two connections with the same key: one of them is out of the way. */
  ghost predicate KeysInv(s: State) {
    forall c, d | c in s.conns && d in s.conns && c != d && s.conns[c].key == s.conns[d].key ::
      Retired(s, c) || Retired(s, d)
  }

  ghost predicate FreshInv(s: State) {
    && Inv(s)
    && KeysInv(s)
    && !s.worker.Rejecting?
    && (s.worker.Subtracting? ==> s.worker.notify)
  }

  lemma RetiredStays(s: State, step: Step, c: ConnId)
    requires Enabled(s, step) && ConnInv(s, c) && c in s.conns && Retired(s, c)
    ensures Retired(Apply(s, step), c)
  {
    if s.queue != [] {
      QueueHead(s.queue, Add(c));
      QueueHead(s.queue, Remove(s.conns[c].key, c));
    }
  }

  /** A key that is granted is not shared with anyone who is still around. */
  lemma GrantKeepsKeys(s: State, step: Step, c: ConnId)
    requires Enabled(s, step) && GrantsFreshKey(s, step) && step.CountOpen? && ConnInv(s, c)
    requires c in s.conns && c != step.c && s.conns[c].key == step.key
    ensures Retired(Apply(s, step), c)
  {
    RetiredStays(s, step, c);
  }

  lemma KeyStays(s: State, step: Step, c: ConnId)
    requires Enabled(s, step) && c in Apply(s, step).conns
    ensures c in s.conns ==> Apply(s, step).conns[c].key == s.conns[c].key
    ensures c !in s.conns ==> step.CountOpen? && step.c == c && Apply(s, step).conns[c].key == step.key
  {
  }

  lemma FreshStepKeepsKeys(s: State, step: Step)
    requires FreshInv(s) && Enabled(s, step) && GrantsFreshKey(s, step)
    ensures KeysInv(Apply(s, step))
  {
    var s' := Apply(s, step);
    forall c, d | c in s'.conns && d in s'.conns && c != d && s'.conns[c].key == s'.conns[d].key
      ensures Retired(s', c) || Retired(s', d)
    {
      assert ConnInv(s, c) && ConnInv(s, d);
      KeyStays(s, step, c);
      KeyStays(s, step, d);
      if c !in s.conns {
        GrantKeepsKeys(s, step, d);
      } else if d !in s.conns {
        GrantKeepsKeys(s, step, c);
      } else if Retired(s, c) {
        RetiredStays(s, step, c);
      } else {
        RetiredStays(s, step, d);
      }
    }
  }

  /** What a received Remove takes out of the table is the connection it was sent for. */
  lemma RemoveHitsItsOwner(s: State, c: ConnId)
    requires FreshInv(s) && Enabled(s, DrainRemove(c))
    ensures s.conns[c].key == s.queue[0].key
    ensures s.queue[0].key in s.table ==> s.table[s.queue[0].key] == c
  {
    var key := s.queue[0].key;
    assert ConnInv(s, c);
    assert s.queue[0] == Remove(key, c) && s.queue[0] in s.queue;
    if key in s.table {
      assert ConnInv(s, s.table[key]);
      assert !Retired(s, s.table[key]);
    }
  }

  /** With fresh keys the worker never finds the key of an Add occupied. */
  lemma AddFindsItsKeyFree(s: State, c: ConnId)
    requires FreshInv(s) && Enabled(s, DrainAdd(c))
    ensures s.conns[c].key !in s.table
  {
    var key := s.conns[c].key;
    assert ConnInv(s, c);
    assert s.queue[0] in s.queue;
    if key in s.table && ConnInv(s, s.table[key]) {
      assert false;
    }
  }

  lemma FreshStepKeepsInv(s: State, step: Step)
    requires FreshInv(s) && Enabled(s, step) && GrantsFreshKey(s, step)
    ensures FreshInv(Apply(s, step))
  {
    var s' := Apply(s, step);
    StepKeepsInv(s, step);
    FreshStepKeepsKeys(s, step);
    if step.DrainAdd? {
      AddFindsItsKeyFree(s, step.c);
    }
  }

  lemma {:induction false} FreshRunKeepsInv(s: State, steps: seq<Step>)
    requires FreshInv(s) && CanRunFresh(s, steps)
    ensures CanRun(s, steps) && FreshInv(Final(s, steps))
    decreases |steps|
  {
    if steps != [] {
      FreshStepKeepsInv(s, steps[0]);
      FreshRunKeepsInv(Apply(s, steps[0]), steps[1..]);
    }
  }

  /** With fresh keys no connection is ousted. */
  lemma {:induction false} FreshRunOustsNobody(s: State, steps: seq<Step>, c: ConnId)
    requires FreshInv(s) && CanRunFresh(s, steps)
    ensures CanRun(s, steps) && !Ousted(s, steps, c)
    decreases |steps|
  {
    FreshRunKeepsInv(s, steps);
    if steps != [] {
      FreshStepKeepsInv(s, steps[0]);
      if Ousts(s, steps[0], c) {
        RemoveHitsItsOwner(s, steps[0].c);
      }
      FreshRunOustsNobody(Apply(s, steps[0]), steps[1..], c);
    }
  }

  /** In every interleaving with fresh keys and a running worker, each connection whose
      flag is open is in exactly one place: about to be sent, once in the queue, in the
      table, or held by the worker because it timed out. */
  lemma OpenConnectionIsInOnePlace(steps: seq<Step>, c: ConnId)
    requires CanRunFresh(INITIAL, steps)
    ensures CanRun(INITIAL, steps)
    ensures var s := Final(INITIAL, steps);
            s.running && IsOpen(s, c) ==> Places(s, c) == 1 && s.worker != Rejecting(c)
  {
    InitialInv();
    FreshRunKeepsInv(INITIAL, steps);
    FreshRunOustsNobody(INITIAL, steps, c);
    if Final(INITIAL, steps).running && IsOpen(Final(INITIAL, steps), c) {
      OpenConnectionIsPlacedUnlessOusted(steps, c);
    }
  }

  /** When nothing is in flight, the counter, the open flags and the table agree. */
  lemma QuiescentTableIsTheOpenConnections(steps: seq<Step>)
    requires CanRunFresh(INITIAL, steps)
    ensures CanRun(INITIAL, steps)
    ensures var s := Final(INITIAL, steps);
            && s.running && s.queue == [] && s.worker == Idle
            && (forall c | c in s.conns :: s.conns[c].opening == AddSent &&
                  s.conns[c].closing in {NotClosing, ForwardCloseSent, FoundClosed})
            ==>
            && s.openCount == |OpenFlags(s)|
            && (forall c | c in s.conns :: s.conns[c].open <==> InTable(s, c))
  {
    InitialInv();
    FreshRunKeepsInv(INITIAL, steps);
    var s := Final(INITIAL, steps);
    CountInInvState(s);
    if && s.running && s.queue == [] && s.worker == Idle
       && (forall c | c in s.conns :: s.conns[c].opening == AddSent &&
             s.conns[c].closing in {NotClosing, ForwardCloseSent, FoundClosed})
    {
      assert HalfOpened(s) == {} && HalfClosed(s) == {};
      forall c | c in s.conns ensures s.conns[c].open <==> InTable(s, c) {
        assert ConnInv(s, c);
        OpenConnectionIsInOnePlace(steps, c);
      }
    }
  }

  // ---------------------------------------------------------------- what the hypotheses are for

  lemma {:induction false} ExtendRun(s: State, steps: seq<Step>, step: Step)
    requires CanRun(s, steps) && Enabled(Final(s, steps), step)
    ensures CanRun(s, steps + [step]) && Final(s, steps + [step]) == Apply(Final(s, steps), step)
    decreases |steps|
  {
    if steps == [] {
      assert steps + [step] == [step];
      assert CanRun(Apply(s, step), []);
    } else {
      assert (steps + [step])[0] == steps[0] && (steps + [step])[1..] == steps[1..] + [step];
      ExtendRun(Apply(s, steps[0]), steps[1..], step);
    }
  }

  /** Some interleaving ends in s. */
  ghost predicate Reachable(s: State) {
    exists steps: seq<Step> :: CanRun(INITIAL, steps) && Final(INITIAL, steps) == s
  }

  lemma Reach(s: State, step: Step) returns (s': State)
    requires Reachable(s) && Enabled(s, step)
    ensures s' == Apply(s, step) && Reachable(s')
  {
    s' := Apply(s, step);
    var steps :| CanRun(INITIAL, steps) && Final(INITIAL, steps) == s;
    ExtendRun(INITIAL, steps, step);
  }

  /** forward_open of connection c returns. */
  lemma ReachSent(s: State, c: ConnId, key: ConnectionKey) returns (s': State)
    requires Reachable(s) && s.running && c !in s.conns
    ensures Reachable(s')
    ensures s' == s.(conns := s.conns[c := Conn(key, AddSent, true, NotClosing, false, false, 0, false, 0, false)],
                     queue := s.queue + [Add(c)], openCount := s.openCount + 1)
  {
    s' := Reach(s, CountOpen(c, key));
    s' := Reach(s', MakeFlag(c));
    s' := Reach(s', SendAdd(c));
  }

  /** forward_open of connection c returns and the worker receives its Add. */
  lemma ReachOpened(s: State, c: ConnId, key: ConnectionKey) returns (s': State)
    requires Reachable(s) && s.running && s.worker == Idle && s.queue == [] && c !in s.conns && key !in s.table
    ensures Reachable(s')
    ensures s' == s.(conns := s.conns[c := Conn(key, AddSent, true, NotClosing, false, false, 0, false, 0, false)],
                     table := s.table[key := c], openCount := s.openCount + 1)
  {
    s' := ReachSent(s, c, key);
    s' := Reach(s', DrainAdd(c));
  }

  /** forward_close wins the swap of connection 0, and the worker then times the same
      connection out before Remove is sent. */
  lemma ReachRace(key: ConnectionKey) returns (s: State)
    ensures Reachable(s)
    ensures s == INITIAL.(conns := map[0 := Conn(key, AddSent, false, Subtracted, true, false, 1, true, 1, false)])
  {
    assert CanRun(INITIAL, []) && Final(INITIAL, []) == INITIAL;
    s := ReachOpened(INITIAL, 0, key);
    s := Reach(s, SwapByCaller(0));
    s := Reach(s, SubtractByCaller(0));
    s := Reach(s, ExpireEntry(0));
    s := Reach(s, SwapByWorker(0));
    s := Reach(s, RunOnClose(0));
    assert s.conns == map[0 := Conn(key, AddSent, false, Subtracted, true, false, 1, true, 1, false)];
  }

  /** The documentation of on_close says it is not called on forward close. It is, when
      the timeout is noticed between the caller's swap and the receipt of its Remove. */
  lemma OnCloseCanFollowForwardClose(key: ConnectionKey)
    ensures exists s :: Reachable(s) && 0 in s.conns && s.conns[0].callerWon && s.conns[0].onCloseRuns == 1
  {
    var s := ReachRace(key);
  }

  /** Why keys must be fresh: a late Remove takes a later connection with the same key
      out of the table, and that connection stays open and counted, in no place. */
  lemma StaleRemoveOrphansNewHolder(key: ConnectionKey)
    ensures exists s :: Reachable(s) && s.running && s.openCount == 1 && s.table == map[] && s.queue == [] &&
                        1 in s.conns && s.conns[1].open && !Placed(s, 1)
  {
    var s := ReachRace(key);
    s := ReachOpened(s, 1, key);
    s := Reach(s, SendRemove(0));
    s := Reach(s, DrainRemove(0));
  }

  /** Why the worker must be running: once an Add was refused, its increment is never
      undone, so has_open_connections answers true in every later state. */
  lemma {:induction false} RefusedAddIsNeverUndone(s: State, steps: seq<Step>, c: ConnId)
    requires Inv(s) && CanRun(s, steps)
    requires c in s.conns && s.conns[c].opening == AddRefused && s.conns[c].open
    ensures var e := Final(s, steps);
            c in e.conns && e.conns[c].opening == AddRefused && e.conns[c].open && e.openCount > 0
    decreases |steps|
  {
    if steps == [] {
      assert c in Owing(s);
    } else {
      assert ConnInv(s, c);
      StepKeepsInv(s, steps[0]);
      RefusedAddIsNeverUndone(Apply(s, steps[0]), steps[1..], c);
    }
  }

  lemma RefusedAddIsReachable(key: ConnectionKey)
    ensures exists s :: Reachable(s) && 0 in s.conns && s.conns[0].opening == AddRefused && s.conns[0].open
  {
    assert CanRun(INITIAL, []) && Final(INITIAL, []) == INITIAL;
    var s := Reach(INITIAL, CountOpen(0, key));
    s := Reach(s, MakeFlag(0));
    s := Reach(s, StopWorker);
    s := Reach(s, SendAdd(0));
  }
}
