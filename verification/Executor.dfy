/**
 The executors of aria/utils/threading.py.

 `FixedThreadPoolExecutor` is a state machine: its shared state is a `Pool` and its atomic steps are
 the actions below, taken by the workers and the calling thread in any interleaving. A task may
 submit further tasks while it runs. Thread number |workers| is the caller.
 `BlockingExecutor` is the simple counterpart that runs each task when it is submitted.
 */
module Executor {
  import opened Wrappers
  import opened Counting

  datatype Entry<T> = Entry(id: nat, task: T)

  datatype Item<T> = Work(entry: Entry<T>) | Cyanide

  datatype Outcome<R, E> = Return(value: R) | Raise(error: E)

  /** What a worker thread is doing; `Recorded` is between storing an outcome and task_done. */
  datatype Worker<T> = Idle | Running(entry: Entry<T>) | Recorded(id: nat) | Dead

  datatype Caller = Open | Closing | Closed

  /**
   `submitted` logs every task by its id, so its length is the id counter. `pending[t]` is an id that
   thread t took from the counter for a task it has not put in the queue yet.
   */
  datatype Pool<T, R, E> = Pool(
    submitted: seq<T>,
    queue: seq<Item<T>>,
    workers: seq<Worker<T>>,
    pending: seq<Option<Entry<T>>>,
    caller: Caller,
    returned: map<nat, R>,
    raised: map<nat, E>,
    unfinished: nat)

  datatype Action<T, R, E> =
    | TakeId(thread: nat, task: T)
    | Put(thread: nat)
    | Get(worker: nat)
    | Record(worker: nat, outcome: Outcome<R, E>)
    | TaskDone(worker: nat)
    | BeginClose
    | Poison
    | FinishClose

  function Init<T, R, E>(size: nat): Pool<T, R, E> {
    Pool([], [], seq(size, _ => Idle), seq(size + 1, _ => None), Open, map[], map[], 0)
  }

  /** A thread may submit while it runs a task; the caller may until it closes the pool. */
  predicate MaySubmit<T, R, E>(p: Pool<T, R, E>, thread: nat) {
    if thread < |p.workers| then p.workers[thread].Running? else thread == |p.workers| && p.caller.Open?
  }

  /** The queue's join returns to the caller. */
  predicate Drained<T, R, E>(p: Pool<T, R, E>) {
    p.caller.Open? && |p.pending| == |p.workers| + 1 && p.pending[|p.workers|].None? && p.unfinished == 0
  }

  predicate Enabled<T, R, E>(p: Pool<T, R, E>, a: Action<T, R, E>) {
    && |p.pending| == |p.workers| + 1
    && match a
       case TakeId(t, _) => MaySubmit(p, t) && p.pending[t].None?
       case Put(t) => MaySubmit(p, t) && p.pending[t].Some?
       case Get(w) => w < |p.workers| && p.workers[w].Idle? && p.queue != []
       case Record(w, _) => w < |p.workers| && p.workers[w].Running? && p.pending[w].None?
       case TaskDone(w) => w < |p.workers| && p.workers[w].Recorded? && p.unfinished > 0
       case BeginClose => Drained(p)
       case Poison => p.caller.Closing?
       case FinishClose => p.caller.Closing? && forall w | 0 <= w < |p.workers| :: p.workers[w].Dead?
  }

  function Do<T, R, E>(p: Pool<T, R, E>, a: Action<T, R, E>): Pool<T, R, E>
    requires Enabled(p, a)
  {
    match a
    case TakeId(t, task) =>
      p.(submitted := p.submitted + [task], pending := p.pending[t := Some(Entry(|p.submitted|, task))])
    case Put(t) =>
      p.(queue := p.queue + [Work(p.pending[t].value)], pending := p.pending[t := None], unfinished := p.unfinished + 1)
    case Get(w) =>
      p.(queue := p.queue[1..],
         workers := p.workers[w := match p.queue[0] case Work(entry) => Running(entry) case Cyanide => Dead])
    case Record(w, outcome) =>
      var id := p.workers[w].entry.id;
      var p' := p.(workers := p.workers[w := Recorded(id)]);
      (match outcome
       case Return(v) => p'.(returned := p.returned[id := v])
       case Raise(e) => p'.(raised := p.raised[id := e]))
    case TaskDone(w) =>
      p.(workers := p.workers[w := Idle], unfinished := p.unfinished - 1)
    case BeginClose => p.(caller := Closing)
    case Poison => p.(queue := p.queue + [Cyanide], unfinished := p.unfinished + 1)
    case FinishClose => p.(caller := Closed)
  }

  // ----- Invariants

  ghost function QueueSlots<T>(queue: seq<Item<T>>): seq<Option<nat>> {
    seq(|queue|, i requires 0 <= i < |queue| => if queue[i].Work? then Some(queue[i].entry.id) else None)
  }

  ghost function WorkerSlots<T>(workers: seq<Worker<T>>): seq<Option<nat>> {
    seq(|workers|, i requires 0 <= i < |workers| => if workers[i].Running? then Some(workers[i].entry.id) else None)
  }

  ghost function PendingSlots<T>(pending: seq<Option<Entry<T>>>): seq<Option<nat>> {
    seq(|pending|, i requires 0 <= i < |pending| => if pending[i].Some? then Some(pending[i].value.id) else None)
  }

  /** In how many places a task is: about to be put, in the queue, running, or recorded. */
  ghost function Places<T, R, E>(p: Pool<T, R, E>, id: nat): nat {
    Copies(PendingSlots(p.pending), id) + Copies(QueueSlots(p.queue), id) + Copies(WorkerSlots(p.workers), id)
    + (if id in p.returned then 1 else 0) + (if id in p.raised then 1 else 0)
  }

  /** Every task is in exactly one place, and nothing else is anywhere. */
  ghost predicate Conserved<T, R, E>(p: Pool<T, R, E>) {
    forall id: nat :: Places(p, id) == if id < |p.submitted| then 1 else 0
  }

  /** An entry carries the task that its id was given to. */
  ghost predicate Genuine<T, R, E>(p: Pool<T, R, E>, entry: Entry<T>) {
    entry.id < |p.submitted| && p.submitted[entry.id] == entry.task
  }

  ghost predicate AllGenuine<T, R, E>(p: Pool<T, R, E>) {
    && (forall i | 0 <= i < |p.queue| :: p.queue[i].Work? ==> Genuine(p, p.queue[i].entry))
    && (forall w | 0 <= w < |p.workers| :: p.workers[w].Running? ==> Genuine(p, p.workers[w].entry))
    && (forall t | 0 <= t < |p.pending| :: p.pending[t].Some? ==> Genuine(p, p.pending[t].value))
  }

  /** How much of the unfinished count a worker holds: a dead worker has taken a marker without task_done. */
  ghost function Load<T>(w: Worker<T>): nat {
    if w.Idle? then 0 else 1
  }

  ghost function Loads<T>(workers: seq<Worker<T>>): seq<nat> {
    seq(|workers|, i requires 0 <= i < |workers| => Load(workers[i]))
  }

  ghost predicate Counted<T, R, E>(p: Pool<T, R, E>) {
    p.unfinished == |p.queue| + Total(Loads(p.workers))
  }

  ghost predicate NoMarkers<T, R, E>(p: Pool<T, R, E>) {
    && (forall i | 0 <= i < |p.queue| :: p.queue[i].Work?)
    && (forall w | 0 <= w < |p.workers| :: !p.workers[w].Dead?)
  }

  ghost predicate OnlyMarkers<T, R, E>(p: Pool<T, R, E>) {
    && (forall i | 0 <= i < |p.queue| :: p.queue[i].Cyanide?)
    && (forall w | 0 <= w < |p.workers| :: p.workers[w].Idle? || p.workers[w].Dead?)
  }

  /** Only a thread that may submit holds an unqueued task, and markers exist only once closing has begun. */
  ghost predicate Phased<T, R, E>(p: Pool<T, R, E>) {
    && |p.pending| == |p.workers| + 1
    && (forall t | 0 <= t < |p.pending| :: p.pending[t].Some? ==> MaySubmit(p, t))
    && (forall w | 0 <= w < |p.workers| :: p.workers[w].Recorded? ==>
        p.workers[w].id in p.returned || p.workers[w].id in p.raised)
    && (if p.caller.Open? then NoMarkers(p) else OnlyMarkers(p))
    && (p.caller.Closed? ==> forall w | 0 <= w < |p.workers| :: p.workers[w].Dead?)
  }

  ghost predicate Inv<T, R, E>(p: Pool<T, R, E>) {
    Conserved(p) && AllGenuine(p) && Counted(p) && Phased(p)
  }

  lemma InitInv<T, R, E>(size: nat)
    ensures Inv(Init<T, R, E>(size))
  {
    var p := Init<T, R, E>(size);
    forall id: nat
      ensures Places(p, id) == 0
    {
      NoCopies(PendingSlots(p.pending), id);
      NoCopies(WorkerSlots(p.workers), id);
    }
    TotalZero(Loads(p.workers));
  }

  lemma QueuePop<T>(queue: seq<Item<T>>, id: nat)
    requires queue != []
    ensures Copies(QueueSlots(queue), id) == Holds(QueueSlots(queue)[0], id) + Copies(QueueSlots(queue[1..]), id)
  {
    assert QueueSlots(queue)[1..] == QueueSlots(queue[1..]);
  }

  lemma QueuePush<T>(queue: seq<Item<T>>, item: Item<T>, id: nat)
    ensures Copies(QueueSlots(queue + [item]), id) ==
            Copies(QueueSlots(queue), id) + Holds(if item.Work? then Some(item.entry.id) else None, id)
  {
    var x := if item.Work? then Some(item.entry.id) else None;
    assert QueueSlots(queue + [item]) == QueueSlots(queue) + [x];
    CopiesAppend(QueueSlots(queue), x, id);
  }

  lemma WorkerUpdate<T>(workers: seq<Worker<T>>, w: nat, x: Worker<T>, id: nat)
    requires w < |workers|
    ensures Copies(WorkerSlots(workers[w := x]), id) + Holds(WorkerSlots(workers)[w], id) ==
            Copies(WorkerSlots(workers), id) + Holds(if x.Running? then Some(x.entry.id) else None, id)
  {
    var slot := if x.Running? then Some(x.entry.id) else None;
    assert WorkerSlots(workers[w := x]) == WorkerSlots(workers)[w := slot];
    CopiesUpdate(WorkerSlots(workers), w, slot, id);
  }

  lemma LoadUpdate<T>(workers: seq<Worker<T>>, w: nat, x: Worker<T>)
    requires w < |workers|
    ensures Total(Loads(workers[w := x])) + Load(workers[w]) == Total(Loads(workers)) + Load(x)
  {
    assert Loads(workers[w := x]) == Loads(workers)[w := Load(x)];
    TotalUpdate(Loads(workers), w, Load(x));
  }

  lemma PendingUpdate<T>(pending: seq<Option<Entry<T>>>, t: nat, x: Option<Entry<T>>, id: nat)
    requires t < |pending|
    ensures Copies(PendingSlots(pending[t := x]), id) + Holds(PendingSlots(pending)[t], id) ==
            Copies(PendingSlots(pending), id) + Holds(if x.Some? then Some(x.value.id) else None, id)
  {
    var slot := if x.Some? then Some(x.value.id) else None;
    assert PendingSlots(pending[t := x]) == PendingSlots(pending)[t := slot];
    CopiesUpdate(PendingSlots(pending), t, slot, id);
  }

  /** A running task is not recorded yet. */
  lemma RunningUnrecorded<T, R, E>(p: Pool<T, R, E>, w: nat)
    requires Conserved(p) && w < |p.workers| && p.workers[w].Running?
    ensures p.workers[w].entry.id !in p.returned && p.workers[w].entry.id !in p.raised
  {
    var id := p.workers[w].entry.id;
    NoCopies(WorkerSlots(p.workers), id);
    assert WorkerSlots(p.workers)[w] == Some(id);
    assert Places(p, id) <= 1;
  }

  lemma PutPlaces<T, R, E>(p: Pool<T, R, E>, t: nat, id: nat)
    requires Enabled(p, Put(t))
    ensures Places(Do(p, Put(t)), id) == Places(p, id)
  {
    PendingUpdate(p.pending, t, None, id);
    QueuePush(p.queue, Work(p.pending[t].value), id);
  }

  lemma GetPlaces<T, R, E>(p: Pool<T, R, E>, w: nat, id: nat)
    requires Enabled(p, Get(w))
    ensures Places(Do(p, Get(w)), id) == Places(p, id)
  {
    QueuePop(p.queue, id);
    WorkerUpdate(p.workers, w, Do(p, Get(w)).workers[w], id);
  }

  /** A step moves tasks between places without copying or losing any; taking an id adds the new task. */
  lemma DoPlaces<T, R, E>(p: Pool<T, R, E>, a: Action<T, R, E>, id: nat)
    requires Enabled(p, a)
    requires a.Record? ==> var done := p.workers[a.worker].entry.id; done !in p.returned && done !in p.raised
    ensures Places(Do(p, a), id) == Places(p, id) + if a.TakeId? && id == |p.submitted| then 1 else 0
  {
    var p' := Do(p, a);
    match a {
      case TakeId(t, task) => PendingUpdate(p.pending, t, p'.pending[t], id);
      case Put(t) => PutPlaces(p, t, id);
      case Get(w) => GetPlaces(p, w, id);
      case Record(w, outcome) => WorkerUpdate(p.workers, w, p'.workers[w], id);
      case TaskDone(w) => WorkerUpdate(p.workers, w, Idle, id);
      case Poison => QueuePush(p.queue, Cyanide, id);
      case _ =>
    }
  }

  lemma DoConserves<T, R, E>(p: Pool<T, R, E>, a: Action<T, R, E>)
    requires Conserved(p) && Enabled(p, a)
    ensures Conserved(Do(p, a))
  {
    if a.Record? {
      RunningUnrecorded(p, a.worker);
    }
    forall id: nat
      ensures Places(Do(p, a), id) == if id < |Do(p, a).submitted| then 1 else 0
    {
      assert Places(p, id) == if id < |p.submitted| then 1 else 0;
      DoPlaces(p, a, id);
    }
  }

  lemma DoCounts<T, R, E>(p: Pool<T, R, E>, a: Action<T, R, E>)
    requires Inv(p) && Enabled(p, a)
    ensures Counted(Do(p, a))
  {
    match a {
      case Get(w) => LoadUpdate(p.workers, w, Do(p, a).workers[w]);
      case Record(w, outcome) => LoadUpdate(p.workers, w, Do(p, a).workers[w]);
      case TaskDone(w) => LoadUpdate(p.workers, w, Idle);
      case _ =>
    }
  }

  lemma DoGenuine<T, R, E>(p: Pool<T, R, E>, a: Action<T, R, E>)
    requires AllGenuine(p) && Enabled(p, a)
    ensures AllGenuine(Do(p, a))
  {
    var p' := Do(p, a);
    assert forall e: Entry<T> | Genuine(p, e) :: Genuine(p', e);
    if a.Get? {
      assert forall i | 0 <= i < |p'.queue| :: p'.queue[i] == p.queue[i + 1];
    }
  }

  lemma DoPhased<T, R, E>(p: Pool<T, R, E>, a: Action<T, R, E>)
    requires Counted(p) && Phased(p) && Enabled(p, a)
    ensures Phased(Do(p, a))
  {
    if a.BeginClose? {
      DrainedIsQuiet(p);
    } else if a.Get? {
      GetPhased(p, a.worker);
    }
  }

  lemma GetPhased<T, R, E>(p: Pool<T, R, E>, w: nat)
    requires Phased(p) && Enabled(p, Get(w))
    ensures Phased(Do(p, Get(w)))
  {
    assert forall i | 0 <= i < |p.queue| - 1 :: Do(p, Get(w)).queue[i] == p.queue[i + 1];
  }

  /** Every step of every thread keeps the invariant. */
  lemma DoKeepsInv<T, R, E>(p: Pool<T, R, E>, a: Action<T, R, E>)
    requires Inv(p) && Enabled(p, a)
    ensures Inv(Do(p, a))
  {
    DoConserves(p, a);
    DoCounts(p, a);
    DoGenuine(p, a);
    DoPhased(p, a);
  }

  /** When drain returns nothing is queued, running or about to be put. */
  lemma DrainedIsQuiet<T, R, E>(p: Pool<T, R, E>)
    requires Counted(p) && Phased(p) && Drained(p)
    ensures p.queue == []
    ensures forall w | 0 <= w < |p.workers| :: p.workers[w].Idle?
    ensures forall t | 0 <= t < |p.pending| :: p.pending[t].None?
  {
    TotalZero(Loads(p.workers));
    forall w | 0 <= w < |p.workers|
      ensures p.workers[w].Idle?
    {
      assert Loads(p.workers)[w] == 0;
    }
  }

  /** While the pool is open something is under way or drain returns; what is under way always goes on. */
  lemma DrainsOrGoesOn<T, R, E>(p: Pool<T, R, E>, outcome: Outcome<R, E>) returns (a: Action<T, R, E>)
    requires Inv(p) && p.caller.Open? && p.workers != []
    ensures Drained(p) || (Enabled(p, a) && (a.Put? || a.Get? || a.Record? || a.TaskDone?))
    ensures Drained(p) <==>
            && p.queue == [] && (forall w | 0 <= w < |p.workers| :: p.workers[w].Idle?)
            && p.pending[|p.workers|].None?
  {
    TotalZero(Loads(p.workers));
    a := Put(|p.workers|);
    if t :| 0 <= t < |p.pending| && p.pending[t].Some? {
      a := Put(t);
    } else if w :| 0 <= w < |p.workers| && p.workers[w].Running? {
      a := Record(w, outcome);
    } else if w :| 0 <= w < |p.workers| && p.workers[w].Recorded? {
      assert Loads(p.workers)[w] == 1;
      a := TaskDone(w);
    } else if p.queue != [] {
      a := Get(0);
    }
    if Drained(p) {
      DrainedIsQuiet(p);
    }
  }

  /** Nothing queued, running or pending: every task has been recorded exactly once. */
  lemma QuietAllRecorded<T, R, E>(p: Pool<T, R, E>)
    requires Conserved(p)
    requires forall i | 0 <= i < |p.queue| :: p.queue[i].Cyanide?
    requires forall w | 0 <= w < |p.workers| :: !p.workers[w].Running?
    requires forall t | 0 <= t < |p.pending| :: p.pending[t].None?
    ensures p.returned.Keys !! p.raised.Keys
    ensures forall id: nat :: id < |p.submitted| <==> id in p.returned.Keys + p.raised.Keys
  {
    forall id: nat
      ensures (if id in p.returned then 1 else 0) + (if id in p.raised then 1 else 0) ==
              if id < |p.submitted| then 1 else 0
    {
      NoCopies(PendingSlots(p.pending), id);
      NoCopies(QueueSlots(p.queue), id);
      NoCopies(WorkerSlots(p.workers), id);
      assert Places(p, id) == if id < |p.submitted| then 1 else 0;
    }
  }

  // ----- Runs

  /** A run of the pool: the states it goes through and the actions between them. */
  ghost predicate IsRun<T, R, E>(states: seq<Pool<T, R, E>>, actions: seq<Action<T, R, E>>, size: nat) {
    && |states| == |actions| + 1
    && states[0] == Init(size)
    && forall i | 0 <= i < |actions| :: Enabled(states[i], actions[i]) && states[i + 1] == Do(states[i], actions[i])
  }

  lemma {:induction false} RunInv<T, R, E>(states: seq<Pool<T, R, E>>, actions: seq<Action<T, R, E>>, size: nat, i: nat)
    requires IsRun(states, actions, size) && i < |states|
    ensures Inv(states[i])
  {
    if i == 0 {
      InitInv<T, R, E>(size);
    } else {
      RunInv(states, actions, size, i - 1);
      DoKeepsInv(states[i - 1], actions[i - 1]);
    }
  }

  /** Whenever drain returns, every task ever submitted, also by other tasks, is recorded exactly once. */
  lemma DrainRecordsEverything<T, R, E>(states: seq<Pool<T, R, E>>, actions: seq<Action<T, R, E>>, size: nat, i: nat)
    requires IsRun(states, actions, size) && i < |states| && Drained(states[i])
    ensures states[i].returned.Keys !! states[i].raised.Keys
    ensures forall id: nat :: id < |states[i].submitted| <==> id in states[i].returned.Keys + states[i].raised.Keys
  {
    RunInv(states, actions, size, i);
    DrainedIsQuiet(states[i]);
    QuietAllRecorded(states[i]);
  }

  ghost function Markers<T, R, E>(actions: seq<Action<T, R, E>>): nat {
    if actions == [] then 0 else Markers(actions[..|actions| - 1]) + if actions[|actions| - 1].Poison? then 1 else 0
  }

  /** Poison markers exist only after drain, and each one put is still queued or has killed one worker. */
  lemma {:induction false} EachMarkerKillsOne<T, R, E>(states: seq<Pool<T, R, E>>, actions: seq<Action<T, R, E>>,
          size: nat)
    requires IsRun(states, actions, size)
    ensures var p := states[|actions|];
            if p.caller.Open? then Markers(actions) == 0 && NoMarkers(p)
            else Markers(actions) == p.unfinished == |p.queue| + Total(Loads(p.workers))
    ensures !states[|actions|].caller.Open? ==> OnlyMarkers(states[|actions|])
    decreases |actions|
  {
    RunInv(states, actions, size, |actions|);
    if actions != [] {
      var n := |actions| - 1;
      assert IsRun(states[..n + 1], actions[..n], size);
      EachMarkerKillsOne(states[..n + 1], actions[..n], size);
      RunInv(states, actions, size, n);
      MarkerStep(states[n], actions[n], Markers(actions[..n]));
      assert states[n + 1] == Do(states[n], actions[n]);
    }
  }

  lemma MarkerStep<T, R, E>(p: Pool<T, R, E>, a: Action<T, R, E>, markers: nat)
    requires Inv(p) && Enabled(p, a)
    requires if p.caller.Open? then markers == 0 else markers == p.unfinished
    ensures var p' := Do(p, a); var markers' := markers + if a.Poison? then 1 else 0;
            if p'.caller.Open? then markers' == 0 else markers' == p'.unfinished
  {
  }

  /** A finished close leaves no live worker and has lost no task. */
  lemma CloseIsClean<T, R, E>(states: seq<Pool<T, R, E>>, actions: seq<Action<T, R, E>>, size: nat, i: nat)
    requires IsRun(states, actions, size) && i < |states| && states[i].caller.Closed?
    ensures forall w | 0 <= w < |states[i].workers| :: states[i].workers[w].Dead?
    ensures states[i].returned.Keys !! states[i].raised.Keys
    ensures forall id: nat :: id < |states[i].submitted| <==> id in states[i].returned.Keys + states[i].raised.Keys
  {
    RunInv(states, actions, size, i);
    var p := states[i];
    forall t | 0 <= t < |p.pending|
      ensures p.pending[t].None?
    {
      assert t < |p.workers| ==> p.workers[t].Dead?;
    }
    QuietAllRecorded(p);
  }

  // ----- Order of the results

  /** The `returns` and `exceptions` properties: the recorded values sorted by task id. */
  function InOrder<V>(recorded: map<nat, V>, n: nat): seq<V> {
    if n == 0 then [] else InOrder(recorded, n - 1) + if n - 1 in recorded then [recorded[n - 1]] else []
  }

  function ReturnsOf<T, R, E>(f: T -> Outcome<R, E>, tasks: seq<T>): seq<R> {
    if tasks == [] then []
    else
      var rest, last := tasks[..|tasks| - 1], f(tasks[|tasks| - 1]);
      ReturnsOf(f, rest) + if last.Return? then [last.value] else []
  }

  function ExceptionsOf<T, R, E>(f: T -> Outcome<R, E>, tasks: seq<T>): seq<E> {
    if tasks == [] then []
    else
      var rest, last := tasks[..|tasks| - 1], f(tasks[|tasks| - 1]);
      ExceptionsOf(f, rest) + if last.Raise? then [last.error] else []
  }

  /** The outcomes recorded are those of a deterministic task function. */
  ghost predicate Honest<T, R, E>(f: T -> Outcome<R, E>, p: Pool<T, R, E>) {
    && (forall id | id in p.returned :: id < |p.submitted| && f(p.submitted[id]) == Return(p.returned[id]))
    && (forall id | id in p.raised :: id < |p.submitted| && f(p.submitted[id]) == Raise(p.raised[id]))
  }

  ghost predicate DeterministicRun<T, R, E>(f: T -> Outcome<R, E>, states: seq<Pool<T, R, E>>,
          actions: seq<Action<T, R, E>>, size: nat) {
    && IsRun(states, actions, size)
    && forall i | 0 <= i < |actions| && actions[i].Record? ::
         actions[i].outcome == f(states[i].workers[actions[i].worker].entry.task)
  }

  lemma {:induction false} RunHonest<T, R, E>(f: T -> Outcome<R, E>, states: seq<Pool<T, R, E>>,
          actions: seq<Action<T, R, E>>, size: nat, i: nat)
    requires DeterministicRun(f, states, actions, size) && i < |states|
    ensures Honest(f, states[i])
  {
    if i > 0 {
      RunHonest(f, states, actions, size, i - 1);
      RunInv(states, actions, size, i - 1);
      HonestKept(f, states[i - 1], actions[i - 1]);
    }
  }

  lemma HonestKept<T, R, E>(f: T -> Outcome<R, E>, p: Pool<T, R, E>, a: Action<T, R, E>)
    requires Enabled(p, a) && AllGenuine(p) && Honest(f, p)
    requires a.Record? ==> a.outcome == f(p.workers[a.worker].entry.task)
    ensures Honest(f, Do(p, a))
  {
    if a.Record? {
      assert Genuine(p, p.workers[a.worker].entry);
    }
  }

  lemma {:induction false} InOrderIsPerTask<T, R, E>(f: T -> Outcome<R, E>, p: Pool<T, R, E>, n: nat)
    requires n <= |p.submitted| && Honest(f, p)
    requires forall id: nat :: id < |p.submitted| ==> id in p.returned.Keys + p.raised.Keys
    ensures InOrder(p.returned, n) == ReturnsOf(f, p.submitted[..n])
    ensures InOrder(p.raised, n) == ExceptionsOf(f, p.submitted[..n])
  {
    if n > 0 {
      InOrderIsPerTask(f, p, n - 1);
      assert p.submitted[..n][..n - 1] == p.submitted[..n - 1];
      assert n - 1 in p.returned.Keys + p.raised.Keys;
    }
  }

  /** After drain, under any interleaving, results are in order of submission: one per submitted task. */
  lemma DrainedResultsInOrder<T, R, E>(f: T -> Outcome<R, E>, states: seq<Pool<T, R, E>>,
          actions: seq<Action<T, R, E>>, size: nat, i: nat)
    requires DeterministicRun(f, states, actions, size) && i < |states| && Drained(states[i])
    ensures var p := states[i];
            && InOrder(p.returned, |p.submitted|) == ReturnsOf(f, p.submitted)
            && InOrder(p.raised, |p.submitted|) == ExceptionsOf(f, p.submitted)
  {
    var p := states[i];
    RunHonest(f, states, actions, size, i);
    DrainRecordsEverything(states, actions, size, i);
    InOrderIsPerTask(f, p, |p.submitted|);
    assert p.submitted[..|p.submitted|] == p.submitted;
  }

  /** BlockingExecutor, for tasks that do not submit others. */
  class BlockingExecutor<T, R, E> {
    var returned: seq<R>
    var raised: seq<E>
    ghost var submitted: seq<T>

    constructor ()
      ensures returned == [] && raised == [] && submitted == []
    {
      returned, raised, submitted := [], [], [];
    }

    /** What the executor holds is what the tasks submitted so far come to, in order. */
    ghost predicate UpToDate(f: T -> Outcome<R, E>)
      reads this
    {
      returned == ReturnsOf(f, submitted) && raised == ExceptionsOf(f, submitted)
    }

    method Submit(f: T -> Outcome<R, E>, task: T)
      requires UpToDate(f)
      modifies this
      ensures UpToDate(f) && submitted == old(submitted) + [task]
    {
      submitted := submitted + [task];
      assert submitted[..|submitted| - 1] == old(submitted);
      match f(task) {
        case Return(v) => returned := returned + [v];
        case Raise(e) => raised := raised + [e];
      }
    }
  }

  /** One submitter of independent tasks: a blocking executor ends with what every drained pool ends with. */
  method SubmitAllBlocking<T, R, E>(f: T -> Outcome<R, E>, tasks: seq<T>) returns (values: seq<R>, errors: seq<E>)
    ensures values == ReturnsOf(f, tasks) && errors == ExceptionsOf(f, tasks)
  {
    var executor := new BlockingExecutor<T, R, E>();
    for n := 0 to |tasks|
      invariant executor.UpToDate(f) && executor.submitted == tasks[..n]
      invariant fresh(executor)
    {
      executor.Submit(f, tasks[n]);
    }
    values, errors := executor.returned, executor.raised;
    assert tasks[..|tasks|] == tasks;
  }
}
