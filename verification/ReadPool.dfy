/**
 The first half of `Read.consume` (aria/parser/consumption/presentation.py): presenting the main
 location and all imports with a thread pool, as a state machine over the pool of Executor.dfy.

 The threads are the workers and, with number |workers|, the main thread, which presents the main
 location itself and then drains. Every step below is one access to shared state.
 */
module ReadPool {
  import opened Wrappers
  import opened ImportGraph
  import E = Executor

  /** A call of `_present`: the canonical location, and location and class of the importing presentation. */
  datatype Job = Job(loc: Loc, origin: Option<Loc>, importer: Option<Class>)

  function MainJob(env: Env): Job {
    Job(env.main, None, None)
  }

  datatype Failure = Cancelled | LoadFailed(loc: Loc)

  type Pool = E.Pool<Job, Result, Failure>
  type Outcome = E.Outcome<Result, Failure>

  /**
   Where a thread is in `_present` and with which presentation; `Submitting` counts the imports it has taken an
   id for.
   */
  datatype Pc =
    | Off
    | Looking
    | Building
    | Built(made: Presentation)
    | Submitting(made: Presentation, next: nat)
    | Finished(outcome: Outcome)

  datatype Build = Build(loc: Loc, thread: nat)

  /**
   `cache` is the reader's own cache. `built` logs the presentations created, by number, and `reach`
   how many imports of a location some thread has submitted; both are history only.
   */
  datatype State = State(
    pool: Pool,
    pcs: seq<Pc>,
    cache: map<Loc, Presentation>,
    built: seq<Build>,
    reach: map<Loc, nat>,
    main: Option<Outcome>)

  datatype Action =
    | Get(thread: nat)
    | Look(thread: nat)
    | Create(thread: nat)
    | Insert(thread: nat)
    | TakeId(thread: nat)
    | Put(thread: nat)
    | Leave(thread: nat)
    | Record(thread: nat)
    | TaskDone(thread: nat)

  function Init(size: nat): State {
    State(E.Init(size), seq(size, _ => Off) + [Looking], map[], [], map[], None)
  }

  predicate Shape(s: State) {
    && |s.pcs| == |s.pool.workers| + 1 == |s.pool.pending|
    && s.pool.caller.Open?
    && (forall w | 0 <= w < |s.pool.workers| :: s.pcs[w].Off? <==> !s.pool.workers[w].Running?)
    && (s.pcs[|s.pool.workers|].Off? <==> s.main.Some?)
    && (forall t | 0 <= t < |s.pcs| :: s.pool.pending[t].Some? ==> s.pcs[t].Submitting?)
  }

  /** The call a thread is executing. */
  function JobOf(env: Env, s: State, t: nat): Job
    requires Shape(s) && t < |s.pcs| && !s.pcs[t].Off?
  {
    if t < |s.pool.workers| then s.pool.workers[t].entry.task else MainJob(env)
  }

  /** The class in which a job would create its presentation. */
  function JobClass(env: Env, job: Job): Option<Class> {
    ClassFor(env, job.loc, job.importer)
  }

  /** The imports to submit for a job whose presentation has the given class. */
  function JobImports(env: Env, job: Job, presenter: Class): seq<Loc> {
    if job.loc in env.sources then env.sources[job.loc].imports(presenter) else []
  }

  /** The imports of the location that thread t is submitting. */
  function ToSubmit(env: Env, s: State, t: nat): seq<Loc>
    requires Shape(s) && t < |s.pcs|
  {
    if s.pcs[t].Submitting? && s.pcs[t].made.Fresh? then JobImports(env, JobOf(env, s, t), s.pcs[t].made.presenter)
    else []
  }

  predicate Enabled(env: Env, s: State, a: Action) {
    var t := a.thread;
    && Shape(s) && t < |s.pcs|
    && match a
       case Get(_) => t < |s.pool.workers| && s.pool.workers[t].Idle? && s.pool.queue != [] && s.pool.queue[0].Work?
       case Look(_) => s.pcs[t].Looking?
       case Create(_) => s.pcs[t].Building?
       case Insert(_) => s.pcs[t].Built?
       case TakeId(_) =>
         && s.pcs[t].Submitting? && s.pcs[t].made.Fresh? && s.pool.pending[t].None?
         && s.pcs[t].next < |ToSubmit(env, s, t)| && JobOf(env, s, t).loc in s.reach
       case Put(_) => s.pool.pending[t].Some?
       case Leave(_) =>
         && s.pcs[t].Submitting? && s.pool.pending[t].None?
         && s.pcs[t].next == |ToSubmit(env, s, t)|
       case Record(_) => s.pcs[t].Finished?
       case TaskDone(_) => t < |s.pool.workers| && s.pool.workers[t].Recorded? && s.pool.unfinished > 0
  }

  /** What the look into the two caches decides. */
  function Looked(hits: set<Loc>, cache: map<Loc, Presentation>, job: Job): Pc {
    if job.origin == Some(job.loc) then Finished(E.Raise(Cancelled))
    else if job.loc in hits then Finished(E.Return(Result(Cached(job.loc), job.loc, job.origin)))
    else if job.loc in cache then Finished(E.Return(Result(cache[job.loc], job.loc, job.origin)))
    else Building
  }

  /** The call that thread t submits next. */
  function NextJob(env: Env, s: State, t: nat): Job
    requires Enabled(env, s, TakeId(t))
  {
    Job(ToSubmit(env, s, t)[s.pcs[t].next], Some(JobOf(env, s, t).loc), Some(s.pcs[t].made.presenter))
  }

  /** The step of the pool that goes with a step of the reader, if any. */
  function PoolAction(env: Env, s: State, a: Action): Option<E.Action<Job, Result, Failure>>
    requires Enabled(env, s, a)
  {
    var t := a.thread;
    match a
    case Get(_) => Some(E.Get(t))
    case TakeId(_) =>
      Some(E.TakeId(t, NextJob(env, s, t)))
    case Put(_) => Some(E.Put(t))
    case Record(_) => if t < |s.pool.workers| then Some(E.Record(t, s.pcs[t].outcome)) else None
    case TaskDone(_) => Some(E.TaskDone(t))
    case _ => None
  }

  lemma PoolActionEnabled(env: Env, s: State, a: Action)
    requires Enabled(env, s, a)
    ensures PoolAction(env, s, a).Some? ==> E.Enabled(s.pool, PoolAction(env, s, a).value)
  {
  }

  function NextPool(env: Env, s: State, a: Action): Pool
    requires Enabled(env, s, a)
  {
    PoolActionEnabled(env, s, a);
    match PoolAction(env, s, a)
    case None => s.pool
    case Some(step) => E.Do(s.pool, step)
  }

  function NextPc(env: Env, hits: set<Loc>, s: State, a: Action): Pc
    requires Enabled(env, s, a)
  {
    var t := a.thread;
    match a
    case Get(_) => Looking
    case Look(_) => Looked(hits, s.cache, JobOf(env, s, t))
    case Create(_) =>
      (match JobClass(env, JobOf(env, s, t))
       case Some(presenter) => Built(Fresh(|s.built|, presenter))
       case None => Finished(E.Raise(LoadFailed(JobOf(env, s, t).loc))))
    case Insert(_) => Submitting(s.pcs[t].made, 0)
    case TakeId(_) => Submitting(s.pcs[t].made, s.pcs[t].next + 1)
    case Put(_) => s.pcs[t]
    case Leave(_) =>
      var job := JobOf(env, s, t);
      Finished(E.Return(Result(s.pcs[t].made, job.loc, job.origin)))
    case Record(_) => Off
    case TaskDone(_) => Off
  }

  function Do(env: Env, hits: set<Loc>, s: State, a: Action): State
    requires Enabled(env, s, a)
  {
    DoBeside(env, s, a, NextPool(env, s, a), NextPc(env, hits, s, a))
  }

  /** What a step does beside the steps of the pool and of its thread. */
  function DoBeside(env: Env, s: State, a: Action, pool: Pool, pc: Pc): State
    requires Enabled(env, s, a)
  {
    var t := a.thread;
    var s' := s.(pool := pool, pcs := s.pcs[t := pc]);
    match a
    case Create(_) =>
      var job := JobOf(env, s, t);
      (match JobClass(env, job)
       case Some(_) => s'.(built := s.built + [Build(job.loc, t)])
       case None => s')
    case Insert(_) =>
      var loc := JobOf(env, s, t).loc;
      s'.(cache := s.cache[loc := s.pcs[t].made], reach := if loc in s.reach then s.reach else s.reach[loc := 0])
    case TakeId(_) =>
      var loc := JobOf(env, s, t).loc;
      if s.pcs[t].next + 1 > s.reach[loc] then s'.(reach := s.reach[loc := s.pcs[t].next + 1]) else s'
    case Record(_) => if t == |s.pool.workers| then s'.(main := Some(s.pcs[t].outcome)) else s'
    case _ => s'
  }

  /** The main thread has presented the main location and drain has returned. */
  predicate Done(s: State) {
    s.main.Some? && E.Drained(s.pool)
  }

  /** The result list of `_present_all`: the main result first, then the returns in order of submission. */
  function Results(s: State): seq<Result>
    requires s.main.Some? && s.main.value.Return?
  {
    [s.main.value.value] + E.InOrder(s.pool.returned, |s.pool.submitted|)
  }

  ghost predicate IsRun(env: Env, hits: set<Loc>, size: nat, states: seq<State>, actions: seq<Action>) {
    && |states| == |actions| + 1
    && states[0] == Init(size)
    && forall i | 0 <= i < |actions| ::
         Enabled(env, states[i], actions[i]) && states[i + 1] == Do(env, hits, states[i], actions[i])
  }
}
