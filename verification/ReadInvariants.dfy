/** What every step of the reader's threads keeps. */
module ReadInvariants {
  import opened Wrappers
  import opened ImportGraph
  import opened ReadPool
  import E = Executor

  /** A presentation that the reader created for a location and put in its cache. */
  ghost predicate Inserted(env: Env, s: State, p: Presentation, loc: Loc) {
    MadeFor(env, s, p, loc) && loc in s.cache
  }

  /**
   The presentation was built for the location; if the imports are uniform, in the class that the location is
   read in.
   */
  ghost predicate MadeFor(env: Env, s: State, p: Presentation, loc: Loc) {
    && p.Fresh? && p.number < |s.built|
    && s.built[p.number].loc == loc
    && (Uniform(env) ==> p.presenter == env.classes(loc))
  }

  /** Only imports of presentations that were put in the cache are submitted. */
  ghost predicate JobOk(env: Env, s: State, job: Job) {
    && job.origin.Some? && job.origin.value in s.cache && job.origin.value in env.sources
    && job.importer.Some? && job.loc in env.sources[job.origin.value].imports(job.importer.value)
    && (Uniform(env) ==> job.importer == Some(env.classes(job.origin.value)))
  }

  /** A job that is neither a self import nor fails to load is that of an edge in some class. */
  lemma JobSomeEdge(env: Env, s: State, job: Job)
    requires JobOk(env, s, job) && Importable(env, job.origin.value, job.loc)
    ensures SomeEdge(env, job.origin.value, job.loc)
  {
  }

  /**
   If the imports are uniform, then a job that is neither a self import nor fails to load is that of an edge,
   and builds in the class of its location.
   */
  lemma JobEdge(env: Env, s: State, job: Job)
    requires JobOk(env, s, job) && Uniform(env) && Importable(env, job.origin.value, job.loc)
    ensures Edge(env, job.origin.value, job.loc) && JobClass(env, job) == Some(env.classes(job.loc))
  {
    ImportsAreImportable(env, job.origin.value, job.loc);
  }

  ghost predicate CacheOk(env: Env, hits: set<Loc>, s: State, loc: Loc) {
    && loc in env.sources && loc !in hits && Sought(env, hits, loc) && (Uniform(env) ==> Needed(env, hits, loc))
    && loc in s.cache && Inserted(env, s, s.cache[loc], loc)
  }

  /** A job returns a presentation of its location if the import is importable, and fails if not. */
  ghost predicate OutcomeOk(env: Env, hits: set<Loc>, s: State, job: Job, outcome: Outcome) {
    match outcome
    case Return(r) =>
      && r.loc == job.loc && r.origin == job.origin && job.origin != Some(job.loc) && job.loc in env.sources
      && (if job.loc in hits then r.presentation == Cached(job.loc)
          else Inserted(env, s, r.presentation, job.loc))
    case Raise(e) => job.origin == Some(job.loc) || JobClass(env, job).None?
  }

  /** What the position of a thread says about its job. */
  ghost predicate PcOk(env: Env, hits: set<Loc>, s: State, t: nat)
    requires Shape(s) && t < |s.pcs| && !s.pcs[t].Off?
  {
    var job := JobOf(env, s, t);
    match s.pcs[t]
    case Off => true
    case Looking => true
    case Building => MissedBoth(env, hits, s, t)
    case Built(made) =>
      && MissedBoth(env, hits, s, t) && JobClass(env, job).Some?
      && MadeFor(env, s, made, job.loc) && s.built[made.number] == Build(job.loc, t)
    case Submitting(made, next) =>
      && job.origin != Some(job.loc) && job.loc !in hits && job.loc in env.sources
      && Inserted(env, s, made, job.loc)
      && next <= |ToSubmit(env, s, t)| && job.loc in s.reach && next <= s.reach[job.loc]
    case Finished(outcome) => OutcomeOk(env, hits, s, job, outcome)
  }

  /** The thread missed both caches; only the main thread ever misses the main location. */
  ghost predicate MissedBoth(env: Env, hits: set<Loc>, s: State, t: nat)
    requires Shape(s) && t < |s.pcs| && !s.pcs[t].Off?
  {
    var job := JobOf(env, s, t);
    && job.origin != Some(job.loc) && job.loc !in hits
    && (t < |s.pool.workers| ==> job.loc != env.main)
  }

  ghost predicate Jobs(env: Env, s: State) {
    forall id | 0 <= id < |s.pool.submitted| :: JobOk(env, s, s.pool.submitted[id])
  }

  ghost predicate Caches(env: Env, hits: set<Loc>, s: State) {
    && (forall loc | loc in s.cache :: CacheOk(env, hits, s, loc))
    && (s.cache != map[] ==> env.main in s.cache)
    && (hits <= env.sources.Keys)
  }

  ghost predicate Pcs(env: Env, hits: set<Loc>, s: State)
    requires Shape(s)
  {
    forall t | 0 <= t < |s.pcs| && !s.pcs[t].Off? :: PcOk(env, hits, s, t)
  }

  ghost predicate Recorded(env: Env, hits: set<Loc>, s: State) {
    && (forall id | id in s.pool.returned ::
        id < |s.pool.submitted| && OutcomeOk(env, hits, s, s.pool.submitted[id], E.Return(s.pool.returned[id])))
    && (forall id | id in s.pool.raised ::
        id < |s.pool.submitted| && OutcomeOk(env, hits, s, s.pool.submitted[id], E.Raise(s.pool.raised[id])))
    && (s.main.Some? ==> OutcomeOk(env, hits, s, MainJob(env), s.main.value))
  }

  /** The first four parts: what is known of jobs, caches, threads and outcomes. */
  ghost predicate Sound(env: Env, hits: set<Loc>, s: State) {
    && Shape(s) && E.Inv(s.pool)
    && Jobs(env, s) && Caches(env, hits, s) && Pcs(env, hits, s) && Recorded(env, hits, s)
  }

  // ----- Preservation

  /** At most thread t changes its position and its job, and the logs and the cache grow. */
  ghost predicate Grows(s: State, s': State, t: nat) {
    && |s'.pcs| == |s.pcs| && |s'.pool.workers| == |s.pool.workers| && |s'.pool.pending| == |s.pool.pending| == |s.pcs|
    && (forall u | 0 <= u < |s.pcs| && u != t ::
          s'.pcs[u] == s.pcs[u] && s'.pool.pending[u] == s.pool.pending[u]
          && (u < |s.pool.workers| ==> s'.pool.workers[u] == s.pool.workers[u]))
    && s.pool.submitted <= s'.pool.submitted && s.built <= s'.built && s.cache.Keys <= s'.cache.Keys
    && s.reach.Keys <= s'.reach.Keys
    && (forall loc | loc in s.reach :: s.reach[loc] <= s'.reach[loc])
  }

  /** A step changes the position and job of its own thread only, and the logs and the cache grow. */
  lemma Frame(env: Env, hits: set<Loc>, s: State, a: Action)
    requires Enabled(env, s, a)
    ensures var s' := Do(env, hits, s, a);
            && Grows(s, s', a.thread)
            && (a.thread < |s.pool.workers| && !a.Get? && !a.Record? && !a.TaskDone? ==>
                s'.pool.workers[a.thread] == s.pool.workers[a.thread])
            && s'.pool.caller == s.pool.caller
            && (!a.TakeId? ==> s'.pool.submitted == s.pool.submitted)
            && (!a.Insert? ==> s'.cache == s.cache)
            && (!a.Record? ==>
                s'.pool.returned == s.pool.returned && s'.pool.raised == s.pool.raised && s'.main == s.main)
  {
    PoolFrame(env, s, a);
    FrameBeside(env, s, a, NextPool(env, s, a), NextPc(env, hits, s, a));
  }

  /** What a step does to the pool: at most the entries of thread t change, and the log of tasks grows. */
  ghost predicate PoolGrows(p: Pool, p': Pool, t: nat) {
    && |p'.workers| == |p.workers| && |p'.pending| == |p.pending| && p'.caller == p.caller
    && (forall u | 0 <= u < |p.pending| && u != t :: p'.pending[u] == p.pending[u])
    && (forall u | 0 <= u < |p.workers| && u != t :: p'.workers[u] == p.workers[u])
    && p.submitted <= p'.submitted
  }

  lemma PoolFrame(env: Env, s: State, a: Action)
    requires Enabled(env, s, a)
    ensures var p' := NextPool(env, s, a);
            && PoolGrows(s.pool, p', a.thread)
            && (a.thread < |s.pool.workers| && !a.Get? && !a.Record? && !a.TaskDone? ==>
                p'.workers[a.thread] == s.pool.workers[a.thread])
            && p'.submitted == s.pool.submitted + (if a.TakeId? then [NextJob(env, s, a.thread)] else [])
            && (!a.Record? ==> p'.returned == s.pool.returned && p'.raised == s.pool.raised)
  {
  }

  lemma FrameBeside(env: Env, s: State, a: Action, pool: Pool, pc: Pc)
    requires Enabled(env, s, a) && PoolGrows(s.pool, pool, a.thread)
    ensures var s' := DoBeside(env, s, a, pool, pc);
            && Grows(s, s', a.thread) && s'.pool == pool && s'.pcs == s.pcs[a.thread := pc]
            && (!a.Insert? ==> s'.cache == s.cache)
            && (!a.Record? ==> s'.main == s.main)
  {
  }

  lemma PoolKept(env: Env, hits: set<Loc>, s: State, a: Action)
    requires E.Inv(s.pool) && Enabled(env, s, a)
    ensures E.Inv(Do(env, hits, s, a).pool)
  {
    PoolActionEnabled(env, s, a);
    if PoolAction(env, s, a).Some? {
      E.DoKeepsInv(s.pool, PoolAction(env, s, a).value);
    }
  }

  lemma ShapeKept(env: Env, hits: set<Loc>, s: State, a: Action)
    requires Enabled(env, s, a)
    ensures Shape(Do(env, hits, s, a))
  {
    PoolFrame(env, s, a);
    OwnShape(env, hits, s, a);
    ShapeBeside(env, s, a, NextPool(env, s, a), NextPc(env, hits, s, a));
  }

  /** The shape of a state, as far as it concerns thread t with this position. */
  predicate Fitting(pool: Pool, t: nat, pc: Pc)
    requires t < |pool.pending|
  {
    && (t < |pool.workers| ==> (pc.Off? <==> !pool.workers[t].Running?))
    && (pool.pending[t].Some? ==> pc.Submitting?)
  }

  lemma OwnShape(env: Env, hits: set<Loc>, s: State, a: Action)
    requires Enabled(env, s, a)
    ensures a.thread < |NextPool(env, s, a).pending| && Fitting(NextPool(env, s, a), a.thread, NextPc(env, hits, s, a))
    ensures a.thread == |s.pool.workers| ==> (NextPc(env, hits, s, a).Off? <==> a.Record?)
  {
  }

  lemma ShapeBeside(env: Env, s: State, a: Action, pool: Pool, pc: Pc)
    requires Enabled(env, s, a) && PoolGrows(s.pool, pool, a.thread) && Fitting(pool, a.thread, pc)
    requires a.thread == |s.pool.workers| ==> (pc.Off? <==> a.Record?)
    ensures Shape(DoBeside(env, s, a, pool, pc))
  {
    FrameBeside(env, s, a, pool, pc);
  }

  lemma OutcomeKept(env: Env, hits: set<Loc>, s: State, s': State, t: nat, job: Job, outcome: Outcome)
    requires Grows(s, s', t) && OutcomeOk(env, hits, s, job, outcome)
    ensures OutcomeOk(env, hits, s', job, outcome)
  {
  }

  /** The job of an active worker has been submitted. */
  lemma JobOfOk(env: Env, hits: set<Loc>, s: State, t: nat)
    requires Sound(env, hits, s) && t < |s.pool.workers| && !s.pcs[t].Off?
    ensures JobOk(env, s, JobOf(env, s, t)) && env.main in s.cache
  {
  }

  /** A location that a thread builds is one that the read may come to. */
  lemma BuiltSought(env: Env, hits: set<Loc>, s: State, t: nat)
    requires Sound(env, hits, s) && t < |s.pcs| && s.pcs[t].Built?
    ensures Sought(env, hits, JobOf(env, s, t).loc)
  {
    var job := JobOf(env, s, t);
    assert PcOk(env, hits, s, t);
    if t < |s.pool.workers| {
      JobOfOk(env, hits, s, t);
      assert CacheOk(env, hits, s, job.origin.value);
      JobSomeEdge(env, s, job);
      SoughtStep(env, hits, job.origin.value, job.loc);
    } else {
      assert Possible(env, hits, [env.main]);
    }
  }

  /** If the imports are uniform, a location that a thread builds is one that the read needs. */
  lemma BuiltNeeded(env: Env, hits: set<Loc>, s: State, t: nat)
    requires Sound(env, hits, s) && t < |s.pcs| && s.pcs[t].Built? && Uniform(env)
    ensures Needed(env, hits, JobOf(env, s, t).loc)
  {
    var job := JobOf(env, s, t);
    assert PcOk(env, hits, s, t);
    if t < |s.pool.workers| {
      JobOfOk(env, hits, s, t);
      var origin := job.origin.value;
      assert CacheOk(env, hits, s, origin);
      JobEdge(env, s, job);
      NeededStep(env, hits, origin, job.loc);
    } else {
      assert Followed(env, hits, [env.main]);
    }
  }

  lemma CachesKept(env: Env, hits: set<Loc>, s: State, a: Action)
    requires Sound(env, hits, s) && Enabled(env, s, a)
    ensures Caches(env, hits, Do(env, hits, s, a))
  {
    var s' := Do(env, hits, s, a);
    Frame(env, hits, s, a);
    if a.Insert? {
      BuiltSought(env, hits, s, a.thread);
      if Uniform(env) {
        BuiltNeeded(env, hits, s, a.thread);
      }
      assert PcOk(env, hits, s, a.thread);
      if a.thread < |s.pool.workers| {
        JobOfOk(env, hits, s, a.thread);
      }
    }
    forall loc | loc in s'.cache
      ensures CacheOk(env, hits, s', loc)
    {
      if !(a.Insert? && loc == JobOf(env, s, a.thread).loc) {
        assert CacheOk(env, hits, s, loc);
      }
    }
  }

  /** Taking an id adds the next import to the log of submissions, and only that. */
  lemma TakeIdSubmits(env: Env, hits: set<Loc>, s: State, a: Action)
    requires Enabled(env, s, a)
    ensures Do(env, hits, s, a).pool.submitted == s.pool.submitted
            + if a.TakeId? then [NextJob(env, s, a.thread)] else []
  {
  }

  lemma JobsKept(env: Env, hits: set<Loc>, s: State, a: Action)
    requires Enabled(env, s, a) && Jobs(env, s) && Pcs(env, hits, s)
    ensures Jobs(env, Do(env, hits, s, a))
  {
    var s' := Do(env, hits, s, a);
    Frame(env, hits, s, a);
    if a.TakeId? {
      assert PcOk(env, hits, s, a.thread);
    }
    forall id | 0 <= id < |s'.pool.submitted|
      ensures JobOk(env, s', s'.pool.submitted[id])
    {
      if id < |s.pool.submitted| {
        assert JobOk(env, s, s.pool.submitted[id]);
      }
    }
  }

  /** Recording an outcome: it fits the job of the thread. */
  lemma RecordFits(env: Env, hits: set<Loc>, s: State, a: Action)
    requires Shape(s) && E.AllGenuine(s.pool) && Pcs(env, hits, s) && Enabled(env, s, a) && a.Record?
    ensures var t, s' := a.thread, Do(env, hits, s, a);
            && OutcomeOk(env, hits, s', JobOf(env, s, t), s.pcs[t].outcome)
            && (t < |s.pool.workers| ==> E.Genuine(s.pool, s.pool.workers[t].entry))
  {
  }

  lemma RecordedKept(env: Env, hits: set<Loc>, s: State, a: Action)
    requires Shape(s) && E.AllGenuine(s.pool) && Pcs(env, hits, s) && Recorded(env, hits, s) && Enabled(env, s, a)
    ensures Recorded(env, hits, Do(env, hits, s, a))
  {
    var s' := Do(env, hits, s, a);
    Frame(env, hits, s, a);
    if a.Record? {
      RecordFits(env, hits, s, a);
    }
    forall id | id in s'.pool.returned
      ensures id < |s'.pool.submitted| && OutcomeOk(env, hits, s', s'.pool.submitted[id],
                                                    E.Return(s'.pool.returned[id]))
    {
      if id in s.pool.returned && s'.pool.returned[id] == s.pool.returned[id] {
        OutcomeKept(env, hits, s, s', a.thread, s.pool.submitted[id], E.Return(s.pool.returned[id]));
      }
    }
    forall id | id in s'.pool.raised
      ensures id < |s'.pool.submitted| && OutcomeOk(env, hits, s', s'.pool.submitted[id], E.Raise(s'.pool.raised[id]))
    {
      if id in s.pool.raised && s'.pool.raised[id] == s.pool.raised[id] {
        OutcomeKept(env, hits, s, s', a.thread, s.pool.submitted[id], E.Raise(s.pool.raised[id]));
      }
    }
    if s.main.Some? {
      OutcomeKept(env, hits, s, s', a.thread, MainJob(env), s.main.value);
    }
  }

  /** The position of another thread than t stays as well-founded as it was. */
  lemma OtherPcKept(env: Env, hits: set<Loc>, s: State, s': State, t: nat, u: nat)
    requires Shape(s) && Shape(s') && Grows(s, s', t)
    requires u < |s.pcs| && u != t && !s.pcs[u].Off? && PcOk(env, hits, s, u)
    ensures PcOk(env, hits, s', u)
  {
  }

  /** The thread that makes the step arrives at a well-founded position. */
  lemma OwnPcKept(env: Env, hits: set<Loc>, s: State, a: Action)
    requires Sound(env, hits, s) && Enabled(env, s, a) && Shape(Do(env, hits, s, a))
    requires !Do(env, hits, s, a).pcs[a.thread].Off?
    ensures PcOk(env, hits, Do(env, hits, s, a), a.thread)
  {
    if a.Insert? || a.TakeId? || a.Put? {
      assert PcOk(env, hits, s, a.thread);
      SubmittingKept(env, hits, s, a);
    } else if a.Look? {
      LookPcKept(env, hits, s, a);
    } else if a.Create? {
      CreatePcKept(env, hits, s, a);
    } else if !a.Get? {
      assert PcOk(env, hits, s, a.thread);
      LeavePcKept(env, hits, s, a);
    }
  }

  lemma CreatePcKept(env: Env, hits: set<Loc>, s: State, a: Action)
    requires Sound(env, hits, s) && Enabled(env, s, a) && Shape(Do(env, hits, s, a)) && a.Create?
    ensures !Do(env, hits, s, a).pcs[a.thread].Off? && PcOk(env, hits, Do(env, hits, s, a), a.thread)
  {
    Frame(env, hits, s, a);
    assert JobOf(env, Do(env, hits, s, a), a.thread) == JobOf(env, s, a.thread);
    assert PcOk(env, hits, s, a.thread);
    CreatedOk(env, hits, s, a);
  }

  lemma LeavePcKept(env: Env, hits: set<Loc>, s: State, a: Action)
    requires Enabled(env, s, a) && Shape(Do(env, hits, s, a)) && a.Leave? && PcOk(env, hits, s, a.thread)
    ensures !Do(env, hits, s, a).pcs[a.thread].Off? && PcOk(env, hits, Do(env, hits, s, a), a.thread)
  {
    Frame(env, hits, s, a);
    assert JobOf(env, Do(env, hits, s, a), a.thread) == JobOf(env, s, a.thread);
  }

  lemma LookPcKept(env: Env, hits: set<Loc>, s: State, a: Action)
    requires Sound(env, hits, s) && Enabled(env, s, a) && Shape(Do(env, hits, s, a)) && a.Look?
    ensures !Do(env, hits, s, a).pcs[a.thread].Off? && PcOk(env, hits, Do(env, hits, s, a), a.thread)
  {
    Frame(env, hits, s, a);
    assert JobOf(env, Do(env, hits, s, a), a.thread) == JobOf(env, s, a.thread);
    LookedOk(env, hits, s, a);
  }

  lemma SubmittingKept(env: Env, hits: set<Loc>, s: State, a: Action)
    requires Enabled(env, s, a) && Shape(Do(env, hits, s, a)) && (a.Insert? || a.TakeId? || a.Put?)
    requires PcOk(env, hits, s, a.thread)
    ensures !Do(env, hits, s, a).pcs[a.thread].Off? && PcOk(env, hits, Do(env, hits, s, a), a.thread)
  {
    var s', t := Do(env, hits, s, a), a.thread;
    Frame(env, hits, s, a);
    assert JobOf(env, s', t) == JobOf(env, s, t);
  }

  /** What the look into the caches returns fits the job; a worker never misses the main location. */
  lemma LookedOk(env: Env, hits: set<Loc>, s: State, a: Action)
    requires Sound(env, hits, s) && Enabled(env, s, a) && a.Look?
    ensures var job := JobOf(env, s, a.thread);
            match Looked(hits, s.cache, job)
            case Finished(outcome) => OutcomeOk(env, hits, s, job, outcome)
            case _ => a.thread < |s.pool.workers| ==> job.loc != env.main
  {
  }

  /**
   The class that a presentation is created in is, if the imports are uniform, the one that its location is
   read in.
   */
  lemma CreatedOk(env: Env, hits: set<Loc>, s: State, a: Action)
    requires Sound(env, hits, s) && Enabled(env, s, a) && a.Create?
    ensures var job := JobOf(env, s, a.thread);
            Uniform(env) && JobClass(env, job).Some? ==> JobClass(env, job) == Some(env.classes(job.loc))
  {
    var job := JobOf(env, s, a.thread);
    assert PcOk(env, hits, s, a.thread);
    if a.thread < |s.pool.workers| && Uniform(env) && JobClass(env, job).Some? {
      JobOfOk(env, hits, s, a.thread);
      JobEdge(env, s, job);
    }
  }

  /** Every step of every thread keeps what is known of jobs, caches, threads and outcomes. */
  lemma SoundKept(env: Env, hits: set<Loc>, s: State, a: Action)
    requires Sound(env, hits, s) && Enabled(env, s, a)
    ensures Sound(env, hits, Do(env, hits, s, a))
  {
    var s' := Do(env, hits, s, a);
    PoolKept(env, hits, s, a);
    ShapeKept(env, hits, s, a);
    CachesKept(env, hits, s, a);
    JobsKept(env, hits, s, a);
    RecordedKept(env, hits, s, a);
    Frame(env, hits, s, a);
    forall u | 0 <= u < |s'.pcs| && !s'.pcs[u].Off?
      ensures PcOk(env, hits, s', u)
    {
      if u == a.thread {
        OwnPcKept(env, hits, s, a);
      } else {
        assert PcOk(env, hits, s, u);
        OtherPcKept(env, hits, s, s', a.thread, u);
      }
    }
  }

  lemma InitSound(env: Env, hits: set<Loc>, size: nat)
    requires hits <= env.sources.Keys
    ensures Sound(env, hits, Init(size))
  {
    E.InitInv<Job, Result, Failure>(size);
  }

  lemma {:induction false} RunSound(env: Env, hits: set<Loc>, size: nat, states: seq<State>, actions: seq<Action>,
          i: nat)
    requires IsRun(env, hits, size, states, actions) && i < |states| && hits <= env.sources.Keys
    ensures Sound(env, hits, states[i])
  {
    if i == 0 {
      InitSound(env, hits, size);
    } else {
      RunSound(env, hits, size, states, actions, i - 1);
      SoundKept(env, hits, states[i - 1], actions[i - 1]);
    }
  }
}
