/**
 The order and the number of the reader's results: imports are submitted so that dropping
 repetitions leaves each import list in order, and no worker builds a location twice.
 */
module ReadOrder {
  import opened Counting
  import opened Wrappers
  import opened ImportGraph
  import opened ReadPool
  import opened ReadInvariants
  import E = Executor

  /** The locations submitted as imports of a location, in order of their ids. */
  ghost function LogFrom(jobs: seq<Job>, origin: Loc): seq<Loc> {
    if jobs == [] then []
    else
      var last := jobs[|jobs| - 1];
      LogFrom(jobs[..|jobs| - 1], origin) + if last.origin == Some(origin) then [last.loc] else []
  }

  lemma LogAppend(jobs: seq<Job>, job: Job, origin: Loc)
    ensures LogFrom(jobs + [job], origin) == LogFrom(jobs, origin)
            + if job.origin == Some(origin) then [job.loc] else []
  {
  }

  lemma {:induction false} LogEmpty(jobs: seq<Job>, origin: Loc)
    requires forall id | 0 <= id < |jobs| :: jobs[id].origin != Some(origin)
    ensures LogFrom(jobs, origin) == []
  {
    if jobs != [] {
      LogEmpty(jobs[..|jobs| - 1], origin);
    }
  }

  /** A thread that has submitted as many imports of the location as any. */
  ghost predicate IsLeader(env: Env, s: State, t: nat, loc: Loc)
    requires Shape(s)
  {
    && t < |s.pcs| && s.pcs[t].Submitting? && JobOf(env, s, t).loc == loc
    && s.pcs[t].made.Fresh? && s.pcs[t].made.presenter == env.classes(loc)
    && loc in s.reach && s.pcs[t].next == s.reach[loc]
  }

  /** What has been submitted for a location is, but for repetitions, its import list up to its reach. */
  ghost predicate OrderOk(env: Env, s: State, loc: Loc)
    requires Shape(s)
  {
    && loc in env.sources && loc in s.reach
    && var imports := ImportList(env, loc);
    && s.reach[loc] <= |imports|
    && Dedup(LogFrom(s.pool.submitted, loc)) == Dedup(imports[..s.reach[loc]])
    && (s.reach[loc] == |imports| || exists t :: IsLeader(env, s, t, loc))
  }

  ghost predicate Ordered(env: Env, s: State)
    requires Shape(s)
  {
    && s.reach.Keys == s.cache.Keys
    && forall loc | loc in s.cache :: OrderOk(env, s, loc)
  }

  /** The leading thread stays, or its location has been submitted completely. */
  lemma LeaderKept(env: Env, hits: set<Loc>, s: State, a: Action, loc: Loc)
    requires Enabled(env, s, a) && Shape(Do(env, hits, s, a)) && OrderOk(env, s, loc)
    requires !(a.TakeId? && JobOf(env, s, a.thread).loc == loc)
    ensures var s' := Do(env, hits, s, a);
            s'.reach[loc] == s.reach[loc] && (s.reach[loc] == |ImportList(env, loc)|
                                              || exists t :: IsLeader(env, s', t, loc))
  {
    var s' := Do(env, hits, s, a);
    Frame(env, hits, s, a);
    if s.reach[loc] != |ImportList(env, loc)| {
      var t :| IsLeader(env, s, t, loc);
      assert t == a.thread ==> a.Put? || a.TakeId?;
      assert IsLeader(env, s', t, loc);
    }
  }

  /** Submitting an import that was reached before changes nothing. */
  lemma SubmitAgain(log: seq<Loc>, reached: seq<Loc>, l: Loc, n: nat)
    requires n < |reached| && reached[n] == l && Dedup(log) == Dedup(reached)
    ensures Dedup(log + [l]) == Dedup(reached)
  {
    SameDedupAppend(log, reached, l);
    DedupAgain(reached, n);
  }

  /** Submitting the next import extends the reach. */
  lemma SubmitNext(log: seq<Loc>, imports: seq<Loc>, n: nat)
    requires n < |imports| && Dedup(log) == Dedup(imports[..n])
    ensures Dedup(log + [imports[n]]) == Dedup(imports[..n + 1])
  {
    SameDedupAppend(log, imports[..n], imports[n]);
    assert imports[..n + 1] == imports[..n] + [imports[n]];
  }

  /** Submitting import number n, whether it was reached before or is the next. */
  lemma SubmitOne(log: seq<Loc>, imports: seq<Loc>, reach: nat, n: nat)
    requires n <= reach <= |imports| && n < |imports| && Dedup(log) == Dedup(imports[..reach])
    ensures Dedup(log + [imports[n]]) == Dedup(imports[..if n < reach then reach else n + 1])
  {
    if n < reach {
      SubmitAgain(log, imports[..reach], imports[n], n);
    } else {
      SubmitNext(log, imports, n);
    }
  }

  lemma DedupAgain(locs: seq<Loc>, n: nat)
    requires n < |locs|
    ensures Dedup(locs + [locs[n]]) == Dedup(locs)
  {
    DedupAppend(locs, locs[n]);
  }

  lemma SameDedupAppend(log: seq<Loc>, locs: seq<Loc>, l: Loc)
    requires Dedup(log) == Dedup(locs)
    ensures Dedup(log + [l]) == Dedup(locs + [l])
  {
  }

  lemma TakeIdLeader(env: Env, hits: set<Loc>, s: State, a: Action)
    requires Enabled(env, s, a) && a.TakeId? && PcOk(env, hits, s, a.thread) && Uniform(env)
    requires Shape(Do(env, hits, s, a))
    requires OrderOk(env, s, JobOf(env, s, a.thread).loc)
    ensures var s', loc := Do(env, hits, s, a), JobOf(env, s, a.thread).loc;
            s'.reach[loc] == |ImportList(env, loc)| || exists t :: IsLeader(env, s', t, loc)
  {
    var s', t, loc := Do(env, hits, s, a), a.thread, JobOf(env, s, a.thread).loc;
    Frame(env, hits, s, a);
    if s.pcs[t].next == s.reach[loc] {
      assert IsLeader(env, s', t, loc);
    } else if s.reach[loc] != |ImportList(env, loc)| {
      var u :| IsLeader(env, s, u, loc);
      assert IsLeader(env, s', u, loc);
    }
  }

  lemma TakeIdOrdered(env: Env, hits: set<Loc>, s: State, a: Action)
    requires Enabled(env, s, a) && a.TakeId? && PcOk(env, hits, s, a.thread) && Uniform(env)
    requires Shape(Do(env, hits, s, a))
    requires OrderOk(env, s, JobOf(env, s, a.thread).loc)
    ensures OrderOk(env, Do(env, hits, s, a), JobOf(env, s, a.thread).loc)
  {
    var loc := JobOf(env, s, a.thread).loc;
    var imports, n := ImportList(env, loc), s.pcs[a.thread].next;
    TakeIdLeader(env, hits, s, a);
    TakeIdSubmits(env, hits, s, a);
    LogAppend(s.pool.submitted, NextJob(env, s, a.thread), loc);
    SubmitOne(LogFrom(s.pool.submitted, loc), imports, s.reach[loc], n);
  }

  lemma InsertOrdered(env: Env, hits: set<Loc>, s: State, a: Action)
    requires Sound(env, hits, s) && Enabled(env, s, a) && Shape(Do(env, hits, s, a)) && a.Insert? && Uniform(env)
    requires s.reach.Keys == s.cache.Keys && JobOf(env, s, a.thread).loc !in s.cache
    ensures OrderOk(env, Do(env, hits, s, a), JobOf(env, s, a.thread).loc)
  {
    var s', loc := Do(env, hits, s, a), JobOf(env, s, a.thread).loc;
    Frame(env, hits, s, a);
    assert PcOk(env, hits, s, a.thread);
    forall id | 0 <= id < |s.pool.submitted|
      ensures s.pool.submitted[id].origin != Some(loc)
    {
      assert JobOk(env, s, s.pool.submitted[id]);
    }
    LogEmpty(s.pool.submitted, loc);
    assert IsLeader(env, s', a.thread, loc);
  }

  lemma OtherOrdered(env: Env, hits: set<Loc>, s: State, a: Action, loc: Loc)
    requires Enabled(env, s, a) && Shape(Do(env, hits, s, a)) && OrderOk(env, s, loc)
    requires !(a.TakeId? && JobOf(env, s, a.thread).loc == loc)
    ensures OrderOk(env, Do(env, hits, s, a), loc)
  {
    var s' := Do(env, hits, s, a);
    LeaderKept(env, hits, s, a, loc);
    LogKept(env, hits, s, a, loc);
  }

  lemma LogKept(env: Env, hits: set<Loc>, s: State, a: Action, loc: Loc)
    requires Enabled(env, s, a) && !(a.TakeId? && JobOf(env, s, a.thread).loc == loc)
    ensures LogFrom(Do(env, hits, s, a).pool.submitted, loc) == LogFrom(s.pool.submitted, loc)
  {
    TakeIdSubmits(env, hits, s, a);
    if a.TakeId? {
      LogAppend(s.pool.submitted, NextJob(env, s, a.thread), loc);
    }
  }

  lemma ReachKeysKept(env: Env, hits: set<Loc>, s: State, a: Action)
    requires Enabled(env, s, a) && s.reach.Keys == s.cache.Keys
    ensures Do(env, hits, s, a).reach.Keys == Do(env, hits, s, a).cache.Keys
    ensures forall loc | loc in Do(env, hits, s, a).cache && loc !in s.cache ::
              a.Insert? && loc == JobOf(env, s, a.thread).loc
  {
  }

  lemma LocOrdered(env: Env, hits: set<Loc>, s: State, a: Action, loc: Loc)
    requires Uniform(env) && Sound(env, hits, s) && Enabled(env, s, a) && Ordered(env, s)
    requires Shape(Do(env, hits, s, a)) && loc in Do(env, hits, s, a).cache
    ensures OrderOk(env, Do(env, hits, s, a), loc)
  {
    ReachKeysKept(env, hits, s, a);
    if loc !in s.cache {
      InsertOrdered(env, hits, s, a);
    } else if a.TakeId? && JobOf(env, s, a.thread).loc == loc {
      assert PcOk(env, hits, s, a.thread);
      TakeIdOrdered(env, hits, s, a);
    } else {
      OtherOrdered(env, hits, s, a, loc);
    }
  }

  lemma OrderedKept(env: Env, hits: set<Loc>, s: State, a: Action)
    requires Uniform(env) && Sound(env, hits, s) && Enabled(env, s, a) && Ordered(env, s)
    ensures Shape(Do(env, hits, s, a)) && Ordered(env, Do(env, hits, s, a))
  {
    var s' := Do(env, hits, s, a);
    ShapeKept(env, hits, s, a);
    ReachKeysKept(env, hits, s, a);
    forall loc | loc in s'.cache
      ensures OrderOk(env, s', loc)
    {
      LocOrdered(env, hits, s, a, loc);
    }
  }

  lemma {:induction false} RunOrdered(env: Env, hits: set<Loc>, size: nat, states: seq<State>, actions: seq<Action>,
          i: nat)
    requires Uniform(env) && IsRun(env, hits, size, states, actions) && i < |states| && hits <= env.sources.Keys
    ensures Sound(env, hits, states[i]) && Ordered(env, states[i])
  {
    RunSound(env, hits, size, states, actions, i);
    if i > 0 {
      RunOrdered(env, hits, size, states, actions, i - 1);
      OrderedKept(env, hits, states[i - 1], actions[i - 1]);
    }
  }

  // ----- How often a location is built

  /** A build has been inserted or is about to be; the main location is built by the main thread. */
  ghost predicate BuildOk(env: Env, s: State, number: nat)
    requires Shape(s) && number < |s.built|
  {
    var b := s.built[number];
    && b.thread < |s.pcs|
    && (b.loc == env.main <==> b.thread == |s.pool.workers|)
    && (b.loc in s.cache || (s.pcs[b.thread].Built? && s.pcs[b.thread].made.Fresh?
                             && s.pcs[b.thread].made.number == number))
  }

  ghost predicate BuiltOnce(env: Env, s: State)
    requires Shape(s)
  {
    && (forall i, j | 0 <= i < j < |s.built| :: s.built[i] != s.built[j])
    && (forall i | 0 <= i < |s.built| :: BuildOk(env, s, i))
    && (forall t | 0 <= t < |s.pcs| && s.pcs[t].Building? :: Build(JobOf(env, s, t).loc, t) !in s.built)
  }

  lemma BuildingFresh(env: Env, hits: set<Loc>, s: State, a: Action, t: nat)
    requires Enabled(env, s, a) && BuiltOnce(env, s) && Shape(Do(env, hits, s, a))
    requires t < |s.pcs| && Do(env, hits, s, a).pcs[t].Building?
    ensures Build(JobOf(env, Do(env, hits, s, a), t).loc, t) !in Do(env, hits, s, a).built
  {
    var s' := Do(env, hits, s, a);
    Frame(env, hits, s, a);
    if t == a.thread {
      assert a.Look? && s'.built == s.built;
      forall i | 0 <= i < |s.built|
        ensures s.built[i] != Build(JobOf(env, s, t).loc, t)
      {
        assert BuildOk(env, s, i);
      }
    } else {
      assert JobOf(env, s', t) == JobOf(env, s, t);
    }
  }

  lemma BuildKept(env: Env, hits: set<Loc>, s: State, a: Action, i: nat)
    requires Enabled(env, s, a) && Pcs(env, hits, s) && BuiltOnce(env, s)
    requires Shape(Do(env, hits, s, a)) && i < |Do(env, hits, s, a).built|
    ensures BuildOk(env, Do(env, hits, s, a), i)
  {
    Frame(env, hits, s, a);
    if a.Create? || a.Insert? {
      assert PcOk(env, hits, s, a.thread);
    }
    if i < |s.built| {
      assert BuildOk(env, s, i);
    }
  }

  lemma BuiltOnceKept(env: Env, hits: set<Loc>, s: State, a: Action)
    requires Sound(env, hits, s) && Enabled(env, s, a) && BuiltOnce(env, s)
    ensures Shape(Do(env, hits, s, a)) && BuiltOnce(env, Do(env, hits, s, a))
  {
    var s' := Do(env, hits, s, a);
    Frame(env, hits, s, a);
    ShapeKept(env, hits, s, a);
    forall i | 0 <= i < |s'.built|
      ensures BuildOk(env, s', i)
    {
      BuildKept(env, hits, s, a, i);
    }
    forall t | 0 <= t < |s'.pcs| && s'.pcs[t].Building?
      ensures Build(JobOf(env, s', t).loc, t) !in s'.built
    {
      BuildingFresh(env, hits, s, a, t);
    }
  }

  lemma {:induction false} RunBuiltOnce(env: Env, hits: set<Loc>, size: nat, states: seq<State>, actions: seq<Action>,
          i: nat)
    requires IsRun(env, hits, size, states, actions) && i < |states| && hits <= env.sources.Keys
    ensures Sound(env, hits, states[i]) && BuiltOnce(env, states[i]) && |states[i].pool.workers| == size
  {
    RunSound(env, hits, size, states, actions, i);
    if i > 0 {
      RunBuiltOnce(env, hits, size, states, actions, i - 1);
      BuiltOnceKept(env, hits, states[i - 1], actions[i - 1]);
      Frame(env, hits, states[i - 1], actions[i - 1]);
    }
  }

  /** The numbers of the presentations built for a location. */
  ghost function BuildsOf(s: State, loc: Loc): set<nat> {
    set i: nat | i < |s.built| && s.built[i].loc == loc
  }

  /** With W workers a location is built at most W times, and the main location at most once. */
  lemma BuildBound(env: Env, hits: set<Loc>, size: nat, states: seq<State>, actions: seq<Action>, i: nat, loc: Loc)
    requires IsRun(env, hits, size, states, actions) && i < |states| && hits <= env.sources.Keys
    ensures |BuildsOf(states[i], loc)| <= if loc == env.main then 1 else size
  {
    RunBuiltOnce(env, hits, size, states, actions, i);
    var s := states[i];
    var threads := if loc == env.main then {size} else Below(size);
    BelowCount(size);
    forall n | n in BuildsOf(s, loc)
      ensures s.built[n].thread in threads
    {
      assert BuildOk(env, s, n);
    }
    InjectionBound(BuildsOf(s, loc), n requires n in BuildsOf(s, loc) => s.built[n].thread, threads);
  }

  lemma {:induction false} InjectionBound(a: set<nat>, f: nat --> nat, b: set<nat>)
    requires forall x | x in a :: f.requires(x) && f(x) in b
    requires forall x, y | x in a && y in a && x != y :: f(x) != f(y)
    ensures |a| <= |b|
    decreases a
  {
    if x :| x in a {
      InjectionBound(a - {x}, f, b - {f(x)});
    }
  }
}
