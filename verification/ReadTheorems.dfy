/**
 What every run of the pooled reader comes to: a complete result list, hence what the merge makes of one.
 On acyclic imports that is the same merged document under every schedule and any number of workers;
 on cyclic ones two schedules agree wherever the documents do.
 */
module ReadTheorems {
  import opened Wrappers
  import opened Documents
  import opened ImportGraph
  import opened ReadPool
  import opened ReadInvariants
  import opened ReadOrder
  import opened ResultMerge
  import opened Sights
  import opened CyclicMerge
  import opened CyclicReads
  import opened Words
  import E = Executor

  /** A job of a finished read: it returned a fitting result if its import was importable, else it failed. */
  ghost predicate JobEnded(env: Env, hits: set<Loc>, s: State, id: nat)
    requires id < |s.pool.submitted|
  {
    var job := s.pool.submitted[id];
    && JobOk(env, s, job)
    && CacheOk(env, hits, s, job.origin.value)
    && (id in s.pool.returned <==> Importable(env, job.origin.value, job.loc))
    && (id in s.pool.raised <==> id !in s.pool.returned)
    && (id in s.pool.returned ==> OutcomeOk(env, hits, s, job, E.Return(s.pool.returned[id])))
  }

  ghost predicate Ended(env: Env, hits: set<Loc>, s: State) {
    && (forall id | 0 <= id < |s.pool.submitted| :: JobEnded(env, hits, s, id))
    && s.main.Some? && OutcomeOk(env, hits, s, MainJob(env), s.main.value)
    && hits <= env.sources.Keys
  }

  /** When drain has returned, every job is recorded once: as a return if it was importable. */
  lemma DoneEnded(env: Env, hits: set<Loc>, s: State)
    requires Sound(env, hits, s) && Done(s)
    ensures Ended(env, hits, s)
    ensures forall t | 0 <= t < |s.pcs| :: s.pcs[t].Off?
  {
    E.DrainedIsQuiet(s.pool);
    E.QuietAllRecorded(s.pool);
    forall id | 0 <= id < |s.pool.submitted|
      ensures JobEnded(env, hits, s, id)
    {
      assert JobOk(env, s, s.pool.submitted[id]);
      assert id in s.pool.returned.Keys + s.pool.raised.Keys;
    }
  }

  lemma {:induction false} ReturnedLocs(env: Env, hits: set<Loc>, s: State, n: nat, origin: Loc)
    requires Ended(env, hits, s) && n <= |s.pool.submitted|
    ensures LocsFrom(E.InOrder(s.pool.returned, n), origin) == Keep(env, origin, LogFrom(s.pool.submitted[..n], origin))
  {
    if n > 0 {
      ReturnedLocs(env, hits, s, n - 1, origin);
      ReturnedStep(env, hits, s, n - 1, origin);
      LoggedStep(env, s.pool.submitted, n - 1, origin);
    }
  }

  /** What the import submitted by a job adds to the results: its location, if it is importable. */
  function Adds(env: Env, job: Job, origin: Loc): seq<Loc> {
    if job.origin == Some(origin) && Importable(env, origin, job.loc) then [job.loc] else []
  }

  lemma ReturnedStep(env: Env, hits: set<Loc>, s: State, id: nat, origin: Loc)
    requires Ended(env, hits, s) && id < |s.pool.submitted|
    ensures LocsFrom(E.InOrder(s.pool.returned, id + 1), origin)
         == LocsFrom(E.InOrder(s.pool.returned, id), origin) + Adds(env, s.pool.submitted[id], origin)
  {
    assert JobEnded(env, hits, s, id);
    var before := E.InOrder(s.pool.returned, id);
    if id in s.pool.returned {
      LocsFromAppend(before, s.pool.returned[id], origin);
    } else {
      assert before + [] == before;
    }
  }

  lemma LoggedStep(env: Env, jobs: seq<Job>, n: nat, origin: Loc)
    requires n < |jobs|
    ensures Keep(env, origin, LogFrom(jobs[..n + 1], origin)) ==
            Keep(env, origin, LogFrom(jobs[..n], origin)) + Adds(env, jobs[n], origin)
  {
    var log := LogFrom(jobs[..n], origin);
    assert jobs[..n + 1] == jobs[..n] + [jobs[n]];
    LogAppend(jobs[..n], jobs[n], origin);
    KeepAppend(env, origin, log, jobs[n].loc);
    assert log + [] == log;
    assert Keep(env, origin, log) + [] == Keep(env, origin, log);
  }

  /** Every returned result is that of some recorded job. */
  lemma {:induction false} ResultFromJob(s: State, n: nat, i: nat) returns (id: nat)
    requires n <= |s.pool.submitted| && i < |E.InOrder(s.pool.returned, n)|
    ensures id < n && id in s.pool.returned && E.InOrder(s.pool.returned, n)[i] == s.pool.returned[id]
  {
    if i < |E.InOrder(s.pool.returned, n - 1)| {
      id := ResultFromJob(s, n - 1, i);
    } else {
      id := n - 1;
    }
  }

  /** What is known of one result: its job was importable, from a location that was read. */
  ghost predicate ResultOk(env: Env, hits: set<Loc>, s: State, r: Result) {
    && r.loc in env.sources && Needed(env, hits, r.loc)
    && (r.loc !in hits ==> Inserted(env, s, r.presentation, r.loc))
       && (r.loc in hits ==> r.presentation == Cached(r.loc))
    && (r.origin.Some? ==>
        Needed(env, hits, r.origin.value) && r.origin.value !in hits && Edge(env, r.origin.value, r.loc))
  }

  lemma EachResultOk(env: Env, hits: set<Loc>, s: State, i: nat)
    requires Uniform(env) && Ended(env, hits, s) && s.main.value.Return? && i < |Results(s)|
    ensures ResultOk(env, hits, s, Results(s)[i])
    ensures i > 0 ==> Results(s)[i].origin.Some?
  {
    if i == 0 {
      assert Followed(env, hits, [env.main]);
    } else {
      var id := ResultFromJob(s, |s.pool.submitted|, i - 1);
      assert JobEnded(env, hits, s, id);
      var job, origin := s.pool.submitted[id], s.pool.submitted[id].origin.value;
      JobEdge(env, s, job);
      NeededStep(env, hits, origin, job.loc);
    }
  }

  /** Whatever classes the presentations got: each result is one that the read may come to, by an edge in some class. */
  lemma EachResultSought(env: Env, hits: set<Loc>, s: State, i: nat)
    requires Ended(env, hits, s) && s.main.value.Return? && i < |Results(s)|
    ensures var r := Results(s)[i];
            && r.loc in env.sources && Sought(env, hits, r.loc)
            && (r.origin.Some? ==> Sought(env, hits, r.origin.value) && r.origin.value !in hits
                                   && SomeEdge(env, r.origin.value, r.loc))
  {
    if i == 0 {
      assert Possible(env, hits, [env.main]);
    } else {
      var id := ResultFromJob(s, |s.pool.submitted|, i - 1);
      assert JobEnded(env, hits, s, id);
      var job := s.pool.submitted[id];
      JobSomeEdge(env, s, job);
      SoughtStep(env, hits, job.origin.value, job.loc);
    }
  }

  /** The results with the origin of a location that was read are its imports, in order. */
  lemma ResultsInOrder(env: Env, hits: set<Loc>, s: State, loc: Loc)
    requires Ended(env, hits, s) && s.main.value.Return? && loc in env.sources
    requires loc in hits || Dedup(LogFrom(s.pool.submitted, loc)) == Dedup(ImportList(env, loc))
    ensures Dedup(LocsFrom(Results(s), loc)) == Expanded(env, hits, loc)
  {
    var jobs := s.pool.submitted;
    MainHasNoOrigin(s.main.value.value, E.InOrder(s.pool.returned, |jobs|), loc);
    ReturnedLocs(env, hits, s, |jobs|, loc);
    assert jobs[..|jobs|] == jobs;
    if loc in hits {
      forall id | 0 <= id < |jobs|
        ensures jobs[id].origin != Some(loc)
      {
        assert JobEnded(env, hits, s, id);
      }
      LogEmpty(jobs, loc);
    } else {
      DedupKeep(env, loc, LogFrom(jobs, loc));
      DedupKeep(env, loc, ImportList(env, loc));
    }
  }

  /** When no thread is active any more, every location in the cache has all its imports submitted. */
  lemma AllSubmitted(env: Env, s: State, loc: Loc)
    requires Shape(s) && OrderOk(env, s, loc) && forall t | 0 <= t < |s.pcs| :: s.pcs[t].Off?
    ensures Dedup(LogFrom(s.pool.submitted, loc)) == Dedup(ImportList(env, loc))
  {
    var imports := ImportList(env, loc);
    assert imports[..|imports|] == imports;
  }

  /** Whenever all is done, the result list is complete. */
  lemma EndedComplete(env: Env, hits: set<Loc>, s: State)
    requires Uniform(env) && Ended(env, hits, s)
    requires forall loc | loc in s.cache ::
               loc in env.sources && Dedup(LogFrom(s.pool.submitted, loc)) == Dedup(ImportList(env, loc))
    ensures s.main.value.Return? && Complete(env, hits, Results(s))
  {
    var results := Results(s);
    forall i | 0 <= i < |results|
      ensures results[i].loc in env.sources && CompleteAt(env, hits, results, i)
    {
      EachResultOk(env, hits, s, i);
      ResultsInOrder(env, hits, s, results[i].loc);
    }
    forall i, j | 0 <= i < |results| && 0 <= j < |results| && results[i].presentation == results[j].presentation
      ensures results[i].loc == results[j].loc
    {
      EachResultOk(env, hits, s, i);
      EachResultOk(env, hits, s, j);
    }
  }

  lemma DoneComplete(env: Env, hits: set<Loc>, s: State)
    requires Uniform(env) && Sound(env, hits, s) && Ordered(env, s) && Done(s)
    ensures Ended(env, hits, s) && s.main.value.Return? && Complete(env, hits, Results(s))
  {
    DoneEnded(env, hits, s);
    forall loc | loc in s.cache
      ensures loc in env.sources && Dedup(LogFrom(s.pool.submitted, loc)) == Dedup(ImportList(env, loc))
    {
      assert OrderOk(env, s, loc);
      AllSubmitted(env, s, loc);
    }
    EndedComplete(env, hits, s);
  }

  /** A finished read: a run of the pooled reader, with PRESENTATION_CACHE as given, in which drain has returned. */
  ghost predicate FinishedRead(env: Env, cache: map<Loc, Content>, size: nat, states: seq<State>,
          actions: seq<Action>) {
    && cache.Keys <= env.sources.Keys
    && IsRun(env, cache.Keys, size, states, actions)
    && Done(states[|actions|])
  }

  /** Every finished run, on cyclic imports too, ends with a complete result list. */
  lemma ReadComplete(env: Env, cache: map<Loc, Content>, size: nat, states: seq<State>, actions: seq<Action>)
    requires Uniform(env) && FinishedRead(env, cache, size, states, actions)
    ensures var s := states[|actions|];
            Ended(env, cache.Keys, s) && s.main.value.Return? && Complete(env, cache.Keys, Results(s))
  {
    RunOrdered(env, cache.Keys, size, states, actions, |actions|);
    DoneComplete(env, cache.Keys, states[|actions|]);
  }

  /** The import closure: the results are the main entry and exactly the import edges that the read follows. */
  lemma ReadClosure(env: Env, cache: map<Loc, Content>, size: nat, states: seq<State>, actions: seq<Action>,
          origin: Loc, loc: Loc)
    requires Uniform(env) && FinishedRead(env, cache, size, states, actions)
    ensures states[|actions|].main.value.Return?
    ensures (exists i :: 0 <= i < |Results(states[|actions|])| && Results(states[|actions|])[i].loc == loc
                         && Results(states[|actions|])[i].origin == Some(origin)) <==>
            Needed(env, cache.Keys, origin) && origin !in cache && Edge(env, origin, loc)
  {
    ReadComplete(env, cache, size, states, actions);
    var s := states[|actions|];
    forall i | 0 <= i < |Results(s)| && Results(s)[i].loc == loc && Results(s)[i].origin == Some(origin)
      ensures Needed(env, cache.Keys, origin) && origin !in cache && Edge(env, origin, loc)
    {
      EachResultOk(env, cache.Keys, s, i);
    }
    if Needed(env, cache.Keys, origin) && origin !in cache && Edge(env, origin, loc) {
      var path :| Followed(env, cache.Keys, path) && path[|path| - 1] == origin;
      var j := CompleteClosure(env, cache.Keys, Results(s), path);
      assert CompleteAt(env, cache.Keys, Results(s), j);
      assert loc in Dedup(LocsFrom(Results(s), origin));
      DedupMembers(LocsFrom(Results(s), origin), loc);
      var i := LocsFromIndex(Results(s), origin, loc);
    }
  }

  /** A finished read of the thread pool, after the merge: its main document and the cache that it leaves. */
  ghost predicate PooledRead(env: Env, cache: map<Loc, Content>, size: nat, states: seq<State>, actions: seq<Action>,
                             main: Content, cache': map<Loc, Content>) {
    && FinishedRead(env, cache, size, states, actions)
    && (states[|actions|].main.value.Return? ==>
          exists raws :: MergedRead(env, cache, Results(states[|actions|]), raws, main, cache'))
  }

  ghost predicate MergedRead(env: Env, cache: map<Loc, Content>, results: seq<Result>, raws: map<Presentation, Content>,
                             main: Content, cache': map<Loc, Content>)
    requires results != []
  {
    && Loaded(env, results, raws, cache)
    && var s := MergeAll(env, results, raws);
       main == s.raws[results[0].presentation] && cache' == CachedUpTo(results, s, cache, |results|)
  }

  /** Every finished run of the pool, on cyclic imports too, gives what the merge makes of a complete result list. */
  lemma PooledReadGives(env: Env, cache: map<Loc, Content>, size: nat, states: seq<State>, actions: seq<Action>,
          main: Content, cache': map<Loc, Content>)
    requires Uniform(env) && PooledRead(env, cache, size, states, actions, main, cache')
    ensures ReadGives(env, cache, main, cache')
  {
    ReadComplete(env, cache, size, states, actions);
    var raws :| MergedRead(env, cache, Results(states[|actions|]), raws, main, cache');
    assert Gives(env, cache, Results(states[|actions|]), raws, main, cache');
  }

  ghost predicate SoughtShows(env: Env, cache: map<Loc, Content>, loc: Loc, path: seq<string>, sight: Sight)
    requires path != []
  {
    Sought(env, cache.Keys, loc) && loc in env.sources && See(LoadedOf(env, cache, loc).entries, path) == sight
  }

  /**
   A read makes nothing up, also of imports that are not uniform: all that main shows, some document shows that the
   read may come to, in whatever classes presentations are built.
   */
  lemma PooledNothingMadeUp(env: Env, cache: map<Loc, Content>, size: nat, states: seq<State>, actions: seq<Action>,
          main: Content, cache': map<Loc, Content>, path: seq<string>)
    requires PooledRead(env, cache, size, states, actions, main, cache') && states[|actions|].main.value.Return?
             && path != []
    ensures See(main.entries, path) == Nothing
            || exists loc :: SoughtShows(env, cache, loc, path, See(main.entries, path))
  {
    var s := states[|actions|];
    RunSound(env, cache.Keys, size, states, actions, |actions|);
    DoneEnded(env, cache.Keys, s);
    forall j | 0 <= j < |Results(s)|
      ensures SoughtResult(env, cache, Results(s)[j])
    {
      EachResultSought(env, cache.Keys, s, j);
    }
    var raws :| MergedRead(env, cache, Results(s), raws, main, cache');
    SoughtMerges(env, cache, Results(s), raws, path);
  }

  ghost predicate SoughtResult(env: Env, cache: map<Loc, Content>, r: Result) {
    r.loc in env.sources && Sought(env, cache.Keys, r.loc)
  }

  lemma SoughtMerges(env: Env, cache: map<Loc, Content>, results: seq<Result>, raws: map<Presentation, Content>,
          path: seq<string>)
    requires path != [] && results != [] && Loaded(env, results, raws, cache)
    requires forall j | 0 <= j < |results| :: SoughtResult(env, cache, results[j])
    ensures var sight := See(MergeAll(env, results, raws).raws[results[0].presentation].entries, path);
            sight == Nothing || exists loc :: SoughtShows(env, cache, loc, path, sight)
  {
    var claim := (x: Content) => See(x.entries, path) == Nothing
        || exists l :: SoughtShows(env, cache, l, path, See(x.entries, path));
    forall x: Content, y: Content | claim(x) && claim(y)
      ensures claim(Content(Merge(x.entries, y.entries)))
    {
      MergeSees(x.entries, y.entries, path);
    }
    forall j | 0 <= j < |results|
      ensures claim(raws[results[j].presentation])
    {
      assert SoughtResult(env, cache, results[j]);
      assert SoughtShows(env, cache, results[j].loc, path, See(LoadedOf(env, cache, results[j].loc).entries, path));
    }
    AnyMergingKeeps(env, results, Selected(results), Start(results, raws), claim, 0);
    assert claim(MergeAll(env, results, raws).raws[results[0].presentation]);
  }

  /**
   Schedule independence on any imports: at a path that no needed document disputes, two reads show the
   same, whatever their interleavings and numbers of workers.
   */
  lemma SchedulesAgree(env: Env, cache: map<Loc, Content>,
          size1: nat, states1: seq<State>, actions1: seq<Action>, main1: Content, cache1: map<Loc, Content>,
          size2: nat, states2: seq<State>, actions2: seq<Action>, main2: Content, cache2: map<Loc, Content>,
          ok: Claim, path: seq<string>, sight: Sight)
    requires Uniform(env) && path != [] && sight != Nothing
    requires PooledRead(env, cache, size1, states1, actions1, main1, cache1)
    requires PooledRead(env, cache, size2, states2, actions2, main2, cache2)
    requires AllAccepted(env, ok) && LoadedClaim(env, cache, OkAndAgrees(ok, path, sight))
    ensures See(main1.entries, path) == See(main2.entries, path)
    ensures See(main1.entries, path) ==
            if exists loc :: NeededShows(env, cache, loc, path, sight) then sight else Nothing
  {
    PooledReadGives(env, cache, size1, states1, actions1, main1, cache1);
    PooledReadGives(env, cache, size2, states2, actions2, main2, cache2);
    SameAtPath(env, cache, main1, cache1, main2, cache2, ok, path, sight);
    ReadShows(env, cache, main1, cache1, ok, path, sight);
  }

  /**
   Any read of uniform imports whose cycles stay in a core of documents that agree, cold or warm: at disputed paths too,
   main says its word, and so does what the read leaves in the cache.
   */
  lemma PooledReadSays(env: Env, lay: Layout, path: seq<string>, ok: Claim,
          cache: map<Loc, Content>, size: nat, states: seq<State>, actions: seq<Action>, main: Content,
          left: map<Loc, Content>)
    requires path != [] && Laid(env, lay, path) && AllAccepted(env, ok) && lay.scope(env.main) && Uniform(env)
    requires LoadedClaim(env, cache, ok) && CacheSays(env, lay, path, cache)
    requires PooledRead(env, cache, size, states, actions, main, left)
    ensures Says(env, lay, path, env.main, main) && CacheSays(env, lay, path, left)
  {
    PooledReadGives(env, cache, size, states, actions, main, left);
    ReadSays(env, lay, path, ok, cache, main, left);
  }

  /** So two reads show the same there, whatever their interleavings, numbers of workers, and caches. */
  lemma SchedulesSay(env: Env, lay: Layout, path: seq<string>, ok: Claim,
          cache1: map<Loc, Content>, size1: nat, states1: seq<State>, actions1: seq<Action>, main1: Content,
          left1: map<Loc, Content>,
          cache2: map<Loc, Content>, size2: nat, states2: seq<State>, actions2: seq<Action>, main2: Content,
          left2: map<Loc, Content>)
    requires path != [] && Laid(env, lay, path) && AllAccepted(env, ok) && Uniform(env)
    requires lay.scope(env.main) && !lay.core(env.main)
    requires LoadedClaim(env, cache1, ok) && CacheSays(env, lay, path, cache1)
    requires LoadedClaim(env, cache2, ok) && CacheSays(env, lay, path, cache2)
    requires PooledRead(env, cache1, size1, states1, actions1, main1, left1)
    requires PooledRead(env, cache2, size2, states2, actions2, main2, left2)
    ensures See(main1.entries, path) == See(main2.entries, path)
  {
    PooledReadSays(env, lay, path, ok, cache1, size1, states1, actions1, main1, left1);
    PooledReadSays(env, lay, path, ok, cache2, size2, states2, actions2, main2, left2);
    SameWord(env, lay, path, env.main, main1, main2);
  }

  // ----- Histories of reads with the pool

  datatype Run = Run(size: nat, states: seq<State>, actions: seq<Action>)

  /**
   Reads of any main locations one after the other, each a finished run of the pool with the cache that the one
   before left.
   */
  ghost predicate PooledHistory(env: Env, runs: seq<Run>, mains: seq<Loc>, documents: seq<Content>,
          caches: seq<map<Loc, Content>>) {
    && |runs| == |documents| == |mains| && |caches| == |mains| + 1 && caches[0] == map[]
    && forall i {:trigger PooledReadAt(env, runs[i], mains[i], caches[i], documents[i],
                                       caches[i + 1])} | 0 <= i < |mains| ::
         PooledReadAt(env, runs[i], mains[i], caches[i], documents[i], caches[i + 1])
  }

  ghost predicate PooledReadAt(env: Env, run: Run, main: Loc, cache: map<Loc, Content>, document: Content,
          cache': map<Loc, Content>) {
    Uniform(From(env, main)) && PooledRead(From(env, main), cache, run.size, run.states, run.actions, document, cache')
  }

  /** So all that is proved of histories holds of those with the pool. */
  lemma PooledHistoryGives(env: Env, runs: seq<Run>, mains: seq<Loc>, documents: seq<Content>,
          caches: seq<map<Loc, Content>>)
    requires PooledHistory(env, runs, mains, documents, caches)
    ensures History(env, mains, documents, caches)
  {
    forall i | 0 <= i < |mains|
      ensures ReadGives(From(env, mains[i]), caches[i], documents[i], caches[i + 1])
    {
      assert PooledReadAt(env, runs[i], mains[i], caches[i], documents[i], caches[i + 1]);
      PooledReadGives(From(env, mains[i]), caches[i], runs[i].size, runs[i].states, runs[i].actions, documents[i],
                      caches[i + 1]);
    }
  }

  /**
   Over any history of pooled reads of any imports, neither a main document nor the cache ever holds anything
   foreign.
   */
  lemma PooledHistoryHolds(env: Env, runs: seq<Run>, mains: seq<Loc>, documents: seq<Content>,
          caches: seq<map<Loc, Content>>, i: nat)
    requires PooledHistory(env, runs, mains, documents, caches) && i < |mains|
    ensures Holds(env, mains[i], documents[i]) && CacheHolds(env, caches[i + 1])
  {
    PooledHistoryGives(env, runs, mains, documents, caches);
    HistoryHolds(env, mains, documents, caches, i);
    HistoryHolds(env, mains, documents, caches, i + 1);
  }

  /** Of acyclic imports, every main document is the recursive specification. */
  lemma PooledHistoryIsMerged(env: Env, runs: seq<Run>, mains: seq<Loc>, documents: seq<Content>,
          caches: seq<map<Loc, Content>>, i: nat)
    requires PooledHistory(env, runs, mains, documents, caches) && Acyclic(env) && i < |mains|
    ensures mains[i] in env.sources && documents[i] == Merged(env, mains[i])
  {
    PooledHistoryGives(env, runs, mains, documents, caches);
    HistoryIsMerged(env, mains, documents, caches, i);
  }

  /**
   Of cyclic imports with all paths decided, a document does not depend on what was read before, nor on any
   schedule.
   */
  lemma PooledHistoriesAgree(env: Env, ok: Claim,
          runs1: seq<Run>, mains1: seq<Loc>, documents1: seq<Content>, caches1: seq<map<Loc, Content>>, i: nat,
          runs2: seq<Run>, mains2: seq<Loc>, documents2: seq<Content>, caches2: seq<map<Loc, Content>>, j: nat)
    requires AllAccepted(env, ok) && AllHeld(env, map[], ok)
    requires PooledHistory(env, runs1, mains1, documents1, caches1)
             && PooledHistory(env, runs2, mains2, documents2, caches2)
    requires i < |mains1| && j < |mains2| && mains1[i] == mains2[j]
    requires forall path: seq<string> | path != [] :: Decided(env, mains1 + mains2, mains1[i], path)
    ensures documents1[i] == documents2[j]
  {
    PooledHistoryGives(env, runs1, mains1, documents1, caches1);
    PooledHistoryGives(env, runs2, mains2, documents2, caches2);
    HistoriesAgree(env, ok, mains1, documents1, caches1, i, mains2, documents2, caches2, j);
  }

  /**
   Schedule independence and cache transparency on acyclic imports: whatever the interleaving, the number
   of workers and the (consistent) contents of PRESENTATION_CACHE, the main document ends as the
   recursive specification says, and the cache stays consistent.
   */
  lemma ReadIsMerged(env: Env, cache: map<Loc, Content>, size: nat, states: seq<State>, actions: seq<Action>,
          main: Content, cache': map<Loc, Content>)
    requires Uniform(env) && PooledRead(env, cache, size, states, actions, main, cache')
    requires Acyclic(env) && CacheConsistent(env, cache)
    ensures main == Merged(env, env.main) && CacheConsistent(env, cache')
  {
    PooledReadGives(env, cache, size, states, actions, main, cache');
    AcyclicReadGives(env, cache, main, cache');
  }
}
