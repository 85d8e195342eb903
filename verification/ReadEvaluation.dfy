/**
 From a run of the reader in ReadRuns.dfy to the main document that the read ends with: evaluating
 the merge of a given result list.
 */
module ReadEvaluation {
  import opened Wrappers
  import opened ImportGraph
  import opened ResultMerge
  import opened ReadPool
  import opened ReadRuns
  import opened ReadTheorems
  import E = Executor

  /** Some finished run of the pool ends with this main document and leaves this cache. */
  ghost predicate CanEnd(env: Env, cache: map<Loc, Content>, size: nat, main: Content, cache': map<Loc, Content>) {
    exists states, actions :: PooledRead(env, cache, size, states, actions, main, cache')
  }

  /** The results of a reader that has served all its calls. */
  function ResultsOf(env: Env, q: Quiet): seq<Result>
    requires JobClass(env, MainJob(env)).Some?
  {
    [Result(MainMade(env), env.main, None)] + E.InOrder(q.returned, |q.submitted|)
  }

  /** Once the main thread and a worker have done all their calls, the read is finished. */
  lemma QuietEnds(env: Env, cache: map<Loc, Content>, size: nat, s: State, q: Quiet, raws: map<Presentation, Content>,
          main: Content, cache': map<Loc, Content>)
    requires JobClass(env, MainJob(env)).Some? && cache.Keys <= env.sources.Keys
    requires Comes(env, cache.Keys, Init(size), s) && At(s, q) && q.served == |q.submitted|
    requires s.main == Some(E.Return(Result(MainMade(env), env.main, None)))
    requires MergedRead(env, cache, ResultsOf(env, q), raws, main, cache')
    ensures CanEnd(env, cache, size, main, cache')
  {
    var states, actions :| Way(Steps(env, cache.Keys), Init(size), states, actions, s);
    forall i | 0 <= i < |actions|
      ensures Enabled(env, states[i], actions[i]) && states[i + 1] == Do(env, cache.Keys, states[i], actions[i])
    {
      assert Steps(env, cache.Keys)(states[i], actions[i], states[i + 1]);
    }
    assert IsRun(env, cache.Keys, size, states, actions);
    assert Done(s) && Results(s) == ResultsOf(env, q);
    assert PooledRead(env, cache, size, states, actions, main, cache');
  }

  // ----- Evaluating a merge

  /** A location whose results are all of one location has the first of them as its import. */
  lemma {:induction false} OneImport(results: seq<Result>, origin: Loc, k: nat, n: nat)
    requires k < n <= |results| && results[k].origin == Some(origin)
    requires forall j | 0 <= j < n && results[j].origin == Some(origin) :: k <= j && results[j].loc == results[k].loc
    ensures ImportIndices(results, origin, n) == [k]
  {
    if n == k + 1 {
      NoImports(results, origin, k);
    } else {
      OneImport(results, origin, k, n - 1);
      assert LocsAt(results, [k])[0] == results[k].loc;
    }
  }

  lemma {:induction false} NoImports(results: seq<Result>, origin: Loc, n: nat)
    requires n <= |results| && forall j | 0 <= j < n :: results[j].origin != Some(origin)
    ensures ImportIndices(results, origin, n) == []
  {
    if n > 0 {
      NoImports(results, origin, n - 1);
    }
  }

  /** Two locations: the first result of each. */
  lemma {:induction false} TwoImports(results: seq<Result>, origin: Loc, k: nat, m: nat, n: nat)
    requires k < m < n <= |results| && results[k].origin == results[m].origin == Some(origin)
    requires results[k].loc != results[m].loc
    requires forall j | 0 <= j < n && results[j].origin == Some(origin) ::
               k <= j && (results[j].loc == results[k].loc || (m <= j && results[j].loc == results[m].loc))
    ensures ImportIndices(results, origin, n) == [k, m]
  {
    if n == m + 1 {
      OneImport(results, origin, k, m);
      assert LocsAt(results, [k]) == [results[k].loc];
    } else {
      TwoImports(results, origin, k, m, n - 1);
      assert LocsAt(results, [k, m]) == [results[k].loc, results[m].loc];
    }
  }

  lemma MergeNoImports(env: Env, results: seq<Result>, s: MergeState, i: nat)
    requires Fits(results, s) && i < |results| && i !in s.merged && Selected(results)(results[i].loc) == []
    ensures Merging(env, results, Selected(results), s, i) == Enter(results, s, i)
  {
  }

  /** The flags and the log when the merge of result i begins. */
  predicate Entered(results: seq<Result>, s: MergeState, i: nat, s': MergeState)
    requires i < |results|
  {
    s' == s.(merged := s.merged + SamePresentation(results, i), loops := s.loops + [results[i].presentation])
  }

  /** Result i absorbs the document of result k. */
  predicate Absorbed(env: Env, results: seq<Result>, s: MergeState, i: nat, k: nat, s': MergeState)
    requires Fits(results, s) && i < |results| && k < |results|
  {
    var mine, theirs := results[i].presentation, results[k].presentation;
    s' == s.(raws := s.raws[mine := MergeImport(env, ClassOf(env, results[i]), s.raws[mine], s.raws[theirs])])
  }

  /** A merge with one import: the import's own merge leads to s2. */
  lemma MergeOnly(env: Env, results: seq<Result>, s: MergeState, i: nat, k: nat, s1: MergeState, s2: MergeState,
          s3: MergeState)
    requires Fits(results, s) && i < |results| && i !in s.merged && k < |results|
             && Selected(results)(results[i].loc) == [k]
    requires Entered(results, s, i, s1) && s2 == Merging(env, results, Selected(results), s1, k)
             && Absorbed(env, results, s2, i, k, s3)
    ensures Merging(env, results, Selected(results), s, i) == s3
  {
    assert MergingImports(env, results, Selected(results), s1, i, 0) == s1;
    MergingRound(env, results, Selected(results), s1, i, 0);
  }

  /** A merge with two imports. */
  lemma MergeBoth(env: Env, results: seq<Result>, s: MergeState, i: nat, k: nat, m: nat, s1: MergeState, s2: MergeState,
          s3: MergeState, s4: MergeState, s5: MergeState)
    requires Fits(results, s) && i < |results| && i !in s.merged && k < |results| && m < |results|
    requires Selected(results)(results[i].loc) == [k, m]
    requires Entered(results, s, i, s1)
    requires s2 == Merging(env, results, Selected(results), s1, k) && Absorbed(env, results, s2, i, k, s3)
    requires s4 == Merging(env, results, Selected(results), s3, m) && Absorbed(env, results, s4, i, m, s5)
    ensures Merging(env, results, Selected(results), s, i) == s5
  {
    assert MergingImports(env, results, Selected(results), s1, i, 0) == s1;
    MergingRound(env, results, Selected(results), s1, i, 0);
    MergingRound(env, results, Selected(results), s1, i, 1);
  }

  lemma ServeTwo(env: Env, hits: set<Loc>, q: Quiet)
    requires Servable(env, q) && Servable(env, Serve(env, hits, q))
    ensures ServeMany(env, hits, q, 2) == Serve(env, hits, Serve(env, hits, q))
  {
  }

  lemma ServeFour(env: Env, hits: set<Loc>, q: Quiet)
    requires Servable(env, q) && Servable(env, Serve(env, hits, q))
             && Servable(env, Serve(env, hits, Serve(env, hits, q)))
    requires Servable(env, Serve(env, hits, Serve(env, hits, Serve(env, hits, q))))
    ensures ServeMany(env, hits, q, 4) == Serve(env, hits, Serve(env, hits, Serve(env, hits, Serve(env, hits, q))))
  {
  }
}
