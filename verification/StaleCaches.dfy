/**
 An input on which PRESENTATION_CACHE is not transparent: a read that enters a cycle of imports caches
 a document of the cycle before all behind it is merged, and a later read from another main location
 finds it.
 */
module StaleCaches {
  import opened Wrappers
  import opened Documents
  import opened Sights
  import opened ImportGraph
  import opened ResultMerge
  import opened CyclicReads
  import opened ReadPool
  import opened ReadRuns
  import opened ReadEvaluation
  import E = Executor

  const Empty := Content(map[])

  /** A document with one key. */
  function Key(key: string): Content {
    Content(map[key := Leaf("1")])
  }

  /** The document that the first read caches for q. */
  function OfPAndQ(): Content {
    Content(map["p" := Leaf("1"), "q" := Leaf("1")])
  }

  function Plain(content: Content, imports: seq<Loc>): Source {
    Source(content, Some("simple"), _ => imports)
  }

  /** Two templates: the first enters the cycle of p and q at p, the second at q. */
  function CycleEnv(main: Loc): Env {
    Env(main,
        map["first" := Plain(Empty, ["p"]), "second" := Plain(Empty, ["q"]),
            "p" := Plain(Key("p"), ["q", "r"]), "q" := Plain(Key("q"), ["p"]), "r" := Plain(Key("r"), [])],
        (_, _) => true, _ => "simple")
  }

  function ImportNames(loc: Loc): seq<Loc> {
    match loc
    case "first" => ["p"]
    case "second" => ["q"]
    case "p" => ["q", "r"]
    case "q" => ["p"]
    case _ => []
  }

  lemma CycleImports(main: Loc, from: Loc, to: Loc)
    ensures Edge(CycleEnv(main), from, to) <==> to in ImportNames(from)
  {
    var env := CycleEnv(main);
    if from in env.sources {
      ImportsAreImportable(env, from, to);
      CycleImportList(env, main, from);
    }
  }

  lemma CycleImportList(env: Env, main: Loc, from: Loc)
    requires env == CycleEnv(main) && from in env.sources
    ensures ImportList(env, from) == ImportNames(from)
  {
  }

  function Call(loc: Loc, origin: Loc): Job {
    Job(loc, Some(origin), Some("simple"))
  }

  function Made(number: nat): Presentation {
    Fresh(number, "simple")
  }

  lemma CycleCalls(main: Loc)
    requires main in {"first", "second"}
    ensures JobClass(CycleEnv(main), MainJob(CycleEnv(main))) == Some("simple")
    ensures CallsOf(CycleEnv(main), MainJob(CycleEnv(main))) == [Call(if main == "first" then "p" else "q", main)]
    ensures forall origin :: CallsOf(CycleEnv(main), Call("p", origin)) == [Call("q", "p"), Call("r", "p")]
    ensures forall origin :: CallsOf(CycleEnv(main), Call("q", origin)) == [Call("p", "q")]
    ensures forall origin :: CallsOf(CycleEnv(main), Call("r", origin)) == []
  {
  }

  /** The main thread has submitted the import of main. */
  function MainDone(main: Loc, loc: Loc): Quiet {
    Quiet([Call(loc, main)], 0, map[], map[main := Made(0)], 1)
  }

  lemma MainRuns(main: Loc, hits: set<Loc>, size: nat) returns (s: State)
    requires main in {"first", "second"} && main !in hits && size > 0
    ensures Comes(CycleEnv(main), hits, Init(size), s) && At(s, MainDone(main, if main == "first" then "p" else "q"))
    ensures s.main == Some(E.Return(Result(Made(0), main, None)))
  {
    var env := CycleEnv(main);
    CycleCalls(main);
    var s0 := MainBegins(env, hits, size);
    s := MainEnds(env, hits, s0, MainFirst(env, 0), 0);
    ComesThen(env, hits, Init(size), s0, s);
    assert MainFirst(env, 0).(submitted := [] + CallsOf(env, MainJob(env))[0..]) ==
           MainDone(main, if main == "first" then "p" else "q");
  }

  /** A finished read of these calls, whatever its merge gives. */
  lemma CycleEnds(main: Loc, cache: map<Loc, Content>, size: nat, s: State, q: Quiet, results: seq<Result>,
          raws: map<Presentation, Content>)
    returns (final: MergeState, cache': map<Loc, Content>)
    requires main in {"first", "second"} && cache.Keys <= CycleEnv(main).sources.Keys
    requires Comes(CycleEnv(main), cache.Keys, Init(size), s) && At(s, q) && q.served == |q.submitted|
    requires s.main == Some(E.Return(Result(Made(0), main, None)))
    requires results == [Result(Made(0), main, None)] + E.InOrder(q.returned, |q.submitted|)
    requires Loaded(CycleEnv(main), results, raws, cache)
    ensures final == MergeAll(CycleEnv(main), results, raws) && Made(0) in final.raws && Fits(results, final)
    ensures cache' == CachedUpTo(results, final, cache, |results|)
    ensures CanEnd(CycleEnv(main), cache, size, final.raws[Made(0)], cache')
  {
    var env := CycleEnv(main);
    CycleCalls(main);
    assert results == ResultsOf(env, q);
    assert results[0].presentation == Made(0);
    final := MergeAll(env, results, raws);
    cache' := CachedUpTo(results, final, cache, |results|);
    QuietEnds(env, cache, size, s, q, raws, final.raws[Made(0)], cache');
  }

  // ----- The first read: it caches q without what r holds

  function FirstEnd(): Quiet {
    Quiet([Call("p", "first"), Call("q", "p"), Call("r", "p"), Call("p", "q")], 4,
          map[0 := Result(Made(1), "p", Some("first")), 1 := Result(Made(2), "q", Some("p")),
              2 := Result(Made(3), "r", Some("p")), 3 := Result(Made(1), "p", Some("q"))],
          map["first" := Made(0), "p" := Made(1), "q" := Made(2), "r" := Made(3)], 4)
  }

  lemma ServedFirst()
    ensures ServeMany(CycleEnv("first"), {}, MainDone("first", "p"), 4) == FirstEnd()
  {
    var env, q0 := CycleEnv("first"), MainDone("first", "p");
    CycleCalls("first");
    var jobs := [Call("p", "first"), Call("q", "p"), Call("r", "p")];
    var r0, r1, r2 := Result(Made(1), "p", Some("first")), Result(Made(2), "q", Some("p")),
        Result(Made(3), "r", Some("p"));
    var q1 := Quiet(jobs, 1, map[0 := r0], map["first" := Made(0), "p" := Made(1)], 2);
    assert Serve(env, {}, q0) == q1;
    var q2 := Quiet(jobs + [Call("p", "q")], 2, map[0 := r0, 1 := r1],
                    map["first" := Made(0), "p" := Made(1), "q" := Made(2)], 3);
    assert Serve(env, {}, q1) == q2;
    var q3 := Quiet(jobs + [Call("p", "q")], 3, map[0 := r0, 1 := r1, 2 := r2],
                    map["first" := Made(0), "p" := Made(1), "q" := Made(2), "r" := Made(3)], 4);
    assert Serve(env, {}, q2) == q3;
    assert Serve(env, {}, q3) == FirstEnd();
    ServeFour(env, {}, q0);
  }

  function FirstResults(): seq<Result> {
    [Result(Made(0), "first", None), Result(Made(1), "p", Some("first")), Result(Made(2), "q", Some("p")),
     Result(Made(3), "r", Some("p")), Result(Made(1), "p", Some("q"))]
  }

  /** The documents as they are loaded. */
  function FirstRaws(): map<Presentation, Content> {
    map[Made(0) := Empty, Made(1) := Key("p"), Made(2) := Key("q"), Made(3) := Key("r")]
  }

  lemma FirstPicks()
    ensures var pick := Selected(FirstResults());
            pick("first") == [1] && pick("p") == [2, 3] && pick("q") == [4] && pick("r") == []
  {
    var r := FirstResults();
    OneImport(r, "first", 1, 5);
    TwoImports(r, "p", 2, 3, 5);
    OneImport(r, "q", 4, 5);
    NoImports(r, "r", 5);
  }

  lemma FirstSame()
    ensures var r := FirstResults();
            SamePresentation(r, 0) == {0} && SamePresentation(r, 1) == {1, 4} && SamePresentation(r, 2) == {2}
                && SamePresentation(r, 3) == {3}
  {
  }

  /** The document of presentation n with that of presentation m merged into it. */
  function With(raws: map<Presentation, Content>, n: nat, m: nat): map<Presentation, Content>
    requires Made(n) in raws && Made(m) in raws
  {
    raws[Made(n) := MergeImport(CycleEnv("first"), "simple", raws[Made(n)], raws[Made(m)])]
  }

  /** The document q absorbs p, which is being merged and has not come to r yet. */
  lemma FirstQ(s: MergeState)
    requires s == MergeState(FirstRaws(), {0, 1, 4}, [Made(0), Made(1)])
    ensures Merging(CycleEnv("first"), FirstResults(), Selected(FirstResults()), s, 2) ==
            MergeState(With(FirstRaws(), 2, 1), {0, 1, 2, 4}, [Made(0), Made(1), Made(2)])
  {
    var env, r := CycleEnv("first"), FirstResults();
    FirstPicks();
    FirstSame();
    var s1 := MergeState(s.raws, {0, 1, 2, 4}, [Made(0), Made(1), Made(2)]);
    MergeOnly(env, r, s, 2, 4, s1, s1, s1.(raws := With(s1.raws, 2, 1)));
  }

  lemma FirstP(s: MergeState)
    requires s == MergeState(FirstRaws(), {0}, [Made(0)])
    ensures Merging(CycleEnv("first"), FirstResults(), Selected(FirstResults()), s, 1) ==
            MergeState(With(With(With(FirstRaws(), 2, 1), 1, 2), 1, 3), {0, 1, 2, 3, 4},
                       [Made(0), Made(1), Made(2), Made(3)])
  {
    var env, r := CycleEnv("first"), FirstResults();
    FirstPicks();
    FirstSame();
    var s1 := MergeState(s.raws, {0, 1, 4}, [Made(0), Made(1)]);
    FirstQ(s1);
    var s2 := Merging(env, r, Selected(r), s1, 2);
    var s3 := s2.(raws := With(s2.raws, 1, 2));
    MergeNoImports(env, r, s3, 3);
    var s4 := s3.(merged := {0, 1, 2, 3, 4}, loops := s3.loops + [Made(3)]);
    assert Merging(env, r, Selected(r), s3, 3) == s4;
    MergeBoth(env, r, s, 1, 2, 3, s1, s2, s3, s4, s4.(raws := With(s4.raws, 1, 3)));
  }

  lemma FirstMerges()
    ensures MergeAll(CycleEnv("first"), FirstResults(), FirstRaws()) ==
            MergeState(With(With(With(With(FirstRaws(), 2, 1), 1, 2), 1, 3), 0, 1), {0, 1, 2, 3, 4},
                       [Made(0), Made(1), Made(2), Made(3)])
  {
    var env, r := CycleEnv("first"), FirstResults();
    FirstPicks();
    FirstSame();
    var s := Start(r, FirstRaws());
    var s1 := MergeState(s.raws, {0}, [Made(0)]);
    FirstP(s1);
    var s2 := Merging(env, r, Selected(r), s1, 1);
    MergeOnly(env, r, s, 0, 1, s1, s2, s2.(raws := With(s2.raws, 0, 1)));
  }

  lemma QHolds()
    ensures With(With(With(With(FirstRaws(), 2, 1), 1, 2), 1, 3), 0, 1)[Made(2)] == OfPAndQ()
  {
    assert Merge(Key("q").entries, Key("p").entries) == OfPAndQ().entries;
  }

  /** The cache after the first read: q is there without r. */
  lemma FirstCaches(final: MergeState, cache': map<Loc, Content>)
    requires Fits(FirstResults(), final) && final.merged == {0, 1, 2, 3, 4}
    requires Made(2) in final.raws && final.raws[Made(2)] == OfPAndQ()
    requires cache' == CachedUpTo(FirstResults(), final, map[], 5)
    ensures cache'.Keys == {"first", "p", "q", "r"} && cache'["q"] == OfPAndQ()
  {
    var r, cold: map<Loc, Content> := FirstResults(), map[];
    forall loc
      ensures loc in cache' <==> loc in {"first", "p", "q", "r"}
    {
      CachedUpToLocs(r, final, cold, 5, loc);
      assert r[0].loc == "first" && r[1].loc == "p" && r[2].loc == "q" && r[3].loc == "r" && r[4].loc == "p";
    }
    CachedUpToLocs(r, final, cold, 5, "q");
  }

  lemma FirstResultsAre(q: Quiet, results: seq<Result>)
    requires q == FirstEnd() && results == FirstResults()
    ensures q.served == |q.submitted| && results ==
            [Result(Made(0), "first", None)] + E.InOrder(q.returned, |q.submitted|)
    ensures Loaded(CycleEnv("first"), results, FirstRaws(), map[])
  {
  }

  lemma FirstRead(size: nat) returns (main: Content, cache': map<Loc, Content>)
    requires size > 0
    ensures CanEnd(CycleEnv("first"), map[], size, main, cache')
    ensures cache'.Keys == {"first", "p", "q", "r"} && cache'["q"] == OfPAndQ()
  {
    var s := MainRuns("first", {}, size);
    var s1 := ServesMany(CycleEnv("first"), {}, s, MainDone("first", "p"), 4);
    ComesThen(CycleEnv("first"), {}, Init(size), s, s1);
    ServedFirst();
    main, cache' := FirstEnds(size, s1, FirstEnd());
  }

  lemma FirstEnds(size: nat, s: State, q: Quiet) returns (main: Content, cache': map<Loc, Content>)
    requires Comes(CycleEnv("first"), {}, Init(size), s) && At(s, q) && q == FirstEnd()
    requires s.main == Some(E.Return(Result(Made(0), "first", None)))
    ensures CanEnd(CycleEnv("first"), map[], size, main, cache')
    ensures cache'.Keys == {"first", "p", "q", "r"} && cache'["q"] == OfPAndQ()
  {
    var cold: map<Loc, Content> := map[];
    assert cold.Keys == {};
    var results := FirstResults();
    FirstResultsAre(q, results);
    var final: MergeState;
    final, cache' := CycleEnds("first", cold, size, s, q, results, FirstRaws());
    main := final.raws[Made(0)];
    FirstCached(results, final, cache');
  }

  lemma FirstCached(results: seq<Result>, final: MergeState, cache': map<Loc, Content>)
    requires results == FirstResults() && Fits(results, Start(results, FirstRaws()))
    requires Fits(results, final) && final == MergeAll(CycleEnv("first"), results, FirstRaws())
    requires cache' == CachedUpTo(results, final, map[], |results|)
    ensures cache'.Keys == {"first", "p", "q", "r"} && cache'["q"] == OfPAndQ()
  {
    FirstMerges();
    QHolds();
    FirstCaches(final, cache');
  }

  // ----- The second read

  /** Warm, it finds q and looks no further. */
  lemma WarmRead(size: nat, cache: map<Loc, Content>) returns (main: Content, cache': map<Loc, Content>)
    requires size > 0 && cache.Keys == {"first", "p", "q", "r"}
    ensures CanEnd(CycleEnv("second"), cache, size, main, cache')
  {
    var env, hits := CycleEnv("second"), cache.Keys;
    var s := MainRuns("second", hits, size);
    CycleCalls("second");
    var found := Result(Cached("q"), "q", Some("second"));
    var q1 := Quiet([Call("q", "second")], 1, map[0 := found], map["second" := Made(0)], 1);
    assert Serve(env, hits, MainDone("second", "q")) == q1;
    var s1 := Serves(env, hits, s, MainDone("second", "q"));
    ComesThen(env, hits, Init(size), s, s1);
    var results := [Result(Made(0), "second", None), found];
    assert results == [Result(Made(0), "second", None)] + E.InOrder(q1.returned, 1);
    var raws := map[Made(0) := Empty, Cached("q") := cache["q"]];
    var final: MergeState;
    final, cache' := CycleEnds("second", cache, size, s1, q1, results, raws);
    main := final.raws[Made(0)];
  }

  lemma WarmNeeds(hits: set<Loc>, loc: Loc)
    requires hits == {"first", "p", "q", "r"} && Needed(CycleEnv("second"), hits, loc)
    ensures loc in {"second", "q"}
  {
    var path :| Followed(CycleEnv("second"), hits, path) && path[|path| - 1] == loc;
    if |path| > 1 {
      assert Edge(CycleEnv("second"), path[0], path[0 + 1]);
      CycleImports("second", path[0], path[1]);
    }
  }

  /** So it does not show what r holds. */
  lemma WarmMisses(cache: map<Loc, Content>, main: Content, cache': map<Loc, Content>)
    requires cache.Keys == {"first", "p", "q", "r"} && cache["q"] == OfPAndQ()
    requires ReadGives(CycleEnv("second"), cache, main, cache')
    ensures See(main.entries, ["r"]) == Nothing
  {
    var sight := See(main.entries, ["r"]);
    NothingMadeUp(CycleEnv("second"), cache, main, cache', ["r"]);
    if sight != Nothing {
      var loc :| NeededShows(CycleEnv("second"), cache, loc, ["r"], sight);
      NeededMisses(cache, loc, sight);
    }
  }

  lemma NeededMisses(cache: map<Loc, Content>, loc: Loc, sight: Sight)
    requires cache.Keys == {"first", "p", "q", "r"} && cache["q"] == OfPAndQ()
    requires NeededShows(CycleEnv("second"), cache, loc, ["r"], sight)
    ensures sight == Nothing
  {
    WarmNeeds(cache.Keys, loc);
    assert LoadedOf(CycleEnv("second"), cache, loc) == if loc == "q" then OfPAndQ() else Empty;
  }

  lemma AcceptsAll()
    ensures AllAccepted(CycleEnv("second"), (_, _) => true)
  {
  }

  lemma RIsUndisputed()
    ensures Undisputed(CycleEnv("second"), "second", ["r"], ALeaf("1"))
  {
  }

  lemma RIsBelow()
    ensures ShownBelow(CycleEnv("second"), "second", ["r"], ALeaf("1"))
  {
    RIsReached();
    assert See(Key("r").entries, ["r"]) == ALeaf("1");
    assert ShownBy(CycleEnv("second"), "second", "r", ["r"], ALeaf("1"));
  }

  lemma RIsReached()
    ensures Reaches(CycleEnv("second"), "second", "r")
  {
    var env := CycleEnv("second");
    SourceHolds(env, "r");
    CycleImports("second", "p", "r");
    EdgeReaches(env, "p", "r", "r");
    CycleImports("second", "q", "p");
    EdgeReaches(env, "q", "p", "r");
    CycleImports("second", "second", "q");
    EdgeReaches(env, "second", "q", "r");
  }

  /** A cold read does. */
  lemma ColdHas(main: Content, cache': map<Loc, Content>)
    requires ReadGives(CycleEnv("second"), map[], main, cache')
    ensures See(main.entries, ["r"]) == ALeaf("1")
  {
    AcceptsAll();
    RIsUndisputed();
    RIsBelow();
    ColdShows(CycleEnv("second"), main, cache', (_, _) => true, ["r"], ALeaf("1"));
  }

  /**
   On cyclic imports the cache is not transparent: some read of the first template leaves a cache with which
   the second template can be read, but every such read misses what every cold read of it shows.
   */
  lemma CacheIsNotTransparent(size: nat)
    requires size > 0
    ensures exists first, cache, second, cache' ::
              && CanEnd(CycleEnv("first"), map[], size, first, cache)
                 && CanEnd(CycleEnv("second"), cache, size, second, cache')
              && (forall warm, left :: ReadGives(CycleEnv("second"), cache, warm, left) ==>
                  See(warm.entries, ["r"]) == Nothing)
              && (forall cold, left :: ReadGives(CycleEnv("second"), map[], cold, left) ==>
                  See(cold.entries, ["r"]) == ALeaf("1"))
  {
    var first, cache := FirstRead(size);
    var second, cache' := WarmRead(size, cache);
    forall warm, left | ReadGives(CycleEnv("second"), cache, warm, left)
      ensures See(warm.entries, ["r"]) == Nothing
    {
      WarmMisses(cache, warm, left);
    }
    forall cold, left | ReadGives(CycleEnv("second"), map[], cold, left)
      ensures See(cold.entries, ["r"]) == ALeaf("1")
    {
      ColdHas(cold, left);
    }
  }
}
