/**
 An input on which the schedule matters: imports that form a cycle, as those of a profile do, whose
 documents dispute a path. Which of them has the last word depends on the order in which the workers
 look into the cache.
 */
module CyclicSchedules {
  import opened Wrappers
  import opened Documents
  import opened ImportGraph
  import opened ResultMerge
  import opened ReadPool
  import opened ReadRuns
  import opened ReadEvaluation
  import E = Executor

  /**
   A template that names its profile among its imports besides importing it by default; the profile and its
   part import each other.
   */
  function CyclicEnv(): Env {
    Env("main",
        map["main" := Source(Content(map[]), Some("simple"), _ => ["profile", "profile"]),
            "profile" := Source(Content(map["k" := Leaf("p")]), None, _ => ["part"]),
            "part" := Source(Content(map["k" := Leaf("q")]), None, _ => ["profile"])],
        (_, _) => true, _ => "simple")
  }

  function Call(loc: Loc, origin: Loc): Job {
    Job(loc, Some(origin), Some("simple"))
  }

  function Made(number: nat): Presentation {
    Fresh(number, "simple")
  }

  /** Both imports of main are submitted. */
  function CyclicStart(): Quiet {
    Quiet([Call("profile", "main"), Call("profile", "main")], 0, map[], map["main" := Made(0)], 1)
  }

  lemma CyclicBegins(size: nat) returns (s: State)
    requires size > 0
    ensures JobClass(CyclicEnv(), MainJob(CyclicEnv())) == Some("simple")
    ensures Comes(CyclicEnv(), {}, Init(size), s) && |s.pool.workers| == size && At(s, CyclicStart())
    ensures s.main == Some(E.Return(Result(Made(0), "main", None)))
  {
    var env := CyclicEnv();
    var s0 := MainBegins(env, {}, size);
    assert CallsOf(env, MainJob(env)) == [Call("profile", "main"), Call("profile", "main")];
    s := MainEnds(env, {}, s0, MainFirst(env, 0), 0);
    ComesThen(env, {}, Init(size), s0, s);
  }

  /** One worker serves all calls in turn. */
  function InTurn(): Quiet {
    Quiet([Call("profile", "main"), Call("profile", "main"), Call("part", "profile"), Call("profile", "part")], 4,
          map[0 := Result(Made(1), "profile", Some("main")), 1 := Result(Made(1), "profile", Some("main")),
              2 := Result(Made(2), "part", Some("profile")), 3 := Result(Made(1), "profile", Some("part"))],
          map["main" := Made(0), "profile" := Made(1), "part" := Made(2)], 3)
  }

  lemma ServedInTurn()
    ensures ServeMany(CyclicEnv(), {}, CyclicStart(), 4) == InTurn()
  {
    var env, q0 := CyclicEnv(), CyclicStart();
    var jobs := q0.submitted + [Call("part", "profile")];
    var r0, r2 := Result(Made(1), "profile", Some("main")), Result(Made(2), "part", Some("profile"));
    assert CallsOf(env, Call("profile", "main")) == [Call("part", "profile")];
    assert CallsOf(env, Call("part", "profile")) == [Call("profile", "part")];
    var q1 := Quiet(jobs, 1, map[0 := r0], map["main" := Made(0), "profile" := Made(1)], 2);
    assert Serve(env, {}, q0) == q1;
    var q2 := Quiet(jobs, 2, map[0 := r0, 1 := r0], map["main" := Made(0), "profile" := Made(1)], 2);
    assert Serve(env, {}, q1) == q2;
    var q3 := Quiet(jobs + [Call("profile", "part")], 3, map[0 := r0, 1 := r0, 2 := r2],
                    map["main" := Made(0), "profile" := Made(1), "part" := Made(2)], 3);
    assert Serve(env, {}, q2) == q3;
    assert Serve(env, {}, q3) == InTurn();
    ServeFour(env, {}, q0);
  }

  /** Two workers miss the profile before either caches it, and one of them serves the other calls. */
  function Raced(): Quiet {
    Quiet([Call("profile", "main"), Call("profile", "main"), Call("part", "profile"), Call("part", "profile"),
           Call("profile", "part")], 5,
          map[0 := Result(Made(1), "profile", Some("main")), 1 := Result(Made(2), "profile", Some("main")),
              2 := Result(Made(3), "part", Some("profile")), 3 := Result(Made(3), "part", Some("profile")),
              4 := Result(Made(2), "profile", Some("part"))],
          map["main" := Made(0), "profile" := Made(2), "part" := Made(3)], 4)
  }

  lemma ServedRaced()
    ensures BothMiss(CyclicEnv(), {}, CyclicStart())
    ensures ServeMany(CyclicEnv(), {}, ServeNew(CyclicEnv(), ServeNew(CyclicEnv(), CyclicStart())), 3) == Raced()
  {
    var env, q0 := CyclicEnv(), CyclicStart();
    var jobs := q0.submitted + [Call("part", "profile")];
    var r0, r1 := Result(Made(1), "profile", Some("main")), Result(Made(2), "profile", Some("main"));
    var r2 := Result(Made(3), "part", Some("profile"));
    assert CallsOf(env, Call("profile", "main")) == [Call("part", "profile")];
    assert CallsOf(env, Call("part", "profile")) == [Call("profile", "part")];
    var q1 := Quiet(jobs, 1, map[0 := r0], map["main" := Made(0), "profile" := Made(1)], 2);
    assert ServeNew(env, q0) == q1;
    var q2 := Quiet(jobs + [Call("part", "profile")], 2, map[0 := r0, 1 := r1],
                    map["main" := Made(0), "profile" := Made(2)], 3);
    assert ServeNew(env, q1) == q2;
    var jobs', cache := q2.submitted + [Call("profile", "part")],
        map["main" := Made(0), "profile" := Made(2), "part" := Made(3)];
    var q3 := Quiet(jobs', 3, map[0 := r0, 1 := r1, 2 := r2], cache, 4);
    assert Serve(env, {}, q2) == q3;
    var q4 := Quiet(jobs', 4, map[0 := r0, 1 := r1, 2 := r2, 3 := r2], cache, 4);
    assert Serve(env, {}, q3) == q4;
    assert Serve(env, {}, q4) == Raced();
    assert ServeMany(env, {}, q2, 3) == ServeMany(env, {}, q3, 2);
    assert ServeMany(env, {}, q3, 2) == ServeMany(env, {}, q4, 1);
    assert ServeMany(env, {}, q4, 1) == ServeMany(env, {}, Raced(), 0);
  }

  function Key(token: string): Content {
    Content(map["k" := Leaf(token)])
  }

  function InTurnResults(): seq<Result> {
    [Result(Made(0), "main", None), Result(Made(1), "profile", Some("main")), Result(Made(1), "profile", Some("main")),
     Result(Made(2), "part", Some("profile")), Result(Made(1), "profile", Some("part"))]
  }

  lemma InTurnPicks()
    ensures var pick := Selected(InTurnResults()); pick("main") == [1] && pick("profile") == [3] && pick("part") == [4]
  {
    InTurnPicksMain();
    InTurnPicksProfile();
    InTurnPicksPart();
  }

  lemma InTurnPicksMain()
    ensures Selected(InTurnResults())("main") == [1]
  {
    OneImport(InTurnResults(), "main", 1, 5);
  }

  lemma InTurnPicksProfile()
    ensures Selected(InTurnResults())("profile") == [3]
  {
    OneImport(InTurnResults(), "profile", 3, 5);
  }

  lemma InTurnPicksPart()
    ensures Selected(InTurnResults())("part") == [4]
  {
    OneImport(InTurnResults(), "part", 4, 5);
  }

  lemma InTurnSame()
    ensures var r := InTurnResults();
            SamePresentation(r, 0) == {0} && SamePresentation(r, 1) == {1, 2, 4} && SamePresentation(r, 3) == {3}
  {
  }

  /** The leaf that is absorbed last is kept. */
  lemma KeyOverrides(x: Content, token: string)
    requires x == Content(map[]) || exists other :: x == Key(other)
    ensures MergeImport(CyclicEnv(), "simple", x, Key(token)) == Key(token)
  {
  }

  function Held(main: Content, profile: Content, part: Content): map<Presentation, Content> {
    map[Made(0) := main, Made(1) := profile, Made(2) := part]
  }

  /** The part absorbs the profile, which is being merged. */
  lemma InTurnPart(s: MergeState)
    requires s == MergeState(Held(Content(map[]), Key("p"), Key("q")), {0, 1, 2, 4}, [Made(0), Made(1)])
    ensures Merging(CyclicEnv(), InTurnResults(), Selected(InTurnResults()), s, 3) ==
            MergeState(Held(Content(map[]), Key("p"), Key("p")), {0, 1, 2, 3, 4}, [Made(0), Made(1), Made(2)])
  {
    var env, r := CyclicEnv(), InTurnResults();
    InTurnPicks();
    InTurnSame();
    KeyOverrides(Key("q"), "p");
    var s3 := MergeState(s.raws, {0, 1, 2, 3, 4}, [Made(0), Made(1), Made(2)]);
    MergeOnly(env, r, s, 3, 4, s3, s3, s3.(raws := Held(Content(map[]), Key("p"), Key("p"))));
  }

  /** Then the profile absorbs the part. */
  lemma InTurnProfile(s: MergeState)
    requires s == MergeState(Held(Content(map[]), Key("p"), Key("q")), {0}, [Made(0)])
    ensures Merging(CyclicEnv(), InTurnResults(), Selected(InTurnResults()), s, 1) ==
            MergeState(Held(Content(map[]), Key("p"), Key("p")), {0, 1, 2, 3, 4}, [Made(0), Made(1), Made(2)])
  {
    var env, r := CyclicEnv(), InTurnResults();
    InTurnPicks();
    InTurnSame();
    KeyOverrides(Key("p"), "p");
    var s1 := MergeState(s.raws, {0, 1, 2, 4}, [Made(0), Made(1)]);
    InTurnPart(s1);
    var s2 := Merging(env, r, Selected(r), s1, 3);
    MergeOnly(env, r, s, 1, 3, s1, s2, s2);
  }

  lemma InTurnMerges()
    ensures MergeAll(CyclicEnv(), InTurnResults(), Held(Content(map[]), Key("p"), Key("q"))).raws[Made(0)] == Key("p")
  {
    var env, r := CyclicEnv(), InTurnResults();
    InTurnPicks();
    InTurnSame();
    KeyOverrides(Content(map[]), "p");
    var s := Start(r, Held(Content(map[]), Key("p"), Key("q")));
    var s0 := MergeState(s.raws, {0}, [Made(0)]);
    InTurnProfile(s0);
    var s1 := Merging(env, r, Selected(r), s0, 1);
    MergeOnly(env, r, s, 0, 1, s0, s1, s1.(raws := s1.raws[Made(0) := Key("p")]));
  }

  function RacedResults(): seq<Result> {
    [Result(Made(0), "main", None), Result(Made(1), "profile", Some("main")), Result(Made(2), "profile", Some("main")),
     Result(Made(3), "part", Some("profile")), Result(Made(3), "part", Some("profile")),
         Result(Made(2), "profile", Some("part"))]
  }

  lemma RacedPicks()
    ensures var pick := Selected(RacedResults()); pick("main") == [1] && pick("profile") == [3] && pick("part") == [5]
  {
    RacedPicksMain();
    RacedPicksProfile();
    RacedPicksPart();
  }

  lemma RacedPicksMain()
    ensures Selected(RacedResults())("main") == [1]
  {
    OneImport(RacedResults(), "main", 1, 6);
  }

  lemma RacedPicksProfile()
    ensures Selected(RacedResults())("profile") == [3]
  {
    OneImport(RacedResults(), "profile", 3, 6);
  }

  lemma RacedPicksPart()
    ensures Selected(RacedResults())("part") == [5]
  {
    OneImport(RacedResults(), "part", 5, 6);
  }

  lemma RacedSame()
    ensures var r := RacedResults();
            && SamePresentation(r, 0) == {0} && SamePresentation(r, 1) == {1}
            && SamePresentation(r, 3) == {3, 4} && SamePresentation(r, 5) == {2, 5}
  {
  }

  /** The documents of main, of the two presentations of the profile, and of the part. */
  function HeldTwice(main: Content, first: Content, second: Content, part: Content): map<Presentation, Content> {
    map[Made(0) := main, Made(1) := first, Made(2) := second, Made(3) := part]
  }

  /** The second presentation of the profile absorbs the part, which is being merged. */
  lemma RacedSecond(s: MergeState)
    requires s == MergeState(HeldTwice(Content(map[]), Key("p"), Key("p"), Key("q")), {0, 1, 3, 4},
                             [Made(0), Made(1), Made(3)])
    ensures Merging(CyclicEnv(), RacedResults(), Selected(RacedResults()), s, 5) ==
            MergeState(HeldTwice(Content(map[]), Key("p"), Key("q"), Key("q")), {0, 1, 2, 3, 4, 5},
                       [Made(0), Made(1), Made(3), Made(2)])
  {
    var env, r := CyclicEnv(), RacedResults();
    RacedPicks();
    RacedSame();
    KeyOverrides(Key("p"), "q");
    var s1 := MergeState(s.raws, {0, 1, 2, 3, 4, 5}, [Made(0), Made(1), Made(3), Made(2)]);
    MergeOnly(env, r, s, 5, 3, s1, s1, s1.(raws := HeldTwice(Content(map[]), Key("p"), Key("q"), Key("q"))));
  }

  /** Then the part absorbs it. */
  lemma RacedPart(s: MergeState)
    requires s == MergeState(HeldTwice(Content(map[]), Key("p"), Key("p"), Key("q")), {0, 1}, [Made(0), Made(1)])
    ensures Merging(CyclicEnv(), RacedResults(), Selected(RacedResults()), s, 3) ==
            MergeState(HeldTwice(Content(map[]), Key("p"), Key("q"), Key("q")), {0, 1, 2, 3, 4, 5},
                       [Made(0), Made(1), Made(3), Made(2)])
  {
    var env, r := CyclicEnv(), RacedResults();
    RacedPicks();
    RacedSame();
    KeyOverrides(Key("q"), "q");
    var s1 := MergeState(s.raws, {0, 1, 3, 4}, [Made(0), Made(1), Made(3)]);
    RacedSecond(s1);
    var s2 := Merging(env, r, Selected(r), s1, 5);
    MergeOnly(env, r, s, 3, 5, s1, s2, s2);
  }

  /** Then the first presentation of the profile absorbs the part. */
  lemma RacedFirst(s: MergeState)
    requires s == MergeState(HeldTwice(Content(map[]), Key("p"), Key("p"), Key("q")), {0}, [Made(0)])
    ensures Merging(CyclicEnv(), RacedResults(), Selected(RacedResults()), s, 1) ==
            MergeState(HeldTwice(Content(map[]), Key("q"), Key("q"), Key("q")), {0, 1, 2, 3, 4, 5},
                       [Made(0), Made(1), Made(3), Made(2)])
  {
    var env, r := CyclicEnv(), RacedResults();
    RacedPicks();
    RacedSame();
    KeyOverrides(Key("p"), "q");
    var s1 := MergeState(s.raws, {0, 1}, [Made(0), Made(1)]);
    RacedPart(s1);
    var s2 := Merging(env, r, Selected(r), s1, 3);
    MergeOnly(env, r, s, 1, 3, s1, s2, s2.(raws := HeldTwice(Content(map[]), Key("q"), Key("q"), Key("q"))));
  }

  lemma RacedMerges()
    ensures MergeAll(CyclicEnv(), RacedResults(),
                     HeldTwice(Content(map[]), Key("p"), Key("p"), Key("q"))).raws[Made(0)] == Key("q")
  {
    var env, r := CyclicEnv(), RacedResults();
    RacedPicks();
    RacedSame();
    KeyOverrides(Content(map[]), "q");
    var s := Start(r, HeldTwice(Content(map[]), Key("p"), Key("p"), Key("q")));
    var s0 := MergeState(s.raws, {0}, [Made(0)]);
    RacedFirst(s0);
    var s1 := Merging(env, r, Selected(r), s0, 1);
    MergeOnly(env, r, s, 0, 1, s0, s1, s1.(raws := s1.raws[Made(0) := Key("q")]));
  }

  /** A finished run of these calls. */
  lemma CyclicEnds(size: nat, s: State, q: Quiet, results: seq<Result>, raws: map<Presentation, Content>, main: Content)
    requires Comes(CyclicEnv(), {}, Init(size), s) && At(s, q) && q.served == |q.submitted|
    requires s.main == Some(E.Return(Result(Made(0), "main", None)))
    requires results == [Result(Made(0), "main", None)] + E.InOrder(q.returned, |q.submitted|)
    requires Loaded(CyclicEnv(), results, raws, map[]) && MergeAll(CyclicEnv(), results, raws).raws[Made(0)] == main
    ensures exists cache' :: CanEnd(CyclicEnv(), map[], size, main, cache')
  {
    var env, cold: map<Loc, Content> := CyclicEnv(), map[];
    assert cold.Keys == {};
    assert results == ResultsOf(env, q);
    var cache' := CachedUpTo(results, MergeAll(env, results, raws), cold, |results|);
    QuietEnds(env, cold, size, s, q, raws, main, cache');
  }

  lemma CyclicInTurn(size: nat)
    requires size > 0
    ensures exists cache' :: CanEnd(CyclicEnv(), map[], size, Key("p"), cache')
  {
    var env := CyclicEnv();
    var s := CyclicBegins(size);
    var s1 := ServesMany(env, {}, s, CyclicStart(), 4);
    ComesThen(env, {}, Init(size), s, s1);
    InTurnEnds(size, s1, ServeMany(env, {}, CyclicStart(), 4));
  }

  lemma InTurnEnds(size: nat, s: State, q: Quiet)
    requires Comes(CyclicEnv(), {}, Init(size), s) && At(s, q) && q == ServeMany(CyclicEnv(), {}, CyclicStart(), 4)
    requires s.main == Some(E.Return(Result(Made(0), "main", None)))
    ensures exists cache' :: CanEnd(CyclicEnv(), map[], size, Key("p"), cache')
  {
    ServedInTurn();
    InTurnMerges();
    InTurnResultsAre();
    CyclicEnds(size, s, InTurn(), InTurnResults(), Held(Content(map[]), Key("p"), Key("q")), Key("p"));
  }

  lemma InTurnResultsAre()
    ensures InTurnResults() == [Result(Made(0), "main", None)] + E.InOrder(InTurn().returned, |InTurn().submitted|)
    ensures Loaded(CyclicEnv(), InTurnResults(), Held(Content(map[]), Key("p"), Key("q")), map[])
  {
  }

  lemma CyclicRaced(size: nat)
    requires size > 1
    ensures exists cache' :: CanEnd(CyclicEnv(), map[], size, Key("q"), cache')
  {
    var env := CyclicEnv();
    var s := CyclicBegins(size);
    CyclicMisses();
    var s1 := ServesBoth(env, {}, s, CyclicStart());
    var s2 := ServesMany(env, {}, s1, ServeNew(env, ServeNew(env, CyclicStart())), 3);
    ComesThen(env, {}, Init(size), s, s1);
    ComesThen(env, {}, Init(size), s1, s2);
    RacedEnds(size, s2, ServeMany(env, {}, ServeNew(env, ServeNew(env, CyclicStart())), 3));
  }

  lemma CyclicMisses()
    ensures BothMiss(CyclicEnv(), {}, CyclicStart()) && Servable(CyclicEnv(), ServeNew(CyclicEnv(), CyclicStart()))
  {
  }

  lemma RacedEnds(size: nat, s: State, q: Quiet)
    requires BothMiss(CyclicEnv(), {}, CyclicStart()) && Servable(CyclicEnv(), ServeNew(CyclicEnv(), CyclicStart()))
    requires Comes(CyclicEnv(), {}, Init(size), s) && At(s, q)
    requires q == ServeMany(CyclicEnv(), {}, ServeNew(CyclicEnv(), ServeNew(CyclicEnv(), CyclicStart())), 3)
    requires s.main == Some(E.Return(Result(Made(0), "main", None)))
    ensures exists cache' :: CanEnd(CyclicEnv(), map[], size, Key("q"), cache')
  {
    ServedRaced();
    RacedMerges();
    RacedResultsAre();
    CyclicEnds(size, s, Raced(), RacedResults(), HeldTwice(Content(map[]), Key("p"), Key("p"), Key("q")), Key("q"));
  }

  lemma RacedResultsAre()
    ensures RacedResults() == [Result(Made(0), "main", None)] + E.InOrder(Raced().returned, |Raced().submitted|)
    ensures Loaded(CyclicEnv(), RacedResults(), HeldTwice(Content(map[]), Key("p"), Key("p"), Key("q")), map[])
  {
  }

  /**
   On cyclic imports the schedule matters where documents dispute a path: these imports are uniform and
   all accepted, and with two workers or more the main document can end with either leaf.
   */
  lemma CyclicScheduleMatters(size: nat)
    requires size > 1
    ensures Uniform(CyclicEnv()) && !Acyclic(CyclicEnv())
    ensures exists cache' :: CanEnd(CyclicEnv(), map[], size, Key("p"), cache')
    ensures exists cache' :: CanEnd(CyclicEnv(), map[], size, Key("q"), cache')
  {
    CyclicIsCyclic();
    CyclicInTurn(size);
    CyclicRaced(size);
  }

  lemma CyclicIsCyclic()
    ensures Uniform(CyclicEnv()) && !Acyclic(CyclicEnv())
  {
    var env := CyclicEnv();
    OneClassIsUniform(env);
    ImportsAreImportable(env, "profile", "part");
    ImportsAreImportable(env, "part", "profile");
    assert Leads(env, ["profile", "part", "profile"], "profile", "profile");
  }
}
