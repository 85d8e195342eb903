/**
 An input on which the schedule matters although the imports are acyclic: a document that declares
 no version is imported by presentations of two classes, only one of which accepts its import. It
 gets the class of whichever importer builds it first.
 */
module ClassSchedules {
  import opened Wrappers
  import opened Documents
  import opened ImportGraph
  import opened ResultMerge
  import opened CyclicReads
  import opened ReadPool
  import opened ReadRuns
  import opened ReadEvaluation
  import E = Executor

  const Simple: Class := "simple"
  const Nfv: Class := "nfv"

  function Declaring(version: string): Content {
    Content(map["tosca_definitions_version" := Leaf(version)])
  }

  /** The document that only the NFV presenter accepts. */
  function Types(): Content {
    Content(map["tosca_definitions_version" := Leaf("nfv"), "types" := Leaf("1")])
  }

  /** The versions that presenters accept: their own, and the NFV presenter the simple ones too. */
  function Allowed(presenter: Class): set<string> {
    if presenter == Nfv then {"nfv", "simple"} else {"simple"}
  }

  /**
   An NFV template that imports a simple document, which imports a document without a version, as the template
   does too.
   */
  function SharedEnv(classes: Loc -> Class): Env {
    Env("main",
        map["main" := Source(Declaring("nfv"), Some(Nfv), _ => ["extra", "shared"]),
            "extra" := Source(Declaring("simple"), Some(Simple), _ => ["shared"]),
            "shared" := Source(Content(map[]), None, _ => ["types"]),
            "types" := Source(Types(), Some(Nfv), _ => [])],
        (presenter, x) => Declares(x, Allowed(presenter)), classes)
  }

  lemma SharedImports(classes: Loc -> Class, from: Loc, to: Loc)
    ensures Edge(SharedEnv(classes), from, to) <==>
              (from, to) in {("main", "extra"), ("main", "shared"), ("extra", "shared"), ("shared", "types")}
  {
    var env := SharedEnv(classes);
    if from in env.sources {
      ImportsAreImportable(env, from, to);
    }
  }

  /** No choice of classes makes these imports uniform. */
  lemma SharedIsNotUniform(classes: Loc -> Class)
    ensures Acyclic(SharedEnv(classes)) && !Uniform(SharedEnv(classes))
  {
    var env := SharedEnv(classes);
    var rank: Loc -> nat := loc => if loc == "main" then 3 else if loc == "extra" then 2
        else if loc == "shared" then 1 else 0;
    forall from, to | Edge(env, from, to)
      ensures rank(to) < rank(from)
    {
      SharedImports(classes, from, to);
    }
    RankedIsAcyclic(env, rank);
    SharedImports(classes, "main", "shared");
    SharedImports(classes, "main", "extra");
    SharedImports(classes, "extra", "shared");
  }

  function Call(loc: Loc, origin: Loc, presenter: Class): Job {
    Job(loc, Some(origin), Some(presenter))
  }

  function MainCalls(): seq<Job> {
    [Call("extra", "main", Nfv), Call("shared", "main", Nfv)]
  }

  lemma SharedCalls(classes: Loc -> Class, presenter: Class)
    ensures JobClass(SharedEnv(classes), MainJob(SharedEnv(classes))) == Some(Nfv)
    ensures CallsOf(SharedEnv(classes), MainJob(SharedEnv(classes))) == MainCalls()
    ensures CallsOf(SharedEnv(classes), Call("extra", "main", Nfv)) == [Call("shared", "extra", Simple)]
    ensures CallsOf(SharedEnv(classes), Call("shared", "main", presenter)) == [Call("types", "shared", presenter)]
    ensures CallsOf(SharedEnv(classes), Call("shared", "extra", presenter)) == [Call("types", "shared", presenter)]
    ensures CallsOf(SharedEnv(classes), Call("types", "shared", presenter)) == []
  {
  }

  // ----- The template's own import comes first

  function FirstStart(): Quiet {
    Quiet(MainCalls(), 0, map[], map["main" := Fresh(0, Nfv)], 1)
  }

  function FirstEnd(): Quiet {
    Quiet(MainCalls() + [Call("shared", "extra", Simple), Call("types", "shared", Nfv)], 4,
          map[0 := Result(Fresh(1, Simple), "extra", Some("main")), 1 := Result(Fresh(2, Nfv), "shared", Some("main")),
              2 := Result(Fresh(2, Nfv), "shared", Some("extra")), 3 := Result(Fresh(3, Nfv), "types", Some("shared"))],
          map["main" := Fresh(0, Nfv), "extra" := Fresh(1, Simple), "shared" := Fresh(2, Nfv),
              "types" := Fresh(3, Nfv)], 4)
  }

  lemma ServedFirst(classes: Loc -> Class)
    ensures ServeMany(SharedEnv(classes), {}, FirstStart(), 4) == FirstEnd()
  {
    var env, q0 := SharedEnv(classes), FirstStart();
    SharedCalls(classes, Nfv);
    var jobs := MainCalls() + [Call("shared", "extra", Simple)];
    var r0, r1 := Result(Fresh(1, Simple), "extra", Some("main")), Result(Fresh(2, Nfv), "shared", Some("main"));
    var r2 := Result(Fresh(2, Nfv), "shared", Some("extra"));
    var q1 := Quiet(jobs, 1, map[0 := r0], map["main" := Fresh(0, Nfv), "extra" := Fresh(1, Simple)], 2);
    assert Serve(env, {}, q0) == q1;
    var jobs', cache := jobs + [Call("types", "shared", Nfv)],
        map["main" := Fresh(0, Nfv), "extra" := Fresh(1, Simple), "shared" := Fresh(2, Nfv)];
    var q2 := Quiet(jobs', 2, map[0 := r0, 1 := r1], cache, 3);
    assert Serve(env, {}, q1) == q2;
    var q3 := Quiet(jobs', 3, map[0 := r0, 1 := r1, 2 := r2], cache, 3);
    assert Serve(env, {}, q2) == q3;
    assert Serve(env, {}, q3) == FirstEnd();
    ServeFour(env, {}, q0);
  }

  function FirstResults(): seq<Result> {
    [Result(Fresh(0, Nfv), "main", None), Result(Fresh(1, Simple), "extra", Some("main")),
     Result(Fresh(2, Nfv), "shared", Some("main")),
     Result(Fresh(2, Nfv), "shared", Some("extra")), Result(Fresh(3, Nfv), "types", Some("shared"))]
  }

  // ----- The simple document's import comes first

  /** The main thread has submitted only its first import so far. */
  function LateStart(): Quiet {
    Quiet([Call("extra", "main", Nfv)], 0, map[], map["main" := Fresh(0, Nfv)], 1)
  }

  /** A worker has served two calls meanwhile, and the main thread has submitted the other one. */
  function LateMiddle(): Quiet {
    Quiet([Call("extra", "main", Nfv), Call("shared", "extra", Simple), Call("types", "shared", Simple)], 2,
          map[0 := Result(Fresh(1, Simple), "extra", Some("main")),
              1 := Result(Fresh(2, Simple), "shared", Some("extra"))],
          map["main" := Fresh(0, Nfv), "extra" := Fresh(1, Simple), "shared" := Fresh(2, Simple)], 3)
  }

  function LateEnd(): Quiet {
    Quiet(LateMiddle().submitted + [Call("shared", "main", Nfv)], 4,
          map[0 := Result(Fresh(1, Simple), "extra", Some("main")),
              1 := Result(Fresh(2, Simple), "shared", Some("extra")),
              2 := Result(Fresh(3, Nfv), "types", Some("shared")),
                  3 := Result(Fresh(2, Simple), "shared", Some("main"))],
          map["main" := Fresh(0, Nfv), "extra" := Fresh(1, Simple), "shared" := Fresh(2, Simple),
              "types" := Fresh(3, Nfv)], 4)
  }

  lemma ServedLate(classes: Loc -> Class)
    ensures ServeMany(SharedEnv(classes), {}, LateStart(), 2) == LateMiddle()
    ensures ServeMany(SharedEnv(classes), {},
                      LateMiddle().(submitted := LateMiddle().submitted + [Call("shared", "main", Nfv)]), 2) ==
                          LateEnd()
  {
    var env, q0 := SharedEnv(classes), LateStart();
    SharedCalls(classes, Simple);
    var r0 := Result(Fresh(1, Simple), "extra", Some("main"));
    var q1 := Quiet([Call("extra", "main", Nfv), Call("shared", "extra", Simple)], 1, map[0 := r0],
                    map["main" := Fresh(0, Nfv), "extra" := Fresh(1, Simple)], 2);
    assert Serve(env, {}, q0) == q1;
    assert Serve(env, {}, q1) == LateMiddle();
    ServeTwo(env, {}, q0);
    LateServed(classes);
  }

  lemma LateServed(classes: Loc -> Class)
    ensures ServeMany(SharedEnv(classes), {},
                      LateMiddle().(submitted := LateMiddle().submitted + [Call("shared", "main", Nfv)]), 2) ==
                          LateEnd()
  {
    var env := SharedEnv(classes);
    SharedCalls(classes, Simple);
    var q2 := LateMiddle().(submitted := LateMiddle().submitted + [Call("shared", "main", Nfv)]);
    var q3 := q2.(served := 3, returned := q2.returned[2 := Result(Fresh(3, Nfv), "types", Some("shared"))],
                  cache := q2.cache["types" := Fresh(3, Nfv)], made := 4);
    assert Serve(env, {}, q2) == q3;
    assert Serve(env, {}, q3) == LateEnd();
    ServeTwo(env, {}, q2);
  }

  function LateResults(): seq<Result> {
    [Result(Fresh(0, Nfv), "main", None), Result(Fresh(1, Simple), "extra", Some("main")),
     Result(Fresh(2, Simple), "shared", Some("extra")),
     Result(Fresh(3, Nfv), "types", Some("shared")), Result(Fresh(2, Simple), "shared", Some("main"))]
  }

  // ----- The merges

  /** The documents of the four presentations, the third of the given class. */
  function Held(presenter: Class, main: Content, shared: Content): map<Presentation, Content> {
    map[Fresh(0, Nfv) := main, Fresh(1, Simple) := Declaring("simple"), Fresh(2, presenter) := shared,
        Fresh(3, Nfv) := Types()]
  }

  lemma Imported(classes: Loc -> Class)
    ensures var env := SharedEnv(classes);
            && MergeImport(env, Nfv, Content(map[]), Types()) == Types()
            && MergeImport(env, Simple, Content(map[]), Types()) == Content(map[])
            && MergeImport(env, Simple, Declaring("simple"), Types()) == Declaring("simple")
            && MergeImport(env, Simple, Declaring("simple"), Content(map[])) == Declaring("simple")
            && MergeImport(env, Nfv, Declaring("nfv"), Declaring("simple")) == Declaring("simple")
            && MergeImport(env, Nfv, Declaring("simple"), Types()) == Types()
            && MergeImport(env, Nfv, Declaring("simple"), Content(map[])) == Declaring("simple")
  {
  }

  lemma FirstPicks()
    ensures var pick := Selected(FirstResults());
            pick("main") == [1, 2] && pick("extra") == [3] && pick("shared") == [4] && pick("types") == []
  {
    var r := FirstResults();
    TwoImports(r, "main", 1, 2, 5);
    OneImport(r, "extra", 3, 5);
    OneImport(r, "shared", 4, 5);
    NoImports(r, "types", 5);
  }

  lemma FirstSame()
    ensures var r := FirstResults();
            && SamePresentation(r, 0) == {0} && SamePresentation(r, 1) == {1}
            && SamePresentation(r, 3) == {2, 3} && SamePresentation(r, 4) == {4}
  {
  }

  /** The import is accepted by the shared document, and by the template. */
  lemma FirstShared(classes: Loc -> Class, s: MergeState)
    requires s == MergeState(Held(Nfv, Declaring("nfv"), Content(map[])), {0, 1}, [Fresh(0, Nfv), Fresh(1, Simple)])
    ensures var r := Merging(SharedEnv(classes), FirstResults(), Selected(FirstResults()), s, 3);
            r.raws == Held(Nfv, Declaring("nfv"), Types()) && r.merged == {0, 1, 2, 3, 4}
  {
    var env, r := SharedEnv(classes), FirstResults();
    FirstPicks();
    FirstSame();
    Imported(classes);
    var s1 := MergeState(s.raws, {0, 1, 2, 3}, s.loops + [Fresh(2, Nfv)]);
    MergeNoImports(env, r, s1, 4);
    var s2 := Merging(env, r, Selected(r), s1, 4);
    MergeOnly(env, r, s, 3, 4, s1, s2, s2.(raws := Held(Nfv, Declaring("nfv"), Types())));
  }

  lemma FirstExtra(classes: Loc -> Class, s: MergeState)
    requires s == MergeState(Held(Nfv, Declaring("nfv"), Content(map[])), {0}, [Fresh(0, Nfv)])
    ensures var r := Merging(SharedEnv(classes), FirstResults(), Selected(FirstResults()), s, 1);
            r.raws == Held(Nfv, Declaring("nfv"), Types()) && r.merged == {0, 1, 2, 3, 4}
  {
    var env, r := SharedEnv(classes), FirstResults();
    FirstPicks();
    FirstSame();
    Imported(classes);
    var s1 := MergeState(s.raws, {0, 1}, [Fresh(0, Nfv), Fresh(1, Simple)]);
    FirstShared(classes, s1);
    var s2 := Merging(env, r, Selected(r), s1, 3);
    MergeOnly(env, r, s, 1, 3, s1, s2, s2);
  }

  lemma FirstMerges(classes: Loc -> Class)
    ensures MergeAll(SharedEnv(classes), FirstResults(),
                     Held(Nfv, Declaring("nfv"), Content(map[]))).raws[Fresh(0, Nfv)] == Types()
  {
    var env, r := SharedEnv(classes), FirstResults();
    FirstPicks();
    FirstSame();
    Imported(classes);
    var s := Start(r, Held(Nfv, Declaring("nfv"), Content(map[])));
    var s1 := MergeState(s.raws, {0}, [Fresh(0, Nfv)]);
    FirstExtra(classes, s1);
    var s2 := Merging(env, r, Selected(r), s1, 1);
    var s3 := s2.(raws := s2.raws[Fresh(0, Nfv) := Declaring("simple")]);
    MergeBoth(env, r, s, 0, 1, 2, s1, s2, s3, s3, s3.(raws := s3.raws[Fresh(0, Nfv) := Types()]));
  }

  lemma LatePicks()
    ensures var pick := Selected(LateResults());
            pick("main") == [1, 4] && pick("extra") == [2] && pick("shared") == [3] && pick("types") == []
  {
    var r := LateResults();
    TwoImports(r, "main", 1, 4, 5);
    OneImport(r, "extra", 2, 5);
    OneImport(r, "shared", 3, 5);
    NoImports(r, "types", 5);
  }

  lemma LateSame()
    ensures var r := LateResults();
            && SamePresentation(r, 0) == {0} && SamePresentation(r, 1) == {1}
            && SamePresentation(r, 2) == {2, 4} && SamePresentation(r, 3) == {3}
  {
  }

  /** The shared document rejects its import. */
  lemma LateShared(classes: Loc -> Class, s: MergeState)
    requires s == MergeState(Held(Simple, Declaring("nfv"), Content(map[])), {0, 1}, [Fresh(0, Nfv), Fresh(1, Simple)])
    ensures var r := Merging(SharedEnv(classes), LateResults(), Selected(LateResults()), s, 2);
            r.raws == Held(Simple, Declaring("nfv"), Content(map[])) && r.merged == {0, 1, 2, 3, 4}
  {
    var env, r := SharedEnv(classes), LateResults();
    LatePicks();
    LateSame();
    Imported(classes);
    var s1 := MergeState(s.raws, {0, 1, 2, 4}, s.loops + [Fresh(2, Simple)]);
    MergeNoImports(env, r, s1, 3);
    var s2 := Merging(env, r, Selected(r), s1, 3);
    MergeOnly(env, r, s, 2, 3, s1, s2, s2.(raws := Held(Simple, Declaring("nfv"), Content(map[]))));
  }

  lemma LateExtra(classes: Loc -> Class, s: MergeState)
    requires s == MergeState(Held(Simple, Declaring("nfv"), Content(map[])), {0}, [Fresh(0, Nfv)])
    ensures var r := Merging(SharedEnv(classes), LateResults(), Selected(LateResults()), s, 1);
            r.raws == Held(Simple, Declaring("nfv"), Content(map[])) && r.merged == {0, 1, 2, 3, 4}
  {
    var env, r := SharedEnv(classes), LateResults();
    LatePicks();
    LateSame();
    Imported(classes);
    var s1 := MergeState(s.raws, {0, 1}, [Fresh(0, Nfv), Fresh(1, Simple)]);
    LateShared(classes, s1);
    var s2 := Merging(env, r, Selected(r), s1, 2);
    MergeOnly(env, r, s, 1, 2, s1, s2, s2);
  }

  lemma LateMerges(classes: Loc -> Class)
    ensures MergeAll(SharedEnv(classes), LateResults(),
                     Held(Simple, Declaring("nfv"), Content(map[]))).raws[Fresh(0, Nfv)] == Declaring("simple")
  {
    var env, r := SharedEnv(classes), LateResults();
    LatePicks();
    LateSame();
    Imported(classes);
    var s := Start(r, Held(Simple, Declaring("nfv"), Content(map[])));
    var s1 := MergeState(s.raws, {0}, [Fresh(0, Nfv)]);
    LateExtra(classes, s1);
    var s2 := Merging(env, r, Selected(r), s1, 1);
    var s3 := s2.(raws := s2.raws[Fresh(0, Nfv) := Declaring("simple")]);
    MergeBoth(env, r, s, 0, 1, 4, s1, s2, s3, s3, s3.(raws := s3.raws[Fresh(0, Nfv) := Declaring("simple")]));
  }

  // ----- The runs

  /** A finished run of these calls. */
  lemma SharedEnds(classes: Loc -> Class, size: nat, s: State, q: Quiet, results: seq<Result>,
          raws: map<Presentation, Content>, main: Content)
    requires Comes(SharedEnv(classes), {}, Init(size), s) && At(s, q) && q.served == |q.submitted|
    requires s.main == Some(E.Return(Result(Fresh(0, Nfv), "main", None)))
    requires results == [Result(Fresh(0, Nfv), "main", None)] + E.InOrder(q.returned, |q.submitted|)
    requires Loaded(SharedEnv(classes), results, raws, map[])
             && MergeAll(SharedEnv(classes), results, raws).raws[Fresh(0, Nfv)] == main
    ensures exists cache' :: CanEnd(SharedEnv(classes), map[], size, main, cache')
  {
    var env, cold: map<Loc, Content> := SharedEnv(classes), map[];
    SharedCalls(classes, Nfv);
    assert cold.Keys == {};
    assert results == ResultsOf(env, q);
    var cache' := CachedUpTo(results, MergeAll(env, results, raws), cold, |results|);
    QuietEnds(env, cold, size, s, q, raws, main, cache');
  }

  lemma FirstRuns(classes: Loc -> Class, size: nat)
    requires size > 0
    ensures exists cache' :: CanEnd(SharedEnv(classes), map[], size, Types(), cache')
  {
    var env := SharedEnv(classes);
    SharedCalls(classes, Nfv);
    var s0 := MainBegins(env, {}, size);
    var s1 := MainEnds(env, {}, s0, MainFirst(env, 0), 0);
    assert At(s1, FirstStart());
    var s2 := ServesMany(env, {}, s1, FirstStart(), 4);
    ComesThen(env, {}, Init(size), s0, s1);
    ComesThen(env, {}, Init(size), s1, s2);
    FirstEnds(classes, size, s2, ServeMany(env, {}, FirstStart(), 4));
  }

  lemma FirstEnds(classes: Loc -> Class, size: nat, s: State, q: Quiet)
    requires Comes(SharedEnv(classes), {}, Init(size), s) && At(s, q)
             && q == ServeMany(SharedEnv(classes), {}, FirstStart(), 4)
    requires s.main == Some(E.Return(Result(Fresh(0, Nfv), "main", None)))
    ensures exists cache' :: CanEnd(SharedEnv(classes), map[], size, Types(), cache')
  {
    ServedFirst(classes);
    FirstMerges(classes);
    FirstResultsAre(classes);
    SharedEnds(classes, size, s, FirstEnd(), FirstResults(), Held(Nfv, Declaring("nfv"), Content(map[])), Types());
  }

  lemma FirstResultsAre(classes: Loc -> Class)
    ensures FirstResults() == [Result(Fresh(0, Nfv), "main", None)]
            + E.InOrder(FirstEnd().returned, |FirstEnd().submitted|)
    ensures Loaded(SharedEnv(classes), FirstResults(), Held(Nfv, Declaring("nfv"), Content(map[])), map[])
  {
  }

  lemma LateRuns(classes: Loc -> Class, size: nat)
    requires size > 0
    ensures exists cache' :: CanEnd(SharedEnv(classes), map[], size, Declaring("simple"), cache')
  {
    var env := SharedEnv(classes);
    var s2 := LateWorks(classes, size);
    SharedCalls(classes, Nfv);
    var s3 := MainEnds(env, {}, s2, LateMiddle(), 1);
    assert MainCalls()[1..] == [Call("shared", "main", Nfv)];
    var q := LateMiddle().(submitted := LateMiddle().submitted + [Call("shared", "main", Nfv)]);
    var s4 := ServesMany(env, {}, s3, q, 2);
    ComesThen(env, {}, Init(size), s2, s3);
    ComesThen(env, {}, Init(size), s3, s4);
    ServedLate(classes);
    LateEnds(classes, size, s4, LateEnd());
  }

  /** The main thread submits one import. */
  lemma LateBegins(classes: Loc -> Class, size: nat) returns (s: State)
    requires size > 0
    ensures JobClass(SharedEnv(classes), MainJob(SharedEnv(classes))).Some?
    ensures Comes(SharedEnv(classes), {}, Init(size), s) && At(s, LateStart()) && MainAt(SharedEnv(classes), s, 1)
  {
    var env := SharedEnv(classes);
    SharedCalls(classes, Nfv);
    var s0 := MainBegins(env, {}, size);
    s := MainSubmits(env, {}, s0, 0);
    assert MainFirst(env, 1) == LateStart();
    ComesThen(env, {}, Init(size), s0, s);
  }

  /** Then a worker serves two calls. */
  lemma LateWorks(classes: Loc -> Class, size: nat) returns (s: State)
    requires size > 0
    ensures JobClass(SharedEnv(classes), MainJob(SharedEnv(classes))).Some?
    ensures Comes(SharedEnv(classes), {}, Init(size), s) && At(s, LateMiddle()) && MainAt(SharedEnv(classes), s, 1)
  {
    var s1 := LateBegins(classes, size);
    s := LateServes(classes, s1, LateStart());
    ComesThen(SharedEnv(classes), {}, Init(size), s1, s);
  }

  lemma LateServes(classes: Loc -> Class, s: State, q: Quiet) returns (s': State)
    requires At(s, q) && q == LateStart()
    ensures Comes(SharedEnv(classes), {}, s, s') && At(s', LateMiddle())
    ensures |s'.pool.workers| == |s.pool.workers| && s'.pcs[|s.pool.workers|] == s.pcs[|s.pool.workers|]
  {
    s' := ServesMany(SharedEnv(classes), {}, s, q, 2);
    ServedLate(classes);
  }

  lemma LateEnds(classes: Loc -> Class, size: nat, s: State, q: Quiet)
    requires Comes(SharedEnv(classes), {}, Init(size), s) && At(s, q) && q == LateEnd()
    requires s.main == Some(E.Return(Result(Fresh(0, Nfv), "main", None)))
    ensures exists cache' :: CanEnd(SharedEnv(classes), map[], size, Declaring("simple"), cache')
  {
    LateMerges(classes);
    LateResultsAre(classes);
    SharedEnds(classes, size, s, LateEnd(), LateResults(), Held(Simple, Declaring("nfv"), Content(map[])),
               Declaring("simple"));
  }

  lemma LateResultsAre(classes: Loc -> Class)
    ensures LateResults() == [Result(Fresh(0, Nfv), "main", None)]
            + E.InOrder(LateEnd().returned, |LateEnd().submitted|)
    ensures Loaded(SharedEnv(classes), LateResults(), Held(Simple, Declaring("nfv"), Content(map[])), map[])
  {
  }

  /**
   Where importers of two classes share a document that declares no version, the schedule matters on
   acyclic imports too: the read can end with or without the types that only one of the classes accepts.
   */
  lemma ClassScheduleMatters(classes: Loc -> Class, size: nat)
    requires size > 0
    ensures Acyclic(SharedEnv(classes)) && !Uniform(SharedEnv(classes))
    ensures exists cache' :: CanEnd(SharedEnv(classes), map[], size, Types(), cache')
    ensures exists cache' :: CanEnd(SharedEnv(classes), map[], size, Declaring("simple"), cache')
    ensures "types" in Types().entries && "types" !in Declaring("simple").entries
  {
    SharedIsNotUniform(classes);
    FirstRuns(classes, size);
    LateRuns(classes, size);
  }
}
