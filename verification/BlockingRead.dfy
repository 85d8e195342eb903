/**
 The reader with a single thread: `_present` over BlockingExecutor, which runs each import as soon as
 it is submitted (aria/parser/consumption/presentation.py, aria/utils/threading.py).
 */
module BlockingRead {
  import opened Wrappers
  import opened ImportGraph
  import opened ResultMerge
  import opened PresentationMerge
  import opened CyclicReads
  import opened ReadPool
  import E = Executor

  ghost predicate FoundIn(results: seq<Result>, found: map<Loc, seq<Loc>>) {
    forall loc {:trigger LocsFrom(results, loc)} :: LocsFrom(results, loc) == if loc in found then found[loc] else []
  }

  lemma FoundAppend(results: seq<Result>, r: Result, found: map<Loc, seq<Loc>>)
    requires FoundIn(results, found) && r.origin.Some? && r.origin.value in found
    ensures FoundIn(results + [r], found[r.origin.value := found[r.origin.value] + [r.loc]])
  {
  }

  /** What the reader has cached, built and found at some time. */
  datatype Memory = Memory(cached: set<Loc>, built: seq<Loc>, found: map<Loc, seq<Loc>>)

  class BlockingReader {
    const env: Env
    const hits: set<Loc>
    /** The locations that the read needs. */
    ghost const needed: iset<Loc>
    var cache: map<Loc, Presentation>
    var built: seq<Loc>
    var returned: seq<Result>
    var raised: seq<Failure>
    /** The locations of the results whose origin is a given cached location, in order. */
    ghost var found: map<Loc, seq<Loc>>

    constructor (env: Env, hits: set<Loc>)
      ensures this.env == env && this.hits == hits
      ensures cache == map[] && built == [] && returned == [] && raised == [] && found == map[] && NeededKnown()
    {
      this.env, this.hits, needed := env, hits, iset loc | Needed(env, hits, loc);
      cache, built, returned, raised := map[], [], [], [];
      found := map[];
    }

    /** The presentation was built for the location, in its class. */
    ghost predicate MadeFor(p: Presentation, loc: Loc)
      reads this`built
    {
      p.Fresh? && p.presenter == env.classes(loc) && p.number < |built| && built[p.number] == loc
    }

    /** A result has a presentation of its location, and its location is one the read needs. */
    ghost predicate Fits(r: Result)
      reads this`cache, this`built
    {
      && r.loc in env.sources && r.loc in needed
      && (if r.loc in hits then r.presentation == Cached(r.loc) else MadeFor(r.presentation, r.loc) && r.loc in cache)
    }

    ghost predicate ReturnFits(i: nat)
      reads this`cache, this`built, this`returned
      requires i < |returned|
    {
      Fits(returned[i]) && returned[i].origin.Some?
    }

    /** What is built is cached, and was not built before. */
    ghost predicate BuiltOnce(i: nat)
      reads this`cache, this`built
      requires i < |built|
    {
      built[i] in cache && built[i] !in built[..i]
    }

    ghost predicate CacheFits(loc: Loc)
      reads this`cache, this`built
      requires loc in cache
    {
      loc in env.sources && loc !in hits && loc in needed && MadeFor(cache[loc], loc)
    }

    ghost predicate AllFound()
      reads this`returned, this`found
    {
      FoundIn(returned, found)
    }

    ghost predicate NeededKnown() {
      forall loc {:trigger Needed(env, hits, loc)} :: Needed(env, hits, loc) <==> loc in needed
    }

    ghost predicate Valid()
      reads this`cache, this`built, this`returned, this`found
    {
      && Uniform(env) && NeededKnown() && hits <= env.sources.Keys
      && (forall loc {:trigger CacheFits(loc)} | loc in cache :: CacheFits(loc))
      && (forall i {:trigger ReturnFits(i)} | 0 <= i < |returned| :: ReturnFits(i))
      && (forall i {:trigger BuiltOnce(i)} | 0 <= i < |built| :: BuiltOnce(i))
      && found.Keys == cache.Keys && AllFound()
    }

    /** The main job, or an import of a location that is being read. */
    ghost predicate IsJob(job: Job)
      reads this`cache
    {
      if job.origin.None? then job == MainJob(env)
      else
        && job.origin.value in cache && job.origin.value in env.sources
        && job.importer == Some(env.classes(job.origin.value)) && job.loc in ImportList(env, job.origin.value)
    }

    ghost predicate Answers(job: Job, outcome: Outcome)
      reads this`cache, this`built
    {
      match outcome
      case Return(r) => r.loc == job.loc && r.origin == job.origin && job.origin != Some(job.loc) && Fits(r)
      case Raise(_) => job.origin == Some(job.loc) || JobClass(env, job).None?
    }

    /** The results for a location that has been read are its importable imports, in order. */
    ghost predicate ReadFully(loc: Loc)
      reads this`found
    {
      loc in env.sources && loc in found && found[loc] == Keep(env, loc, ImportList(env, loc))
    }

    /** All locations that were cached since then have been read. */
    ghost predicate ReadSince(before: set<Loc>)
      reads this`cache, this`found
    {
      forall loc | loc in cache && loc !in before :: ReadFully(loc)
    }

    /** What was found for the locations cached before is as it was, but for one of them. */
    ghost predicate Unchanged(before: map<Loc, seq<Loc>>, but: Option<Loc>)
      reads this`found
    {
      forall l | l in before && Some(l) != but :: l in found && found[l] == before[l]
    }

    ghost function Now(): Memory
      reads this`cache, this`built, this`found
    {
      Memory(cache.Keys, built, found)
    }

    /** Since then caches and logs have grown, and what was cached has been read, all but for one location. */
    ghost predicate Since(before: Memory, but: Option<Loc>)
      reads this`cache, this`built, this`found
    {
      && before.cached <= cache.Keys && before.built <= built
      && ReadSince(before.cached) && Unchanged(before.found, but)
    }

    /** `_present`. A location that is read has its imports read before this returns. */
    method Present(job: Job) returns (outcome: Outcome)
      requires Valid() && IsJob(job)
      modifies this
      ensures Valid() && Answers(job, outcome)
      ensures Since(old(Now()), None)
      decreases env.sources.Keys - cache.Keys, 1
    {
      var loc := job.loc;
      if job.origin == Some(loc) {
        return E.Raise(Cancelled);
      }
      JobNeeded(job);
      if loc in hits {
        return E.Return(Result(Cached(loc), loc, job.origin));
      }
      if loc in cache {
        assert CacheFits(loc);
        return E.Return(Result(cache[loc], loc, job.origin));
      }
      match JobClass(env, job) {
        case None => outcome := E.Raise(LoadFailed(loc));
        case Some(presenter) =>
          var made := Read(loc, presenter);
          outcome := E.Return(Result(made, loc, job.origin));
      }
    }

    /** Creates the presentation of a location, caches it and reads its imports. */
    method Read(loc: Loc, presenter: Class) returns (made: Presentation)
      requires Valid() && loc !in cache && loc in env.sources && loc !in hits && loc in needed
      requires presenter == env.classes(loc)
      modifies this
      ensures Valid() && MadeFor(made, loc) && loc in cache
      ensures Since(old(Now()), None)
      decreases env.sources.Keys - cache.Keys, 0
    {
      made := Fresh(|built|, presenter);
      Insert(loc, made);
      SubmitImports(loc, presenter);
    }

    /** Puts a new presentation in the cache. */
    method Insert(loc: Loc, made: Presentation)
      requires Valid() && loc !in cache && loc in env.sources && loc !in hits && loc in needed
      requires made == Fresh(|built|, env.classes(loc))
      modifies this`cache, this`built, this`found
      ensures found == old(found)[loc := []]
      ensures Valid() && built == old(built) + [loc] && cache.Keys == old(cache.Keys) + {loc}
    {
      built, cache, found := built + [loc], cache[loc := made], found[loc := []];
      forall l | l in cache
        ensures CacheFits(l)
      {
        assert l != loc ==> old(CacheFits(l));
      }
      forall i | 0 <= i < |returned|
        ensures ReturnFits(i)
      {
        assert old(ReturnFits(i));
      }
      forall i | 0 <= i < |built|
        ensures BuiltOnce(i)
      {
        if i < |old(built)| {
          assert old(BuiltOnce(i)) && built[..i] == old(built)[..i];
        } else {
          forall j | 0 <= j < i
            ensures built[j] != loc
          {
            assert old(BuiltOnce(j));
          }
        }
      }
    }

    /** A job that is neither a self import nor fails to load is for a location that the read needs. */
    lemma JobNeeded(job: Job)
      requires Valid() && IsJob(job) && job.origin != Some(job.loc)
      ensures job.loc in env.sources ==> job.loc in needed && JobClass(env, job) == Some(env.classes(job.loc))
    {
      if job.loc in env.sources {
        if job.origin.None? {
          assert Followed(env, hits, [env.main]);
          assert Needed(env, hits, env.main);
        } else {
          assert CacheFits(job.origin.value);
          assert Needed(env, hits, job.origin.value);
          ImportsAreImportable(env, job.origin.value, job.loc);
          NeededStep(env, hits, job.origin.value, job.loc);
        }
      }
    }

    /** The loop that submits the imports of a location that was just put in the cache. */
    method SubmitImports(loc: Loc, presenter: Class)
      requires Valid() && presenter == env.classes(loc) && loc in cache && loc in env.sources && found[loc] == []
      modifies this
      ensures Valid() && Since(old(Now()), Some(loc))
      ensures loc in found && found[loc] == Keep(env, loc, ImportList(env, loc))
      decreases env.sources.Keys - cache.Keys, 4
    {
      ghost var start := Now();
      var imports := env.sources[loc].imports(presenter);
      assert imports[..|imports|] == imports;
      for i := 0 to |imports|
        invariant Submitted(start, loc, imports, i)
      {
        SubmitImport(start, loc, presenter, imports, i);
      }
    }

    /** The first i imports of the location have been submitted. */
    ghost predicate Submitted(start: Memory, loc: Loc, imports: seq<Loc>, i: nat)
      reads this`cache, this`built, this`returned, this`found
      requires i <= |imports|
    {
      && Valid() && Since(start, Some(loc))
      && loc in found && found[loc] == Keep(env, loc, imports[..i])
    }

    /** One round of the loop. */
    method SubmitImport(ghost start: Memory, loc: Loc, presenter: Class, imports: seq<Loc>, i: nat)
      requires i < |imports| && Submitted(start, loc, imports, i) && loc in start.cached
      requires loc in env.sources && presenter == env.classes(loc) && imports == ImportList(env, loc)
      modifies this
      ensures Submitted(start, loc, imports, i + 1)
      decreases env.sources.Keys - cache.Keys, 3
    {
      KeepNext(env, loc, imports, i);
      Submit(Job(imports[i], Some(loc), Some(presenter)));
    }

    /** BlockingExecutor.submit of a call of `_present`. */
    method Submit(job: Job)
      requires Valid() && IsJob(job) && job.origin.Some?
      modifies this
      ensures Valid() && Since(old(Now()), job.origin)
      ensures job.origin.value in found && found[job.origin.value] == old(found)[job.origin.value]
                + if Importable(env, job.origin.value, job.loc) then [job.loc] else []
      decreases env.sources.Keys - cache.Keys, 2
    {
      var outcome := Present(job);
      Record(job, outcome);
    }

    lemma ResultFits(main: Result, i: nat)
      requires Valid() && Fits(main) && i < |[main] + returned|
      ensures Fits(([main] + returned)[i])
    {
      assert i > 0 ==> ReturnFits(i - 1);
    }

    lemma SameLocs(main: Result)
      requires Valid() && Fits(main)
      ensures SamePresentationSameLoc([main] + returned)
    {
      forall i | 0 <= i < |[main] + returned|
        ensures Fits(([main] + returned)[i])
      {
        ResultFits(main, i);
      }
    }

    /** Each result of a finished read has the importable imports of its location behind it, in order. */
    lemma CompleteHere(main: Result, i: nat)
      requires Valid() && Fits(main) && main.origin.None? && ReadSince({}) && i < |[main] + returned|
      ensures ([main] + returned)[i].loc in env.sources && CompleteAt(env, hits, [main] + returned, i)
    {
      var loc := ([main] + returned)[i].loc;
      ResultFits(main, i);
      MainHasNoOrigin(main, returned, loc);
      DedupKeep(env, loc, ImportList(env, loc));
      if loc in cache {
        assert CacheFits(loc) && ReadFully(loc);
      }
    }

    lemma AllComplete(main: Result)
      requires Valid() && Fits(main) && main.origin.None? && main.loc == env.main && ReadSince({})
      ensures Complete(env, hits, [main] + returned)
    {
      var results := [main] + returned;
      SameLocs(main);
      forall i | 0 <= i < |results|
        ensures results[i].loc in env.sources && CompleteAt(env, hits, results, i)
      {
        ResultFits(main, i);
        CompleteHere(main, i);
      }
    }

    lemma NothingTwice()
      requires Valid()
      ensures forall i, j | 0 <= i < j < |built| :: built[i] != built[j]
    {
      forall i, j | 0 <= i < j < |built|
        ensures built[i] != built[j]
      {
        assert BuiltOnce(j) && built[..j][i] == built[i];
      }
    }

    /** Keeps the outcome of an import with the others. */
    method Record(job: Job, outcome: Outcome)
      requires Valid() && IsJob(job) && job.origin.Some? && Answers(job, outcome)
      modifies this`returned, this`raised, this`found
      ensures Valid()
      ensures job.origin.value in found && found[job.origin.value] == old(found)[job.origin.value]
                + if Importable(env, job.origin.value, job.loc) then [job.loc] else []
      ensures Unchanged(old(found), job.origin)
    {
      match outcome {
        case Return(r) => Append(r);
        case Raise(e) => raised := raised + [e];
      }
    }

    method Append(r: Result)
      requires Valid() && Fits(r) && r.origin.Some? && r.origin.value in cache
      modifies this`returned, this`found
      ensures Valid()
      ensures found == old(found)[r.origin.value := old(found)[r.origin.value] + [r.loc]]
    {
      FoundAppend(returned, r, found);
      forall i | 0 <= i < |returned + [r]|
        ensures Fits((returned + [r])[i]) && (returned + [r])[i].origin.Some?
      {
        assert i < |returned| ==> ReturnFits(i);
      }
      returned, found := returned + [r], found[r.origin.value := found[r.origin.value] + [r.loc]];
    }
  }

  /** `_present_all` with one thread: a complete result list, each location built once. */
  method PresentAll(env: Env, hits: set<Loc>) returns (results: seq<Result>, built: seq<Loc>)
    requires Uniform(env) && hits <= env.sources.Keys
    ensures Complete(env, hits, results)
    ensures forall i, j | 0 <= i < j < |built| :: built[i] != built[j]
  {
    var reader := new BlockingReader(env, hits);
    var outcome := reader.Present(MainJob(env));
    results := [outcome.value] + reader.returned;
    built := reader.built;
    reader.AllComplete(outcome.value);
    reader.NothingTwice();
  }

  /**
   A whole read with one thread, cold or warm: it gives the main document and the cache that the merge
   makes of a complete result list, as every run of the thread pool does; of acyclic imports, the
   recursive specification.
   */
  method ReadBlocking(env: Env, cache: map<Loc, Content>, caching: bool) returns (main: Content,
          cache': map<Loc, Content>)
    requires Uniform(env) && cache.Keys <= env.sources.Keys && (!caching ==> cache == map[])
    ensures exists left :: ReadGives(env, cache, main, left) && cache' == if caching then left else map[]
    ensures cache.Keys <= cache'.Keys && (caching ==> env.main in cache')
    ensures Acyclic(env) && CacheConsistent(env, cache) ==>
              main == Merged(env, env.main) && CacheConsistent(env, cache')
  {
    var results, _ := PresentAll(env, cache.Keys);
    var raws := LoadRaws(env, results, cache);
    CompleteIsDistinct(env, cache.Keys, results);
    main, cache' := Consume(env, results, raws, cache, caching);
    ghost var left := CachedUpTo(results, MergeAll(env, results, raws), cache, |results|);
    assert Gives(env, cache, results, raws, main, left);
    assert ReadGives(env, cache, main, left);
    CachedLocs(env, results, raws, cache);
    assert results[0].loc in left;
    if Acyclic(env) && CacheConsistent(env, cache) {
      AcyclicReadGives(env, cache, main, left);
    }
  }

  /** The documents of the presentations: as read from their sources, or as found in PRESENTATION_CACHE. */
  method LoadRaws(env: Env, results: seq<Result>, cache: map<Loc, Content>) returns (raws: map<Presentation, Content>)
    requires Complete(env, cache.Keys, results)
    ensures Loaded(env, results, raws, cache)
  {
    raws := map[];
    for i := 0 to |results|
      invariant forall j | 0 <= j < i ::
        && results[j].presentation in raws
        && raws[results[j].presentation] == (if results[j].loc in cache then cache[results[j].loc]
                                             else env.sources[results[j].loc].raw)
    {
      var loc := results[i].loc;
      raws := raws[results[i].presentation := if loc in cache then cache[loc] else env.sources[loc].raw];
    }
  }
}
