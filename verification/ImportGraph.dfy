/**
 What the import reader of aria/parser/consumption/presentation.py is meant to compute.

 The sources of a run are fixed: each canonical location has a raw document, the presenter class
 that its version names, if any, and the canonical locations of its imports, in order. A location
 without a source fails to load. Self imports are skipped. `Merged` is the recursive specification
 of a fully merged document.
 */
module ImportGraph {
  import opened Wrappers
  import opened Documents

  type Loc = string

  /** What a presentation wraps: a raw document. */
  datatype Content = Content(entries: Document)

  /** A presenter class. */
  type Class = string

  /**
   A document that names no class of its own gets that of the importer that builds it. The class adds imports
   of its own: its profile.
   */
  datatype Source = Source(raw: Content, own: Option<Class>, imports: Class -> seq<Loc>)

  /**
   `accepts(class, imported)` is the check of an imported document by a presentation of that class.
   `classes` is the class that each location is to be read in; only the specification refers to it.
   */
  datatype Env = Env(main: Loc, sources: map<Loc, Source>, accepts: (Class, Content) -> bool, classes: Loc -> Class)

  /** The class of a presentation of the location that is built for an importer of the given class. */
  function ClassFor(env: Env, loc: Loc, importer: Option<Class>): Option<Class> {
    if loc !in env.sources then None
    else if env.sources[loc].own.Some? then env.sources[loc].own
    else importer
  }

  /** The import yields a presentation: it is not a self import and it loads. */
  predicate Importable(env: Env, origin: Loc, loc: Loc) {
    loc != origin && loc in env.sources
  }

  function Keep(env: Env, origin: Loc, locs: seq<Loc>): seq<Loc> {
    if locs == [] then []
    else
      var last := locs[|locs| - 1];
      Keep(env, origin, locs[..|locs| - 1]) + if Importable(env, origin, last) then [last] else []
  }

  /** The first occurrence of each location. */
  function Dedup(locs: seq<Loc>): seq<Loc> {
    if locs == [] then []
    else
      var last, rest := locs[|locs| - 1], Dedup(locs[..|locs| - 1]);
      if last in rest then rest else rest + [last]
  }

  /** Nothing is dropped and nothing is repeated. */
  lemma {:induction false} DedupMembers(locs: seq<Loc>, l: Loc)
    ensures l in Dedup(locs) <==> l in locs
  {
    if locs != [] {
      var last, rest := locs[|locs| - 1], locs[..|locs| - 1];
      DedupMembers(rest, l);
      assert locs == rest + [last];
    }
  }

  lemma {:induction false} DedupDistinct(locs: seq<Loc>)
    ensures forall i, j | 0 <= i < j < |Dedup(locs)| :: Dedup(locs)[i] != Dedup(locs)[j]
  {
    if locs != [] {
      DedupDistinct(locs[..|locs| - 1]);
    }
  }

  lemma DedupAppend(locs: seq<Loc>, l: Loc)
    ensures Dedup(locs + [l]) == if l in locs then Dedup(locs) else Dedup(locs) + [l]
  {
    assert (locs + [l])[..|locs|] == locs;
    DedupMembers(locs, l);
  }

  lemma KeepAppend(env: Env, origin: Loc, locs: seq<Loc>, l: Loc)
    ensures Keep(env, origin, locs + [l]) == Keep(env, origin, locs) + if Importable(env, origin, l) then [l] else []
  {
    assert (locs + [l])[..|locs|] == locs;
  }

  lemma KeepNext(env: Env, origin: Loc, locs: seq<Loc>, i: nat)
    requires i < |locs|
    ensures Keep(env, origin, locs[..i + 1]) == Keep(env, origin, locs[..i])
            + if Importable(env, origin, locs[i]) then [locs[i]] else []
  {
    assert locs[..i + 1] == locs[..i] + [locs[i]];
    KeepAppend(env, origin, locs[..i], locs[i]);
  }

  lemma {:induction false} KeepMembers(env: Env, origin: Loc, locs: seq<Loc>, l: Loc)
    ensures l in Keep(env, origin, locs) <==> l in locs && Importable(env, origin, l)
  {
    if locs != [] {
      KeepMembers(env, origin, locs[..|locs| - 1], l);
      assert locs == locs[..|locs| - 1] + [locs[|locs| - 1]];
    }
  }

  /** Dropping what is not importable and dropping repetitions commute. */
  lemma {:induction false} DedupKeep(env: Env, origin: Loc, locs: seq<Loc>)
    ensures Dedup(Keep(env, origin, locs)) == Keep(env, origin, Dedup(locs))
  {
    if locs != [] {
      var rest, last := locs[..|locs| - 1], locs[|locs| - 1];
      DedupKeep(env, origin, rest);
      KeepMembers(env, origin, rest, last);
      DedupMembers(rest, last);
      DedupAppend(Keep(env, origin, rest), last);
      KeepAppend(env, origin, Dedup(rest), last);
      assert Keep(env, origin, rest) + [] == Keep(env, origin, rest);
      assert Keep(env, origin, Dedup(rest)) + [] == Keep(env, origin, Dedup(rest));
    }
  }

  /** The imports that a document has in its class. */
  function ImportList(env: Env, loc: Loc): seq<Loc>
    requires loc in env.sources
  {
    env.sources[loc].imports(env.classes(loc))
  }

  /** The imports to merge into a document, in order. */
  function ImportsOf(env: Env, loc: Loc): seq<Loc>
    requires loc in env.sources
  {
    Dedup(Keep(env, loc, ImportList(env, loc)))
  }

  lemma ImportsAreImportable(env: Env, loc: Loc, l: Loc)
    requires loc in env.sources
    ensures l in ImportsOf(env, loc) <==> l in ImportList(env, loc) && Importable(env, loc, l)
  {
    KeepMembers(env, loc, ImportList(env, loc), l);
    DedupMembers(Keep(env, loc, ImportList(env, loc)), l);
  }

  /** An import list without self imports, failing imports and repetitions is merged as it is. */
  lemma {:induction false} PlainImports(env: Env, origin: Loc, locs: seq<Loc>)
    requires forall i | 0 <= i < |locs| :: Importable(env, origin, locs[i])
    requires forall i, j | 0 <= i < j < |locs| :: locs[i] != locs[j]
    ensures Dedup(Keep(env, origin, locs)) == locs
  {
    if locs != [] {
      var n := |locs| - 1;
      PlainImports(env, origin, locs[..n]);
      DedupAppend(Keep(env, origin, locs[..n]), locs[n]);
      KeepMembers(env, origin, locs[..n], locs[n]);
    }
  }

  lemma PlainImportsOf(env: Env, loc: Loc, locs: seq<Loc>)
    requires loc in env.sources && ImportList(env, loc) == locs
    requires forall i | 0 <= i < |locs| :: Importable(env, loc, locs[i])
    requires forall i, j | 0 <= i < j < |locs| :: locs[i] != locs[j]
    ensures ImportsOf(env, loc) == locs
  {
    PlainImports(env, loc, locs);
  }

  predicate Edge(env: Env, from: Loc, to: Loc) {
    from in env.sources && to in ImportsOf(env, from)
  }

  /**
   Every location is read in its class, whoever builds its presentation: main names its class, and all
   importers of a document that names none are read in the class that it is read in.
   */
  ghost predicate Uniform(env: Env) {
    && ClassFor(env, env.main, None) == Some(env.classes(env.main))
    && forall from, to | Edge(env, from, to) :: ClassFor(env, to, Some(env.classes(from))) == Some(env.classes(to))
  }

  /** It is enough that no document names another class than main does. */
  lemma OneClassIsUniform(env: Env)
    requires env.main in env.sources && env.sources[env.main].own.Some?
    requires forall loc | loc in env.sources :: env.sources[loc].own in {None, env.sources[env.main].own}
    requires forall loc :: Some(env.classes(loc)) == env.sources[env.main].own
    ensures Uniform(env)
  {
    forall from, to | Edge(env, from, to)
      ensures ClassFor(env, to, Some(env.classes(from))) == Some(env.classes(to))
    {
      ImportsAreImportable(env, from, to);
    }
  }

  ghost predicate IsPath(env: Env, path: seq<Loc>) {
    && path != [] && path[0] in env.sources
    && forall i | 0 <= i < |path| - 1 :: Edge(env, path[i], path[i + 1])
  }

  ghost predicate Leads(env: Env, path: seq<Loc>, from: Loc, to: Loc) {
    IsPath(env, path) && path[0] == from && path[|path| - 1] == to
  }

  ghost predicate Reaches(env: Env, from: Loc, to: Loc) {
    exists path :: Leads(env, path, from, to)
  }

  /** No location imports itself through others. */
  ghost predicate Acyclic(env: Env) {
    forall path, loc :: Leads(env, path, loc, loc) ==> |path| == 1
  }

  ghost function ReachSet(env: Env, from: Loc): set<Loc> {
    set l | l in env.sources && Reaches(env, from, l)
  }

  /** Acyclic imports have a rank that every import lowers. */
  ghost function Rank(env: Env, loc: Loc): nat {
    |ReachSet(env, loc)|
  }

  lemma EdgeExtendsPath(env: Env, path: seq<Loc>, from: Loc, to: Loc, last: Loc)
    requires Edge(env, from, to) && Leads(env, path, to, last)
    ensures Leads(env, [from] + path, from, last)
  {
    var longer := [from] + path;
    forall i | 0 <= i < |longer| - 1
      ensures Edge(env, longer[i], longer[i + 1])
    {
      assert i > 0 ==> Edge(env, path[i - 1], path[i]);
    }
  }

  lemma ImportsRankLower(env: Env, from: Loc, to: Loc)
    requires Acyclic(env) && Edge(env, from, to)
    ensures to in env.sources && Rank(env, to) < Rank(env, from)
  {
    ImportsAreImportable(env, from, to);
    var outer, inner := ReachSet(env, from), ReachSet(env, to);
    assert Leads(env, [from], from, from);
    assert from in outer;
    forall l | l in inner
      ensures l in outer
    {
      var path :| Leads(env, path, to, l);
      EdgeExtendsPath(env, path, from, to, l);
    }
    if from in inner {
      var path :| Leads(env, path, to, from);
      EdgeExtendsPath(env, path, from, to, from);
      assert false;
    }
    ProperSubsetIsSmaller(inner, outer);
  }

  /** Conversely, imports with such a rank are acyclic. */
  lemma RankedIsAcyclic(env: Env, rank: Loc -> nat)
    requires forall from, to | Edge(env, from, to) :: rank(to) < rank(from)
    ensures Acyclic(env)
  {
    forall path, loc | Leads(env, path, loc, loc)
      ensures |path| == 1
    {
      PathLowers(env, rank, path, |path| - 1);
    }
  }

  lemma {:induction false} PathLowers(env: Env, rank: Loc -> nat, path: seq<Loc>, n: nat)
    requires forall from, to | Edge(env, from, to) :: rank(to) < rank(from)
    requires IsPath(env, path) && n < |path|
    ensures if n == 0 then rank(path[n]) == rank(path[0]) else rank(path[n]) < rank(path[0])
  {
    if n > 0 {
      PathLowers(env, rank, path, n - 1);
      assert Edge(env, path[n - 1], path[n - 1 + 1]);
    }
  }

  lemma ProperSubsetIsSmaller<T>(a: set<T>, b: set<T>)
    requires a < b
    ensures |a| < |b|
  {
    var c := b - a;
    assert b == a + c && c != {};
    assert |b| == |a| + |c|;
  }

  /** One import merged into a document, unless the importing presentation rejects it. */
  function MergeImport(env: Env, presenter: Class, raw: Content, imported: Content): Content {
    if env.accepts(presenter, imported) then Content(Merge(raw.entries, imported.entries)) else raw
  }

  /** The document of a location with all its imports merged into it, each one fully merged itself. */
  ghost function Merged(env: Env, loc: Loc): Content
    requires Acyclic(env) && loc in env.sources
    decreases Rank(env, loc), |ImportsOf(env, loc)| + 1
  {
    MergedUpTo(env, loc, |ImportsOf(env, loc)|)
  }

  /** The document of a location with the first n of its imports merged into it. */
  ghost function MergedUpTo(env: Env, loc: Loc, n: nat): Content
    requires Acyclic(env) && loc in env.sources && n <= |ImportsOf(env, loc)|
    decreases Rank(env, loc), n
  {
    if n == 0 then env.sources[loc].raw
    else
      var imported := ImportsOf(env, loc)[n - 1];
      ImportsRankLower(env, loc, imported);
      MergeImport(env, env.classes(loc), MergedUpTo(env, loc, n - 1), Merged(env, imported))
  }

  // ----- Reading another main location

  /** The same sources, read from another main location. */
  function From(env: Env, main: Loc): Env {
    env.(main := main)
  }

  lemma {:induction false} FromKeeps(env: Env, main: Loc, origin: Loc, locs: seq<Loc>)
    ensures Keep(From(env, main), origin, locs) == Keep(env, origin, locs)
  {
    if locs != [] {
      FromKeeps(env, main, origin, locs[..|locs| - 1]);
    }
  }

  lemma FromEdge(env: Env, main: Loc, from: Loc, to: Loc)
    ensures Edge(From(env, main), from, to) <==> Edge(env, from, to)
  {
    if from in env.sources {
      FromKeeps(env, main, from, ImportList(env, from));
    }
  }

  lemma FromLeads(env: Env, main: Loc, path: seq<Loc>, from: Loc, to: Loc)
    ensures Leads(From(env, main), path, from, to) <==> Leads(env, path, from, to)
  {
    forall i | 0 <= i < |path| - 1
      ensures Edge(From(env, main), path[i], path[i + 1]) <==> Edge(env, path[i], path[i + 1])
    {
      FromEdge(env, main, path[i], path[i + 1]);
    }
  }

  lemma FromReaches(env: Env, main: Loc, from: Loc, to: Loc)
    ensures Reaches(From(env, main), from, to) <==> Reaches(env, from, to)
  {
    if path :| Leads(env, path, from, to) {
      FromLeads(env, main, path, from, to);
    }
    if path :| Leads(From(env, main), path, from, to) {
      FromLeads(env, main, path, from, to);
    }
  }

  lemma FromAcyclic(env: Env, main: Loc)
    requires Acyclic(env)
    ensures Acyclic(From(env, main))
  {
    forall path, loc | Leads(From(env, main), path, loc, loc)
      ensures |path| == 1
    {
      FromLeads(env, main, path, loc, loc);
    }
  }

  /** The fully merged document of a location is the same from wherever it is read. */
  lemma {:induction false} FromMerged(env: Env, main: Loc, loc: Loc, n: nat)
    requires Acyclic(env) && Acyclic(From(env, main)) && loc in env.sources && n <= |ImportsOf(env, loc)|
    ensures ImportsOf(From(env, main), loc) == ImportsOf(env, loc)
    ensures MergedUpTo(From(env, main), loc, n) == MergedUpTo(env, loc, n)
    decreases Rank(env, loc), n
  {
    FromKeeps(env, main, loc, ImportList(env, loc));
    if n > 0 {
      var imported := ImportsOf(env, loc)[n - 1];
      FromMerged(env, main, loc, n - 1);
      ImportsRankLower(env, loc, imported);
      FromMerged(env, main, imported, |ImportsOf(env, imported)|);
    }
  }

  // ----- Results of a read

  /** A presentation object: created by this read in some class, or found in PRESENTATION_CACHE. */
  datatype Presentation = Fresh(number: nat, presenter: Class) | Cached(loc: Loc)

  datatype Result = Result(presentation: Presentation, loc: Loc, origin: Option<Loc>)

  /** The class of a result's presentation; one found in PRESENTATION_CACHE has no imports in this read. */
  function ClassOf(env: Env, r: Result): Class {
    match r.presentation
    case Fresh(_, presenter) => presenter
    case Cached(loc) => env.classes(loc)
  }

  /** The locations of the results with a given origin, in order. */
  function LocsFrom(results: seq<Result>, origin: Loc): seq<Loc> {
    if results == [] then []
    else
      var last := results[|results| - 1];
      LocsFrom(results[..|results| - 1], origin) + if last.origin == Some(origin) then [last.loc] else []
  }

  lemma LocsFromAppend(results: seq<Result>, r: Result, origin: Loc)
    ensures LocsFrom(results + [r], origin) == LocsFrom(results, origin)
            + if r.origin == Some(origin) then [r.loc] else []
  {
    assert (results + [r])[..|results|] == results;
  }

  lemma {:induction false} MainHasNoOrigin(main: Result, results: seq<Result>, origin: Loc)
    requires main.origin == None
    ensures LocsFrom([main] + results, origin) == LocsFrom(results, origin)
  {
    if results == [] {
      assert [main] + results == [main];
      assert LocsFrom([main], origin) == LocsFrom([], origin) + [];
    } else {
      var n := |results| - 1;
      MainHasNoOrigin(main, results[..n], origin);
      assert ([main] + results)[..n + 1] == [main] + results[..n];
    }
  }

  /** The imports whose documents a read looks for: none for a location found in PRESENTATION_CACHE. */
  function Expanded(env: Env, hits: set<Loc>, loc: Loc): seq<Loc>
    requires loc in env.sources
  {
    if loc in hits then [] else ImportsOf(env, loc)
  }

  /** The read follows this path from the main location: it only continues from cache misses. */
  ghost predicate Followed(env: Env, hits: set<Loc>, path: seq<Loc>) {
    && IsPath(env, path) && path[0] == env.main
    && forall i | 0 <= i < |path| - 1 :: path[i] !in hits
  }

  ghost predicate Needed(env: Env, hits: set<Loc>, loc: Loc) {
    exists path :: Followed(env, hits, path) && path[|path| - 1] == loc
  }

  lemma NeededStep(env: Env, hits: set<Loc>, from: Loc, to: Loc)
    requires Needed(env, hits, from) && from !in hits && Edge(env, from, to)
    ensures Needed(env, hits, to)
  {
    var path :| Followed(env, hits, path) && path[|path| - 1] == from;
    var longer := path + [to];
    forall i | 0 <= i < |longer| - 1
      ensures Edge(env, longer[i], longer[i + 1]) && longer[i] !in hits
    {
      assert i < |path| - 1 ==> Edge(env, path[i], path[i + 1]);
    }
    assert Followed(env, hits, longer);
  }

  // ----- Imports under any class

  /** The location is an import of the other if that is read in some class. */
  ghost predicate SomeEdge(env: Env, from: Loc, to: Loc) {
    from in env.sources && Importable(env, from, to) && exists presenter :: to in env.sources[from].imports(presenter)
  }

  /** The read may come to the end of this path, whichever classes the presentations get. */
  ghost predicate Possible(env: Env, hits: set<Loc>, path: seq<Loc>) {
    && path != [] && path[0] == env.main && env.main in env.sources
    && forall i | 0 <= i < |path| - 1 :: SomeEdge(env, path[i], path[i + 1]) && path[i] !in hits
  }

  ghost predicate Sought(env: Env, hits: set<Loc>, loc: Loc) {
    exists path :: Possible(env, hits, path) && path[|path| - 1] == loc
  }

  lemma SoughtStep(env: Env, hits: set<Loc>, from: Loc, to: Loc)
    requires Sought(env, hits, from) && from !in hits && SomeEdge(env, from, to)
    ensures Sought(env, hits, to)
  {
    var path :| Possible(env, hits, path) && path[|path| - 1] == from;
    var longer := path + [to];
    forall i | 0 <= i < |longer| - 1
      ensures SomeEdge(env, longer[i], longer[i + 1]) && longer[i] !in hits
    {
      assert i < |path| - 1 ==> SomeEdge(env, path[i], path[i + 1]);
    }
    assert Possible(env, hits, longer);
  }

  /** What is needed if each location is read in its class is sought. */
  lemma NeededIsSought(env: Env, hits: set<Loc>, loc: Loc)
    requires Needed(env, hits, loc)
    ensures Sought(env, hits, loc)
  {
    var path :| Followed(env, hits, path) && path[|path| - 1] == loc;
    forall i | 0 <= i < |path| - 1
      ensures SomeEdge(env, path[i], path[i + 1])
    {
      assert Edge(env, path[i], path[i + 1]);
      ImportsAreImportable(env, path[i], path[i + 1]);
    }
    assert Possible(env, hits, path);
  }

  /**
   A complete result list: the main result first, then one or more results for each import of each
   location read, such that dropping repetitions leaves the imports in their order.
   */
  ghost predicate Complete(env: Env, hits: set<Loc>, results: seq<Result>) {
    && results != [] && results[0].loc == env.main && results[0].origin == None
    && SamePresentationSameLoc(results)
    && (forall i | 0 <= i < |results| :: results[i].loc in env.sources)
    && forall i | 0 <= i < |results| :: CompleteAt(env, hits, results, i)
  }

  ghost predicate CompleteAt(env: Env, hits: set<Loc>, results: seq<Result>, i: nat)
    requires i < |results| && results[i].loc in env.sources
  {
    var loc := results[i].loc;
    && Needed(env, hits, loc)
    && (if loc in hits then results[i].presentation == Cached(loc)
        else results[i].presentation.Fresh? && results[i].presentation.presenter == env.classes(loc))
    && Dedup(LocsFrom(results, loc)) == Expanded(env, hits, loc)
  }

  predicate SamePresentationSameLoc(results: seq<Result>) {
    forall i, j | 0 <= i < |results| && 0 <= j < |results| ::
      results[i].presentation == results[j].presentation ==> results[i].loc == results[j].loc
  }

  /** The contents of PRESENTATION_CACHE are fully merged documents of their locations. */
  ghost predicate CacheConsistent(env: Env, cache: map<Loc, Content>)
    requires Acyclic(env)
  {
    forall loc | loc in cache :: loc in env.sources && cache[loc] == Merged(env, loc)
  }

  lemma FromConsistent(env: Env, main: Loc, cache: map<Loc, Content>)
    requires Acyclic(env) && CacheConsistent(env, cache)
    ensures Acyclic(From(env, main)) && CacheConsistent(From(env, main), cache)
  {
    FromAcyclic(env, main);
    forall loc | loc in cache
      ensures cache[loc] == Merged(From(env, main), loc)
    {
      FromMerged(env, main, loc, |ImportsOf(env, loc)|);
    }
  }

  /** The closure: the locations with a result are exactly those the read needs. */
  lemma {:induction false} CompleteClosure(env: Env, hits: set<Loc>, results: seq<Result>,
          path: seq<Loc>) returns (i: nat)
    requires Complete(env, hits, results) && Followed(env, hits, path)
    ensures i < |results| && results[i].loc == path[|path| - 1]
    ensures |path| > 1 ==> results[i].origin == Some(path[|path| - 2])
  {
    if |path| == 1 {
      i := 0;
    } else {
      var shorter, from, to := path[..|path| - 1], path[|path| - 2], path[|path| - 1];
      assert forall k | 0 <= k < |shorter| - 1 :: Edge(env, path[k], path[k + 1]);
      assert Followed(env, hits, shorter);
      var j := CompleteClosure(env, hits, results, shorter);
      assert Edge(env, path[|path| - 2], path[|path| - 1]);
      assert CompleteAt(env, hits, results, j);
      assert to in Dedup(LocsFrom(results, from));
      DedupMembers(LocsFrom(results, from), to);
      i := LocsFromIndex(results, from, to);
    }
  }

  lemma {:induction false} LocsFromIndex(results: seq<Result>, origin: Loc, loc: Loc) returns (i: nat)
    requires loc in LocsFrom(results, origin)
    ensures i < |results| && results[i].loc == loc && results[i].origin == Some(origin)
  {
    var n := |results| - 1;
    if results[n].origin == Some(origin) && results[n].loc == loc {
      i := n;
    } else {
      i := LocsFromIndex(results[..n], origin, loc);
    }
  }
}
