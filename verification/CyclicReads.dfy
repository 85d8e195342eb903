/**
 What reads come to whatever the imports are, cyclic ones included: what the main document and
 PRESENTATION_CACHE then hold, path by path, in terms of the documents as they are loaded.
 */
module CyclicReads {
  import opened Wrappers
  import opened Documents
  import opened Sights
  import opened ImportGraph
  import opened ResultMerge
  import opened CyclicMerge

  /** The main document and the cache after a read are what the merge makes of some complete result list. */
  ghost predicate ReadGives(env: Env, cache: map<Loc, Content>, main: Content, cache': map<Loc, Content>) {
    exists results, raws :: Gives(env, cache, results, raws, main, cache')
  }

  ghost predicate Gives(env: Env, cache: map<Loc, Content>, results: seq<Result>, raws: map<Presentation, Content>,
                        main: Content, cache': map<Loc, Content>) {
    && Complete(env, cache.Keys, results) && Loaded(env, results, raws, cache)
    && var s := MergeAll(env, results, raws);
       main == s.raws[results[0].presentation] && cache' == CachedUpTo(results, s, cache, |results|)
  }

  /** What the read hands to the merge for a location. */
  function LoadedOf(env: Env, cache: map<Loc, Content>, loc: Loc): Content
    requires loc in env.sources
  {
    if loc in cache then cache[loc] else env.sources[loc].raw
  }

  lemma LastInSources(env: Env, path: seq<Loc>)
    requires IsPath(env, path)
    ensures path[|path| - 1] in env.sources
  {
    if |path| > 1 {
      assert Edge(env, path[|path| - 2], path[|path| - 2 + 1]);
      ImportsAreImportable(env, path[|path| - 2], path[|path| - 1]);
    }
  }

  lemma NeededInSources(env: Env, hits: set<Loc>, loc: Loc)
    requires Needed(env, hits, loc)
    ensures loc in env.sources && Reaches(env, env.main, loc)
  {
    var path :| Followed(env, hits, path) && path[|path| - 1] == loc;
    LastInSources(env, path);
    assert Leads(env, path, env.main, loc);
  }

  /** A cold read needs exactly what main reaches. */
  lemma ColdNeeds(env: Env, loc: Loc)
    ensures Needed(env, {}, loc) <==> Reaches(env, env.main, loc)
  {
    if Needed(env, {}, loc) {
      NeededInSources(env, {}, loc);
    }
    if Reaches(env, env.main, loc) {
      var path :| Leads(env, path, env.main, loc);
      assert Followed(env, {}, path);
    }
  }

  /** A property of all the documents that the read needs. */
  ghost predicate LoadedClaim(env: Env, cache: map<Loc, Content>, claim: Claim) {
    forall loc {:trigger LoadedAt(env, cache, claim, loc)} :: LoadedAt(env, cache, claim, loc)
  }

  ghost predicate LoadedAt(env: Env, cache: map<Loc, Content>, claim: Claim, loc: Loc) {
    Needed(env, cache.Keys, loc) && loc in env.sources ==> claim(loc, LoadedOf(env, cache, loc))
  }

  lemma StartClaim(env: Env, cache: map<Loc, Content>, results: seq<Result>, raws: map<Presentation, Content>,
          claim: Claim)
    requires Complete(env, cache.Keys, results) && Loaded(env, results, raws, cache) && LoadedClaim(env, cache, claim)
    ensures AllClaim(results, Start(results, raws), claim)
  {
    forall j | 0 <= j < |results|
      ensures claim(results[j].loc, raws[results[j].presentation])
    {
      assert CompleteAt(env, cache.Keys, results, j);
      assert LoadedAt(env, cache, claim, results[j].loc);
    }
  }

  /** What holds of the documents that the read needs, and is kept by merging, holds of all the results. */
  lemma ReadKeeps(env: Env, cache: map<Loc, Content>, results: seq<Result>, raws: map<Presentation, Content>,
          claim: Claim)
    requires KeptByMerge(env, claim) && LoadedClaim(env, cache, claim)
    requires Complete(env, cache.Keys, results) && Loaded(env, results, raws, cache)
    ensures AllClaim(results, MergeAll(env, results, raws), claim)
  {
    CompleteEdges(env, cache.Keys, results);
    StartClaim(env, cache, results, raws, claim);
    MergingKeeps(env, results, Selected(results), Start(results, raws), claim, 0);
  }

  // ----- What the main document shows

  /** The document of a needed location, as it is loaded, shows the sight. */
  ghost predicate NeededShows(env: Env, cache: map<Loc, Content>, loc: Loc, path: seq<string>, sight: Sight)
    requires path != []
  {
    Needed(env, cache.Keys, loc) && loc in env.sources && See(LoadedOf(env, cache, loc).entries, path) == sight
  }

  /** A read makes nothing up: all that the main document shows, some needed document shows. */
  lemma NothingMadeUp(env: Env, cache: map<Loc, Content>, main: Content, cache': map<Loc, Content>, path: seq<string>)
    requires ReadGives(env, cache, main, cache') && path != []
    ensures See(main.entries, path) == Nothing
            || exists loc :: NeededShows(env, cache, loc, path, See(main.entries, path))
  {
    var results: seq<Result>, raws: map<Presentation, Content> :| Gives(env, cache, results, raws, main, cache');
    var claim: Claim := (loc, x: Content) =>
      See(x.entries, path) == Nothing || exists l :: NeededShows(env, cache, l, path, See(x.entries, path));
    forall from, to, x: Content, y: Content
      ensures KeptAt(env, claim, from, to, x, y)
    {
      MergeSees(x.entries, y.entries, path);
    }
    forall loc
      ensures LoadedAt(env, cache, claim, loc)
    {
      if Needed(env, cache.Keys, loc) && loc in env.sources {
        assert NeededShows(env, cache, loc, path, See(LoadedOf(env, cache, loc).entries, path));
      }
    }
    ReadKeeps(env, cache, results, raws, claim);
    assert claim(results[0].loc, main);
  }

  /** Documents with the property are accepted by all that import them. */
  ghost predicate AllAccepted(env: Env, ok: Claim) {
    KeptByMerge(env, ok)
        && forall from, to, x {:trigger AcceptedAt(env, ok, from, to, x)} :: AcceptedAt(env, ok, from, to, x)
  }

  function OkAndAgrees(ok: Claim, path: seq<string>, sight: Sight): Claim
    requires path != []
  {
    (loc, x: Content) => ok(loc, x) && Agrees(x.entries, path, sight)
  }

  lemma AgreeingIsPeaceful(env: Env, ok: Claim, path: seq<string>, sight: Sight)
    requires AllAccepted(env, ok) && path != [] && sight != Nothing
    ensures Peaceful(env, OkAndAgrees(ok, path, sight), path, sight)
  {
    var claim := OkAndAgrees(ok, path, sight);
    forall from, to, x: Content, y: Content
      ensures KeptAt(env, claim, from, to, x, y)
    {
      assert KeptAt(env, ok, from, to, x, y);
      if claim(from, x) && claim(to, y) {
        MergeShows(x.entries, y.entries, path, sight);
      }
    }
    forall from, to, x
      ensures AcceptedAt(env, claim, from, to, x)
    {
      assert AcceptedAt(env, ok, from, to, x);
    }
  }

  /**
   At a path that no needed document disputes, the main document shows a sight exactly if some needed document
   does.
   */
  lemma ReadShows(env: Env, cache: map<Loc, Content>, main: Content, cache': map<Loc, Content>, ok: Claim,
          path: seq<string>, sight: Sight)
    requires ReadGives(env, cache, main, cache') && path != [] && sight != Nothing
    requires AllAccepted(env, ok) && LoadedClaim(env, cache, OkAndAgrees(ok, path, sight))
    ensures See(main.entries, path) == sight <==> exists loc :: NeededShows(env, cache, loc, path, sight)
  {
    if See(main.entries, path) == sight {
      NothingMadeUp(env, cache, main, cache', path);
    }
    if loc :| NeededShows(env, cache, loc, path, sight) {
      var results: seq<Result>, raws: map<Presentation, Content> :| Gives(env, cache, results, raws, main, cache');
      NeededIsShown(env, cache, results, raws, ok, loc, path, sight);
    }
  }

  lemma NeededIsShown(env: Env, cache: map<Loc, Content>, results: seq<Result>, raws: map<Presentation, Content>,
          ok: Claim, loc: Loc, path: seq<string>, sight: Sight)
    requires Complete(env, cache.Keys, results) && Loaded(env, results, raws, cache) && path != [] && sight != Nothing
    requires AllAccepted(env, ok) && LoadedClaim(env, cache, OkAndAgrees(ok, path, sight))
    requires NeededShows(env, cache, loc, path, sight)
    ensures See(MergeAll(env, results, raws).raws[results[0].presentation].entries, path) == sight
  {
    var claim, s := OkAndAgrees(ok, path, sight), Start(results, raws);
    CompleteEdges(env, cache.Keys, results);
    StartClaim(env, cache, results, raws, claim);
    AgreeingIsPeaceful(env, ok, path, sight);
    MergingGathers(env, results, Selected(results), s, claim, 0, path, sight);
    var i := MergeReachesAllLocs(env, results, raws, cache.Keys, loc);
    assert Shown(results, s, i, path, sight);
    assert Shown(results, MergeAll(env, results, raws), 0, path, sight);
  }

  /**
   Whether it shows that or nothing, any two reads of the same documents agree: the schedule does not matter
   there.
   */
  lemma SameAtPath(env: Env, cache: map<Loc, Content>, main1: Content, cache1: map<Loc, Content>,
          main2: Content, cache2: map<Loc, Content>, ok: Claim, path: seq<string>, sight: Sight)
    requires ReadGives(env, cache, main1, cache1) && ReadGives(env, cache, main2, cache2) && path != []
             && sight != Nothing
    requires AllAccepted(env, ok) && LoadedClaim(env, cache, OkAndAgrees(ok, path, sight))
    ensures See(main1.entries, path) == See(main2.entries, path) && See(main1.entries, path) in {Nothing, sight}
  {
    ReadShows(env, cache, main1, cache1, ok, path, sight);
    ReadShows(env, cache, main2, cache2, ok, path, sight);
    ShowsOrNothing(env, cache, main1, cache1, ok, path, sight);
    ShowsOrNothing(env, cache, main2, cache2, ok, path, sight);
  }

  lemma ShowsOrNothing(env: Env, cache: map<Loc, Content>, main: Content, cache': map<Loc, Content>, ok: Claim,
          path: seq<string>, sight: Sight)
    requires ReadGives(env, cache, main, cache') && path != []
    requires LoadedClaim(env, cache, OkAndAgrees(ok, path, sight))
    ensures See(main.entries, path) in {Nothing, sight}
  {
    NothingMadeUp(env, cache, main, cache', path);
    var seen := See(main.entries, path);
    if seen != Nothing {
      var loc :| NeededShows(env, cache, loc, path, seen);
      NeededAgrees(env, cache, ok, loc, path, sight);
    }
  }

  lemma NeededAgrees(env: Env, cache: map<Loc, Content>, ok: Claim, loc: Loc, path: seq<string>, sight: Sight)
    requires path != [] && LoadedClaim(env, cache, OkAndAgrees(ok, path, sight))
    requires Needed(env, cache.Keys, loc) && loc in env.sources
    ensures See(LoadedOf(env, cache, loc).entries, path) in {Nothing, sight}
  {
    var x := LoadedOf(env, cache, loc);
    assert LoadedAt(env, cache, OkAndAgrees(ok, path, sight), loc);
    assert Agrees(x.entries, path, sight);
  }

  /** The needed documents do not dispute what the path shows, or they agree on a leaf above it. */
  ghost predicate AtPeace(env: Env, cache: map<Loc, Content>, ok: Claim, path: seq<string>)
    requires path != []
  {
    || (exists sight :: sight != Nothing && LoadedClaim(env, cache, OkAndAgrees(ok, path, sight)))
    || (exists n: nat, token :: 0 < n < |path| && LeafAbove(env, cache, ok, path[..n], token))
  }

  ghost predicate LeafAbove(env: Env, cache: map<Loc, Content>, ok: Claim, path: seq<string>, token: string)
    requires path != []
  {
    && LoadedClaim(env, cache, OkAndAgrees(ok, path, ALeaf(token)))
    && exists loc :: NeededShows(env, cache, loc, path, ALeaf(token))
  }

  lemma PeaceAgrees(env: Env, cache: map<Loc, Content>, main1: Content, cache1: map<Loc, Content>,
          main2: Content, cache2: map<Loc, Content>, ok: Claim, path: seq<string>)
    requires ReadGives(env, cache, main1, cache1) && ReadGives(env, cache, main2, cache2) && AllAccepted(env, ok)
    requires path != [] && AtPeace(env, cache, ok, path)
    ensures See(main1.entries, path) == See(main2.entries, path)
  {
    if sight :| sight != Nothing && LoadedClaim(env, cache, OkAndAgrees(ok, path, sight)) {
      SameAtPath(env, cache, main1, cache1, main2, cache2, ok, path, sight);
    } else {
      var n: nat, token :| 0 < n < |path| && LeafAbove(env, cache, ok, path[..n], token);
      LeafIsShown(env, cache, main1, cache1, ok, path, n, token);
      LeafIsShown(env, cache, main2, cache2, ok, path, n, token);
    }
  }

  lemma LeafIsShown(env: Env, cache: map<Loc, Content>, main: Content, cache': map<Loc, Content>, ok: Claim,
          path: seq<string>, n: nat, token: string)
    requires ReadGives(env, cache, main, cache') && AllAccepted(env, ok)
    requires 0 < n < |path| && LeafAbove(env, cache, ok, path[..n], token)
    ensures See(main.entries, path) == Nothing
  {
    ReadShows(env, cache, main, cache', ok, path[..n], ALeaf(token));
    LeafEnds(main.entries, path, n);
  }

  /** If the documents dispute nothing, every read of them ends with the same main document, on cyclic imports too. */
  lemma SameDocument(env: Env, cache: map<Loc, Content>, main1: Content, cache1: map<Loc, Content>,
          main2: Content, cache2: map<Loc, Content>, ok: Claim)
    requires ReadGives(env, cache, main1, cache1) && ReadGives(env, cache, main2, cache2) && AllAccepted(env, ok)
    requires forall path: seq<string> | path != [] :: AtPeace(env, cache, ok, path)
    ensures main1 == main2
  {
    forall path: seq<string> | path != []
      ensures See(main1.entries, path) == See(main2.entries, path)
    {
      PeaceAgrees(env, cache, main1, cache1, main2, cache2, ok, path);
    }
    SameSights(main1.entries, main2.entries);
  }

  // ----- What the cache holds

  ghost predicate ShownBy(env: Env, from: Loc, loc: Loc, path: seq<string>, sight: Sight)
    requires path != []
  {
    loc in env.sources && Reaches(env, from, loc) && See(env.sources[loc].raw.entries, path) == sight
  }

  /** Some document that the location reaches shows the sight. */
  ghost predicate ShownBelow(env: Env, from: Loc, path: seq<string>, sight: Sight)
    requires path != []
  {
    exists loc :: ShownBy(env, from, loc, path, sight)
  }

  ghost predicate Undisputed(env: Env, from: Loc, path: seq<string>, sight: Sight)
    requires path != []
  {
    sight != Nothing
        && forall loc | loc in env.sources && Reaches(env, from, loc) ::
             Agrees(env.sources[loc].raw.entries, path, sight)
  }

  /** The document shows only what some document does that its location reaches. */
  ghost predicate OnlyBelow(env: Env, loc: Loc, x: Content) {
    forall path: seq<string> | path != [] ::
          See(x.entries, path) == Nothing || ShownBelow(env, loc, path, See(x.entries, path))
  }

  /** It still shows what its own source does, where that is undisputed. */
  ghost predicate KeepsOwn(env: Env, loc: Loc, x: Content)
    requires loc in env.sources
  {
    forall path: seq<string> | path != [] ::
      var sight := See(env.sources[loc].raw.entries, path);
      Undisputed(env, loc, path, sight) ==> See(x.entries, path) == sight
  }

  ghost predicate Holds(env: Env, loc: Loc, x: Content) {
    loc in env.sources && OnlyBelow(env, loc, x) && KeepsOwn(env, loc, x)
  }

  ghost predicate CacheHolds(env: Env, cache: map<Loc, Content>) {
    forall loc | loc in cache :: Holds(env, loc, cache[loc])
  }

  lemma SourceHolds(env: Env, loc: Loc)
    requires loc in env.sources
    ensures Reaches(env, loc, loc) && Holds(env, loc, env.sources[loc].raw)
  {
    var x := env.sources[loc].raw;
    assert Leads(env, [loc], loc, loc);
    forall path: seq<string> | path != []
      ensures See(x.entries, path) == Nothing || ShownBelow(env, loc, path, See(x.entries, path))
    {
      assert ShownBy(env, loc, loc, path, See(x.entries, path));
    }
  }

  lemma EdgeReaches(env: Env, from: Loc, to: Loc, loc: Loc)
    requires Edge(env, from, to) && Reaches(env, to, loc)
    ensures Reaches(env, from, loc)
  {
    var path :| Leads(env, path, to, loc);
    EdgeExtendsPath(env, path, from, to, loc);
  }

  /** Where the documents that it reaches dispute nothing, what is held for a location does not either. */
  lemma HeldAgrees(env: Env, loc: Loc, x: Content, path: seq<string>, sight: Sight)
    requires OnlyBelow(env, loc, x) && path != [] && Undisputed(env, loc, path, sight)
    ensures Agrees(x.entries, path, sight)
  {
    forall n | 0 < n < |path|
      ensures !See(x.entries, path[..n]).ALeaf?
    {
      var seen := See(x.entries, path[..n]);
      if seen != Nothing {
        assert ShownBelow(env, loc, path[..n], seen);
        var l :| ShownBy(env, loc, l, path[..n], seen);
        ClearMeans(env.sources[l].raw.entries, path);
      }
    }
    if See(x.entries, path) != Nothing {
      var l :| ShownBy(env, loc, l, path, See(x.entries, path));
    }
    ClearMeans(x.entries, path);
  }

  lemma MergeOnlyBelow(env: Env, from: Loc, to: Loc, x: Content, y: Content, path: seq<string>)
    requires Edge(env, from, to) && OnlyBelow(env, from, x) && OnlyBelow(env, to, y) && path != []
    ensures var sight := See(Merge(x.entries, y.entries), path); sight == Nothing || ShownBelow(env, from, path, sight)
  {
    MergeSees(x.entries, y.entries, path);
    var sight := See(Merge(x.entries, y.entries), path);
    if sight != Nothing && sight != See(x.entries, path) {
      var l :| ShownBy(env, to, l, path, sight);
      EdgeReaches(env, from, to, l);
      assert ShownBy(env, from, l, path, sight);
    }
  }

  lemma MergeKeepsOwn(env: Env, from: Loc, to: Loc, x: Content, y: Content, path: seq<string>)
    requires Edge(env, from, to) && Holds(env, from, x) && OnlyBelow(env, to, y) && path != []
    ensures var sight := See(env.sources[from].raw.entries, path);
            Undisputed(env, from, path, sight) ==> See(Merge(x.entries, y.entries), path) == sight
  {
    var sight := See(env.sources[from].raw.entries, path);
    if Undisputed(env, from, path, sight) {
      forall l | l in env.sources && Reaches(env, to, l)
        ensures Agrees(env.sources[l].raw.entries, path, sight)
      {
        EdgeReaches(env, from, to, l);
      }
      HeldAgrees(env, from, x, path, sight);
      HeldAgrees(env, to, y, path, sight);
      MergeShows(x.entries, y.entries, path, sight);
    }
  }

  lemma HoldsIsKept(env: Env)
    ensures KeptByMerge(env, (loc, x) => Holds(env, loc, x))
  {
    var claim: Claim := (loc, x) => Holds(env, loc, x);
    forall from, to, x: Content, y: Content
      ensures KeptAt(env, claim, from, to, x, y)
    {
      if Edge(env, from, to) && Holds(env, from, x) && Holds(env, to, y) {
        forall path: seq<string> | path != []
          ensures var sight := See(Merge(x.entries, y.entries), path);
                  sight == Nothing || ShownBelow(env, from, path, sight)
          ensures var sight := See(env.sources[from].raw.entries, path);
                  Undisputed(env, from, path, sight) ==> See(Merge(x.entries, y.entries), path) == sight
        {
          MergeOnlyBelow(env, from, to, x, y, path);
          MergeKeepsOwn(env, from, to, x, y, path);
        }
      }
    }
  }

  /** Any read, warm or cold, keeps what is known of the cache, and the main document holds nothing foreign either. */
  lemma ReadHolds(env: Env, cache: map<Loc, Content>, main: Content, cache': map<Loc, Content>)
    requires ReadGives(env, cache, main, cache') && CacheHolds(env, cache)
    ensures Holds(env, env.main, main) && CacheHolds(env, cache')
  {
    var results: seq<Result>, raws: map<Presentation, Content> :| Gives(env, cache, results, raws, main, cache');
    var claim: Claim, s := (loc, x) => Holds(env, loc, x), MergeAll(env, results, raws);
    forall loc
      ensures LoadedAt(env, cache, claim, loc)
    {
      if loc in env.sources {
        SourceHolds(env, loc);
      }
    }
    HoldsIsKept(env);
    ReadKeeps(env, cache, results, raws, claim);
    assert claim(results[0].loc, main);
    forall loc | loc in cache'
      ensures Holds(env, loc, cache'[loc])
    {
      CachedUpToLocs(results, s, cache, |results|, loc);
      if !(loc in cache && cache'[loc] == cache[loc]) {
        var k :| 0 <= k < |results| && k in s.merged && results[k].loc == loc
            && cache'[loc] == s.raws[results[k].presentation];
        assert claim(results[k].loc, cache'[loc]);
      }
    }
  }

  // ----- Cold and warm reads

  /** With what is known of the cache, the loaded documents dispute nothing where the sources do not. */
  lemma LoadedAgree(env: Env, cache: map<Loc, Content>, ok: Claim, path: seq<string>, sight: Sight)
    requires CacheHolds(env, cache) && path != [] && Undisputed(env, env.main, path, sight)
             && LoadedClaim(env, cache, ok)
    ensures LoadedClaim(env, cache, OkAndAgrees(ok, path, sight))
  {
    forall loc | Needed(env, cache.Keys, loc) && loc in env.sources
      ensures Agrees(LoadedOf(env, cache, loc).entries, path, sight) && LoadedAt(env, cache, ok, loc)
    {
      NeededInSources(env, cache.Keys, loc);
      forall l | l in env.sources && Reaches(env, loc, l)
        ensures Agrees(env.sources[l].raw.entries, path, sight)
      {
        ReachesOn(env, env.main, loc, l);
      }
      SourceHolds(env, loc);
      HeldAgrees(env, loc, LoadedOf(env, cache, loc), path, sight);
    }
  }

  lemma ReachesOn(env: Env, from: Loc, via: Loc, to: Loc)
    requires Reaches(env, from, via) && Reaches(env, via, to)
    ensures Reaches(env, from, to)
  {
    var path :| Leads(env, path, from, via);
    PathReaches(env, path, via, to);
  }

  lemma {:induction false} PathReaches(env: Env, path: seq<Loc>, via: Loc, to: Loc)
    requires IsPath(env, path) && path[|path| - 1] == via && Reaches(env, via, to)
    ensures Reaches(env, path[0], to)
    decreases |path|
  {
    if |path| > 1 {
      var last := |path| - 2;
      assert Edge(env, path[last], path[last + 1]);
      EdgeReaches(env, path[last], via, to);
      var shorter := path[..last + 1];
      assert forall i | 0 <= i < |shorter| - 1 :: Edge(env, path[i], path[i + 1]);
      PathReaches(env, shorter, path[last], to);
    }
  }

  /**
   A cold read, of cyclic imports too: at an undisputed path main shows exactly what some document shows that
   it reaches.
   */
  lemma ColdShows(env: Env, main: Content, cache': map<Loc, Content>, ok: Claim, path: seq<string>, sight: Sight)
    requires ReadGives(env, map[], main, cache') && AllAccepted(env, ok) && LoadedClaim(env, map[], ok)
    requires path != [] && Undisputed(env, env.main, path, sight)
    ensures See(main.entries, path) == sight <==> ShownBelow(env, env.main, path, sight)
    ensures See(main.entries, path) in {Nothing, sight}
  {
    var cold: map<Loc, Content> := map[];
    LoadedAgree(env, cold, ok, path, sight);
    ReadShows(env, cold, main, cache', ok, path, sight);
    ShowsOrNothing(env, cold, main, cache', ok, path, sight);
    assert cold.Keys == {};
    forall loc
      ensures NeededShows(env, cold, loc, path, sight) <==> ShownBy(env, env.main, loc, path, sight)
    {
      ColdNeeds(env, loc);
    }
    if loc :| NeededShows(env, cold, loc, path, sight) {
      assert ShownBy(env, env.main, loc, path, sight);
    }
    if loc :| ShownBy(env, env.main, loc, path, sight) {
      assert NeededShows(env, cold, loc, path, sight);
    }
  }

  /**
   What a warm read keeps: at an undisputed path main shows nothing that a cold read would not, and
   everything that a document shows which the read comes across, be it loaded or found in the cache.
   */
  lemma WarmShows(env: Env, cache: map<Loc, Content>, main: Content, cache': map<Loc, Content>, ok: Claim,
          path: seq<string>, sight: Sight)
    requires ReadGives(env, cache, main, cache') && CacheHolds(env, cache)
    requires AllAccepted(env, ok) && LoadedClaim(env, cache, ok) && path != [] && Undisputed(env, env.main, path, sight)
    ensures See(main.entries, path) == sight <==> exists loc :: NeededShows(env, cache, loc, path, sight)
    ensures See(main.entries, path) == sight ==> ShownBelow(env, env.main, path, sight)
    ensures forall loc | Needed(env, cache.Keys, loc) && ShownBy(env, env.main, loc, path, sight) ::
              See(main.entries, path) == sight
    ensures See(main.entries, path) in {Nothing, sight}
  {
    LoadedAgree(env, cache, ok, path, sight);
    ReadShows(env, cache, main, cache', ok, path, sight);
    ShowsOrNothing(env, cache, main, cache', ok, path, sight);
    ReadHolds(env, cache, main, cache');
    forall loc | Needed(env, cache.Keys, loc) && ShownBy(env, env.main, loc, path, sight)
      ensures See(main.entries, path) == sight
    {
      LoadedShowsOwn(env, cache, loc, path, sight);
    }
  }

  lemma LoadedShowsOwn(env: Env, cache: map<Loc, Content>, loc: Loc, path: seq<string>, sight: Sight)
    requires CacheHolds(env, cache) && path != [] && Undisputed(env, env.main, path, sight)
    requires Needed(env, cache.Keys, loc) && ShownBy(env, env.main, loc, path, sight)
    ensures NeededShows(env, cache, loc, path, sight)
  {
    SourceHolds(env, loc);
    forall l | l in env.sources && Reaches(env, loc, l)
      ensures Agrees(env.sources[l].raw.entries, path, sight)
    {
      ReachesOn(env, env.main, loc, l);
    }
    assert Undisputed(env, loc, path, sight);
    assert Holds(env, loc, LoadedOf(env, cache, loc));
  }

  /**
   At an undisputed path a warm read shows what a cold one does, if and only if what main reaches there some
   loaded document shows.
   */
  lemma WarmIsColdIff(env: Env, cache: map<Loc, Content>, warm: Content, cache': map<Loc, Content>,
          cold: Content, cache0: map<Loc, Content>, ok: Claim, path: seq<string>, sight: Sight)
    requires ReadGives(env, cache, warm, cache') && CacheHolds(env, cache) && ReadGives(env, map[], cold, cache0)
    requires AllAccepted(env, ok) && LoadedClaim(env, cache, ok) && LoadedClaim(env, map[], ok)
    requires path != [] && Undisputed(env, env.main, path, sight)
    ensures See(warm.entries, path) == See(cold.entries, path) <==>
            (ShownBelow(env, env.main, path, sight) ==> exists loc :: NeededShows(env, cache, loc, path, sight))
  {
    WarmShows(env, cache, warm, cache', ok, path, sight);
    ColdShows(env, cold, cache0, ok, path, sight);
  }

  /** Enough for that: each cached document that the read finds shows what the documents behind it show. */
  ghost predicate FullHits(env: Env, cache: map<Loc, Content>, path: seq<string>, sight: Sight)
    requires path != []
  {
    forall loc | loc in cache && Needed(env, cache.Keys, loc) && ShownBelow(env, loc, path, sight) ::
          See(cache[loc].entries, path) == sight
  }

  lemma FullHitsSuffice(env: Env, cache: map<Loc, Content>, path: seq<string>, sight: Sight)
    requires path != [] && FullHits(env, cache, path, sight) && ShownBelow(env, env.main, path, sight)
    ensures exists loc :: NeededShows(env, cache, loc, path, sight)
  {
    var loc :| ShownBy(env, env.main, loc, path, sight);
    var way :| Leads(env, way, env.main, loc);
    assert way[..1] == [env.main];
    WayShows(env, cache, way, 0, loc, path, sight);
  }

  /** Along a path from main: the first cached location that it meets, or else its end, shows what its end does. */
  lemma {:induction false} WayShows(env: Env, cache: map<Loc, Content>, way: seq<Loc>, n: nat, loc: Loc,
          path: seq<string>, sight: Sight)
    requires path != [] && FullHits(env, cache, path, sight)
    requires Leads(env, way, env.main, loc) && ShownBy(env, env.main, loc, path, sight)
    requires n < |way| && forall i | 0 <= i < n :: way[i] !in cache
    ensures exists l :: NeededShows(env, cache, l, path, sight)
    decreases |way| - n
  {
    var before, after := way[..n + 1], way[n..];
    assert forall i | 0 <= i < |before| - 1 :: Edge(env, way[i], way[i + 1]);
    assert Followed(env, cache.Keys, before);
    assert Needed(env, cache.Keys, way[n]);
    LastInSources(env, before);
    forall i | 0 <= i < |after| - 1
      ensures Edge(env, after[i], after[i + 1])
    {
      assert Edge(env, way[n + i], way[n + i + 1]);
    }
    assert Leads(env, after, way[n], loc);
    assert ShownBy(env, way[n], loc, path, sight);
    if way[n] in cache {
      assert ShownBelow(env, way[n], path, sight);
      assert NeededShows(env, cache, way[n], path, sight);
    } else if n == |way| - 1 {
      assert NeededShows(env, cache, loc, path, sight);
    } else {
      WayShows(env, cache, way, n + 1, loc, path, sight);
    }
  }

  // ----- Which imports are accepted

  /** What the document declares as its version. */
  function VersionOf(x: Content): Option<Raw> {
    Lookup(x.entries, ["tosca_definitions_version"])
  }

  /** The document declares no version, or one of these. */
  predicate Declares(x: Content, versions: set<string>) {
    match VersionOf(x)
    case None => true
    case Some(v) => v.Leaf? && v.token in versions
  }

  /**
   `_validate_import` of the presenters: if every class accepts these versions, documents that declare no
   others are accepted.
   */
  lemma VersionsAccepted(env: Env, versions: set<string>)
    requires forall loc, x :: Declares(x, versions) ==> env.accepts(env.classes(loc), x)
    ensures AllAccepted(env, (loc, x) => Declares(x, versions))
  {
  }

  // ----- Histories of reads

  /** Reads of any main locations one after the other, each with the cache that the one before left. */
  ghost predicate History(env: Env, mains: seq<Loc>, documents: seq<Content>, caches: seq<map<Loc, Content>>) {
    && |documents| == |mains| && |caches| == |mains| + 1 && caches[0] == map[]
    && forall i {:trigger IsRead(env, mains, documents, caches, i)} | 0 <= i < |mains| ::
         IsRead(env, mains, documents, caches, i)
  }

  ghost predicate IsRead(env: Env, mains: seq<Loc>, documents: seq<Content>, caches: seq<map<Loc, Content>>, i: nat) {
    && i < |mains| && i < |documents| && i + 1 < |caches|
    && ReadGives(From(env, mains[i]), caches[i], documents[i], caches[i + 1])
  }

  lemma HistoryRead(env: Env, mains: seq<Loc>, documents: seq<Content>, caches: seq<map<Loc, Content>>, i: nat)
    requires History(env, mains, documents, caches) && i < |mains|
    ensures ReadGives(From(env, mains[i]), caches[i], documents[i], caches[i + 1])
  {
    assert IsRead(env, mains, documents, caches, i);
  }

  lemma FromHolds(env: Env, main: Loc, loc: Loc, x: Content)
    ensures Holds(From(env, main), loc, x) <==> Holds(env, loc, x)
  {
    var env' := From(env, main);
    forall l
      ensures Reaches(env', loc, l) <==> Reaches(env, loc, l)
    {
      FromReaches(env, main, loc, l);
    }
    forall path: seq<string>, sight | path != []
      ensures ShownBelow(env', loc, path, sight) <==> ShownBelow(env, loc, path, sight)
      ensures Undisputed(env', loc, path, sight) <==> Undisputed(env, loc, path, sight)
    {
      if l :| ShownBy(env, loc, l, path, sight) {
        assert ShownBy(env', loc, l, path, sight);
      }
      if l :| ShownBy(env', loc, l, path, sight) {
        assert ShownBy(env, loc, l, path, sight);
      }
    }
  }

  /**
   Over any history of reads, of cyclic imports too, neither a main document nor the cache ever holds anything
   foreign.
   */
  lemma {:induction false} HistoryHolds(env: Env, mains: seq<Loc>, documents: seq<Content>,
          caches: seq<map<Loc, Content>>, i: nat)
    requires History(env, mains, documents, caches) && i <= |mains|
    ensures CacheHolds(env, caches[i])
    ensures i < |mains| ==> Holds(env, mains[i], documents[i])
  {
    if i > 0 {
      HistoryHolds(env, mains, documents, caches, i - 1);
      HistoryRead(env, mains, documents, caches, i - 1);
      ReadHoldsFrom(env, mains[i - 1], caches[i - 1], documents[i - 1], caches[i]);
    }
    if i < |mains| {
      HistoryRead(env, mains, documents, caches, i);
      ReadHoldsFrom(env, mains[i], caches[i], documents[i], caches[i + 1]);
    }
  }

  lemma ReadHoldsFrom(env: Env, main: Loc, cache: map<Loc, Content>, document: Content, cache': map<Loc, Content>)
    requires ReadGives(From(env, main), cache, document, cache') && CacheHolds(env, cache)
    ensures Holds(env, main, document) && CacheHolds(env, cache')
  {
    forall loc, x
      ensures Holds(From(env, main), loc, x) <==> Holds(env, loc, x)
    {
      FromHolds(env, main, loc, x);
    }
    ReadHolds(From(env, main), cache, document, cache');
  }

  /** On acyclic imports a read gives the recursive specification. */
  lemma AcyclicReadGives(env: Env, cache: map<Loc, Content>, main: Content, cache': map<Loc, Content>)
    requires ReadGives(env, cache, main, cache') && Acyclic(env) && CacheConsistent(env, cache)
    ensures env.main in env.sources && main == Merged(env, env.main) && CacheConsistent(env, cache')
  {
    var results: seq<Result>, raws: map<Presentation, Content> :| Gives(env, cache, results, raws, main, cache');
    MergeMain(env, results, raws, cache);
    CachingIsConsistent(env, results, raws, cache);
  }

  /** The presentation at a location accepts none of the first n imports, as they end. */
  ghost predicate RejectsUpTo(env: Env, loc: Loc, n: nat)
    requires Acyclic(env) && loc in env.sources && n <= |ImportsOf(env, loc)|
  {
    forall i | 0 <= i < n ::
      ImportsOf(env, loc)[i] in env.sources
      && !env.accepts(env.classes(loc), Merged(env, ImportsOf(env, loc)[i]))
  }

  lemma {:induction false} RejectedLeave(env: Env, loc: Loc, n: nat)
    requires Acyclic(env) && loc in env.sources && n <= |ImportsOf(env, loc)| && RejectsUpTo(env, loc, n)
    ensures MergedUpTo(env, loc, n) == env.sources[loc].raw
    decreases n
  {
    if n > 0 {
      RejectedLeave(env, loc, n - 1);
    }
  }

  /** A rejected import leaves the document as it was: if main's class accepts none, main ends as its own source. */
  lemma RejectedReadIsSource(env: Env, cache: map<Loc, Content>, main: Content, cache': map<Loc, Content>)
    requires ReadGives(env, cache, main, cache') && Acyclic(env) && CacheConsistent(env, cache)
    requires env.main in env.sources && RejectsUpTo(env, env.main, |ImportsOf(env, env.main)|)
    ensures main == env.sources[env.main].raw
  {
    AcyclicReadGives(env, cache, main, cache');
    RejectedLeave(env, env.main, |ImportsOf(env, env.main)|);
  }

  /** Over any history of reads of acyclic imports, every main document is fully merged: the cache is transparent. */
  lemma {:induction false} HistoryIsMerged(env: Env, mains: seq<Loc>, documents: seq<Content>,
          caches: seq<map<Loc, Content>>, i: nat)
    requires History(env, mains, documents, caches) && Acyclic(env) && i <= |mains|
    ensures CacheConsistent(env, caches[i])
    ensures i < |mains| ==> mains[i] in env.sources && documents[i] == Merged(env, mains[i])
  {
    if i > 0 {
      HistoryIsMerged(env, mains, documents, caches, i - 1);
      HistoryRead(env, mains, documents, caches, i - 1);
      AcyclicReadFrom(env, mains[i - 1], caches[i - 1], documents[i - 1], caches[i]);
    }
    if i < |mains| {
      HistoryRead(env, mains, documents, caches, i);
      AcyclicReadFrom(env, mains[i], caches[i], documents[i], caches[i + 1]);
    }
  }

  lemma AcyclicReadFrom(env: Env, main: Loc, cache: map<Loc, Content>, document: Content, cache': map<Loc, Content>)
    requires ReadGives(From(env, main), cache, document, cache') && Acyclic(env) && CacheConsistent(env, cache)
    ensures main in env.sources && document == Merged(env, main) && CacheConsistent(env, cache')
  {
    var env' := From(env, main);
    FromConsistent(env, main, cache);
    AcyclicReadGives(env', cache, document, cache');
    FromMerged(env, main, main, |ImportsOf(env, main)|);
    assert From(env', env.main) == env;
    FromConsistent(env', env.main, cache');
  }
}
