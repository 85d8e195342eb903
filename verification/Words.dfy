/**
 Which word a document has in the end at a path that documents may dispute. In a right-biased merge
 the last import that shows anything has the last word, so this is a matter of order. The order is
 fixed where cycles of imports stay in a core of documents that agree with each other at the path, as
 the files of a profile do: then main shows the same after every read, warm or cold.
 */
module Words {
  import opened Wrappers
  import opened Documents
  import opened Sights
  import opened ImportGraph
  import opened ResultMerge
  import opened CyclicMerge
  import opened CyclicReads

  /**
   How the locations lie with respect to a path: those in view (`scope`), those of the core with what
   they say on the way to the path, and a rank of the others that every import lowers. The first `open`
   prefixes of the path are not watched, because no document has a leaf there.
   */
  datatype Layout =
    Layout(scope: Loc -> bool, core: Loc -> bool, says: Loc -> seq<Sight>, rank: Loc -> nat, open: nat)

  /**
   An import stays in view; from the core it leads into the core, and from elsewhere to a lower rank or to the
   word of the core.
   */
  ghost predicate EdgeLaid(env: Env, lay: Layout, path: seq<string>, from: Loc, to: Loc)
    requires path != []
  {
    Edge(env, from, to) && lay.scope(from) ==>
      && to in env.sources && lay.scope(to)
      && (lay.core(from) ==> lay.core(to) && AtMost(lay.says(to), lay.says(from)))
      && (!lay.core(from) && lay.core(to) ==> Watch(env.sources[to].raw.entries, path, lay.open) == lay.says(to))
      && (!lay.core(from) && !lay.core(to) ==> lay.rank(to) < lay.rank(from))
  }

  /**
   A document has no leaf at the prefixes that are not watched, and in the core it shows nothing else than the
   core says.
   */
  ghost predicate SourceLaid(env: Env, lay: Layout, path: seq<string>, loc: Loc)
    requires path != []
  {
    loc in env.sources && lay.scope(loc) ==>
      var d := env.sources[loc].raw.entries;
      && Unblocked(View(d, path), lay.open)
      && (lay.core(loc) ==> AtMost(Watch(d, path, lay.open), lay.says(loc)))
  }

  ghost predicate Laid(env: Env, lay: Layout, path: seq<string>)
    requires path != []
  {
    && lay.open < |path|
    && (forall from, to {:trigger EdgeLaid(env, lay, path, from, to)} :: EdgeLaid(env, lay, path, from, to))
    && (forall loc {:trigger SourceLaid(env, lay, path, loc)} :: SourceLaid(env, lay, path, loc))
  }

  /** The core is at the bottom. */
  function Height(lay: Layout, loc: Loc): nat {
    if lay.core(loc) then 0 else lay.rank(loc) + 1
  }

  lemma ImportLaid(env: Env, lay: Layout, path: seq<string>, from: Loc, to: Loc)
    requires path != [] && Laid(env, lay, path) && Edge(env, from, to) && lay.scope(from)
    ensures to in env.sources && lay.scope(to)
    ensures if lay.core(from) then lay.core(to) else Height(lay, to) < Height(lay, from)
    ensures !lay.core(from) && lay.core(to) ==> Watch(env.sources[to].raw.entries, path, lay.open) == lay.says(to)
  {
    assert EdgeLaid(env, lay, path, from, to);
  }

  /** The word of a location: that of the core, or else the last one among its own and those of its imports. */
  ghost function Word(env: Env, lay: Layout, path: seq<string>, loc: Loc): seq<Sight>
    requires path != [] && Laid(env, lay, path) && lay.scope(loc) && loc in env.sources
    decreases Height(lay, loc), |ImportsOf(env, loc)| + 1
  {
    if lay.core(loc) then lay.says(loc) else WordUpTo(env, lay, path, loc, |ImportsOf(env, loc)|)
  }

  ghost function WordUpTo(env: Env, lay: Layout, path: seq<string>, loc: Loc, n: nat): seq<Sight>
    requires path != [] && Laid(env, lay, path) && lay.scope(loc) && loc in env.sources && !lay.core(loc)
    requires n <= |ImportsOf(env, loc)|
    decreases Height(lay, loc), n
  {
    if n == 0 then Watch(env.sources[loc].raw.entries, path, lay.open)
    else
      var imported := ImportsOf(env, loc)[n - 1];
      ImportLaid(env, lay, path, loc, imported);
      Combine(WordUpTo(env, lay, path, loc, n - 1), Word(env, lay, path, imported))
  }

  /** The word so far, and that of the next import. */
  lemma WordNext(env: Env, lay: Layout, path: seq<string>, loc: Loc, n: nat, next: Loc)
    requires path != [] && Laid(env, lay, path) && lay.scope(loc) && loc in env.sources && !lay.core(loc)
    requires n < |ImportsOf(env, loc)| && ImportsOf(env, loc)[n] == next && next in env.sources && lay.scope(next)
    ensures WordUpTo(env, lay, path, loc, n + 1) ==
            Combine(WordUpTo(env, lay, path, loc, n), Word(env, lay, path, next))
  {
  }

  // ----- What is held for a location

  /** In the core a document says nothing else than the core, and what its source says it keeps saying. */
  ghost predicate CoreSays(env: Env, lay: Layout, path: seq<string>, loc: Loc, x: Content)
    requires path != [] && loc in env.sources
  {
    && AtMost(Watch(x.entries, path, lay.open), lay.says(loc))
    && (Watch(env.sources[loc].raw.entries, path, lay.open) == lay.says(loc) ==>
        Watch(x.entries, path, lay.open) == lay.says(loc))
  }

  /** A finished document: outside the core it shows the word of its location. */
  ghost predicate Says(env: Env, lay: Layout, path: seq<string>, loc: Loc, x: Content)
    requires path != [] && Laid(env, lay, path)
  {
    && loc in env.sources && lay.scope(loc) && Unblocked(View(x.entries, path), lay.open)
    && if lay.core(loc) then CoreSays(env, lay, path, loc, x)
       else Watch(x.entries, path, lay.open) == Word(env, lay, path, loc)
  }

  ghost predicate CacheSays(env: Env, lay: Layout, path: seq<string>, cache: map<Loc, Content>)
    requires path != [] && Laid(env, lay, path)
  {
    forall loc {:trigger Says(env, lay, path, loc, cache[loc])} | loc in cache && lay.scope(loc) ::
      Says(env, lay, path, loc, cache[loc])
  }

  /** What holds of every document during a read, finished or not. */
  ghost predicate InPlace(env: Env, lay: Layout, path: seq<string>, ok: Claim, loc: Loc, x: Content)
    requires path != []
  {
    && loc in env.sources && lay.scope(loc) && ok(loc, x) && Unblocked(View(x.entries, path), lay.open)
    && (lay.core(loc) ==> CoreSays(env, lay, path, loc, x))
  }

  ghost function PlaceClaim(env: Env, lay: Layout, path: seq<string>, ok: Claim): Claim
    requires path != []
  {
    (loc, x) => InPlace(env, lay, path, ok, loc, x)
  }

  lemma CoreMerges(env: Env, lay: Layout, path: seq<string>, from: Loc, to: Loc, x: Content, y: Content)
    requires path != [] && from in env.sources && to in env.sources && AtMost(lay.says(to), lay.says(from))
    requires CoreSays(env, lay, path, from, x) && CoreSays(env, lay, path, to, y) && lay.open < |path|
    requires Unblocked(View(x.entries, path), lay.open) && Unblocked(View(y.entries, path), lay.open)
    ensures CoreSays(env, lay, path, from, Content(Merge(x.entries, y.entries)))
  {
    var seen, added := Watch(x.entries, path, lay.open), Watch(y.entries, path, lay.open);
    assert AtMost(added, lay.says(from));
    MergeWatch(x.entries, y.entries, path, lay.open);
    CombineAtMost(seen, added, lay.says(from));
    if seen == lay.says(from) {
      WatchIsProper(x.entries, path, lay.open);
      WatchIsProper(y.entries, path, lay.open);
      CombineWithLess(seen, added);
    }
  }

  lemma PlaceIsKept(env: Env, lay: Layout, path: seq<string>, ok: Claim)
    requires path != [] && Laid(env, lay, path) && AllAccepted(env, ok)
    ensures KeptByMerge(env, PlaceClaim(env, lay, path, ok))
  {
    var claim := PlaceClaim(env, lay, path, ok);
    forall from, to, x: Content, y: Content
      ensures KeptAt(env, claim, from, to, x, y)
    {
      assert KeptAt(env, ok, from, to, x, y);
      if Edge(env, from, to) && InPlace(env, lay, path, ok, from, x) && InPlace(env, lay, path, ok, to, y) {
        assert EdgeLaid(env, lay, path, from, to);
        MergeWatch(x.entries, y.entries, path, lay.open);
        if lay.core(from) {
          CoreMerges(env, lay, path, from, to, x, y);
        }
      }
    }
  }

  /** Along a path of imports the height does not rise. */
  lemma {:induction false} WayLowers(env: Env, lay: Layout, path: seq<string>, way: seq<Loc>)
    requires path != [] && Laid(env, lay, path) && IsPath(env, way) && lay.scope(way[0])
    ensures lay.scope(way[|way| - 1]) && Height(lay, way[|way| - 1]) <= Height(lay, way[0])
    decreases |way|
  {
    if |way| > 1 {
      var shorter, n := way[..|way| - 1], |way| - 2;
      assert forall i | 0 <= i < |shorter| - 1 :: Edge(env, way[i], way[i + 1]);
      WayLowers(env, lay, path, shorter);
      assert Edge(env, way[n], way[n + 1]);
      ImportLaid(env, lay, path, way[n], way[n + 1]);
    }
  }

  lemma NeededBelow(env: Env, lay: Layout, path: seq<string>, hits: set<Loc>, loc: Loc)
    requires path != [] && Laid(env, lay, path) && lay.scope(env.main) && Needed(env, hits, loc)
    ensures loc in env.sources && lay.scope(loc) && Height(lay, loc) <= Height(lay, env.main)
  {
    NeededInSources(env, hits, loc);
    var way :| Followed(env, hits, way) && way[|way| - 1] == loc;
    WayLowers(env, lay, path, way);
  }

  lemma LoadedInPlace(env: Env, lay: Layout, path: seq<string>, ok: Claim, cache: map<Loc, Content>)
    requires path != [] && Laid(env, lay, path) && lay.scope(env.main)
    requires CacheSays(env, lay, path, cache) && LoadedClaim(env, cache, ok)
    ensures LoadedClaim(env, cache, PlaceClaim(env, lay, path, ok))
  {
    forall loc
      ensures LoadedAt(env, cache, PlaceClaim(env, lay, path, ok), loc)
    {
      if Needed(env, cache.Keys, loc) && loc in env.sources {
        NeededBelow(env, lay, path, cache.Keys, loc);
        assert LoadedAt(env, cache, ok, loc) && SourceLaid(env, lay, path, loc);
        assert loc in cache ==> Says(env, lay, path, loc, cache[loc]);
        assert InPlace(env, lay, path, ok, loc, LoadedOf(env, cache, loc));
      }
    }
  }

  // ----- The merge

  /** The result list that is merged is that of a read whose documents are in place. */
  ghost predicate Ready(env: Env, lay: Layout, path: seq<string>, ok: Claim, hits: set<Loc>, results: seq<Result>,
          pick: Selection)
    requires path != []
  {
    && Laid(env, lay, path) && AllAccepted(env, ok)
    && SelectionsFit(env, hits, results, pick) && EdgesPicked(env, results, pick)
    && forall j {:trigger InView(env, lay, results, j)} | 0 <= j < |results| :: InView(env, lay, results, j)
  }

  ghost predicate InView(env: Env, lay: Layout, results: seq<Result>, j: nat)
    requires j < |results|
  {
    results[j].loc in env.sources && lay.scope(results[j].loc)
  }

  function SeenAt(lay: Layout, results: seq<Result>, s: MergeState, j: nat, path: seq<string>): seq<Sight>
    requires path != [] && Fits(results, s) && j < |results|
  {
    Watch(s.raws[results[j].presentation].entries, path, lay.open)
  }

  /** A document outside the core that no merge is working on shows its own sight, or the word of its location. */
  ghost predicate SettledAt(env: Env, lay: Layout, path: seq<string>, hits: set<Loc>, results: seq<Result>,
          s: MergeState, j: nat)
    requires path != [] && Laid(env, lay, path) && Fits(results, s) && j < |results| && InView(env, lay, results, j)
  {
    SeenAt(lay, results, s, j, path) ==
      if j in s.merged || results[j].loc in hits then Word(env, lay, path, results[j].loc)
      else Watch(env.sources[results[j].loc].raw.entries, path, lay.open)
  }

  /** All such results at this height or below are settled, but for those of presentation p. */
  ghost predicate Settled(env: Env, lay: Layout, path: seq<string>, hits: set<Loc>, results: seq<Result>, s: MergeState,
                          height: nat, p: Option<Presentation>)
    requires path != [] && Laid(env, lay, path) && Fits(results, s)
  {
    forall j {:trigger SettledAt(env, lay, path, hits, results, s, j)}
        | 0 <= j < |results| && InView(env, lay, results, j) ::
      !lay.core(results[j].loc) && Height(lay, results[j].loc) <= height && Some(results[j].presentation) != p ==>
        SettledAt(env, lay, path, hits, results, s, j)
  }

  /** Results above this height are as they were. */
  ghost predicate SameAbove(lay: Layout, results: seq<Result>, s: MergeState, s': MergeState, height: nat)
    requires Fits(results, s) && Fits(results, s')
  {
    forall j {:trigger SameAt(results, s, s', j)} | 0 <= j < |results| && Height(lay, results[j].loc) > height ::
      SameAt(results, s, s', j)
  }

  predicate SameAt(results: seq<Result>, s: MergeState, s': MergeState, j: nat)
    requires Fits(results, s) && Fits(results, s') && j < |results|
  {
    (j in s'.merged <==> j in s.merged) && s'.raws[results[j].presentation] == s.raws[results[j].presentation]
  }

  /** What result i shows when the first n of its imports are in. */
  ghost function Advanced(env: Env, lay: Layout, path: seq<string>, hits: set<Loc>, loc: Loc, n: nat): seq<Sight>
    requires path != [] && Laid(env, lay, path) && lay.scope(loc) && loc in env.sources && !lay.core(loc)
    requires n <= |ImportsOf(env, loc)|
  {
    if loc in hits then Word(env, lay, path, loc) else WordUpTo(env, lay, path, loc, n)
  }

  /** Result i is being merged: the first n of its imports are in. */
  ghost predicate InLoop(env: Env, lay: Layout, path: seq<string>, ok: Claim, hits: set<Loc>, results: seq<Result>,
                         pick: Selection, start: MergeState, s: MergeState, i: nat, n: nat)
    requires path != [] && Ready(env, lay, path, ok, hits, results, pick) && i < |results|
             && InView(env, lay, results, i)
  {
    && Fits(results, start) && Consistent(results, s) && i in s.merged
    && AllClaim(results, s, PlaceClaim(env, lay, path, ok))
    && n <= |pick(results[i].loc)| <= |ImportsOf(env, results[i].loc)|
    && Settled(env, lay, path, hits, results, s, Height(lay, results[i].loc), Some(results[i].presentation))
    && (!lay.core(results[i].loc) ==>
        SeenAt(lay, results, s, i, path) == Advanced(env, lay, path, hits, results[i].loc, n))
    && SameAbove(lay, results, start, s, Height(lay, results[i].loc))
  }

  /** The nth selected result is the nth import. */
  lemma PickedImport(env: Env, lay: Layout, path: seq<string>, ok: Claim, hits: set<Loc>, results: seq<Result>,
          pick: Selection, i: nat, n: nat)
    requires path != [] && Ready(env, lay, path, ok, hits, results, pick) && i < |results| && n < |pick(results[i].loc)|
    ensures var k := pick(results[i].loc)[n];
            && k < |results| && PickedEdge(env, results, i, k) && InView(env, lay, results, i)
               && InView(env, lay, results, k)
            && results[i].loc !in hits && n < |ImportsOf(env, results[i].loc)|
            && results[k].loc == ImportsOf(env, results[i].loc)[n]
  {
    var loc := results[i].loc;
    var indices := pick(loc);
    assert InView(env, lay, results, i);
    assert SelectionFits(env, hits, results, pick, loc);
    assert LocsAt(results, indices)[n] == results[indices[n]].loc;
    assert PickedEdge(env, results, i, pick(results[i].loc)[n]);
    assert InView(env, lay, results, indices[n]);
  }

  /** Merging a result leaves it and what is below it settled, and what is above as it was. */
  lemma {:induction false} MergeSettles(env: Env, lay: Layout, path: seq<string>, ok: Claim, hits: set<Loc>,
          results: seq<Result>, pick: Selection, s: MergeState, i: nat) returns (s': MergeState)
    requires path != [] && Ready(env, lay, path, ok, hits, results, pick) && Consistent(results, s) && i < |results|
    requires AllClaim(results, s, PlaceClaim(env, lay, path, ok))
    requires Settled(env, lay, path, hits, results, s, Height(lay, results[i].loc), None)
    ensures s' == Merging(env, results, pick, s, i)
    ensures Consistent(results, s') && i in s'.merged && s.merged <= s'.merged
    ensures AllClaim(results, s', PlaceClaim(env, lay, path, ok))
    ensures Settled(env, lay, path, hits, results, s', Height(lay, results[i].loc), None)
    ensures SameAbove(lay, results, s, s', Height(lay, results[i].loc))
    decreases Unmerged(results, s.merged), 0, 0
  {
    if i in s.merged {
      s' := s;
    } else {
      var s1 := Enter(results, s, i);
      EnterConsistent(results, s, i);
      LoopBegins(env, lay, path, ok, hits, results, pick, s, s1, i);
      s' := LoopSettles(env, lay, path, ok, hits, results, pick, s1, i, |pick(results[i].loc)|);
      LoopEnds(env, lay, path, ok, hits, results, pick, s, s1, s', i);
    }
  }

  lemma LoopBegins(env: Env, lay: Layout, path: seq<string>, ok: Claim, hits: set<Loc>, results: seq<Result>,
          pick: Selection, s: MergeState, s1: MergeState, i: nat)
    requires path != [] && Ready(env, lay, path, ok, hits, results, pick) && Consistent(results, s) && i < |results|
    requires AllClaim(results, s, PlaceClaim(env, lay, path, ok))
    requires Settled(env, lay, path, hits, results, s, Height(lay, results[i].loc), None)
    requires i !in s.merged && s1 == Enter(results, s, i) && Consistent(results, s1)
    ensures InView(env, lay, results, i) && InLoop(env, lay, path, ok, hits, results, pick, s1, s1, i, 0)
  {
    assert InView(env, lay, results, i);
    assert lay.core(results[i].loc) || SettledAt(env, lay, path, hits, results, s, i);
    assert SelectionFits(env, hits, results, pick, results[i].loc);
    assert |LocsAt(results, pick(results[i].loc))| == |pick(results[i].loc)|;
    forall j | && 0 <= j < |results| && InView(env, lay, results, j) && !lay.core(results[j].loc)
               && Height(lay, results[j].loc) <= Height(lay, results[i].loc)
               && results[j].presentation != results[i].presentation
      ensures SettledAt(env, lay, path, hits, results, s1, j)
    {
      assert SettledAt(env, lay, path, hits, results, s, j);
    }
  }

  lemma LoopEnds(env: Env, lay: Layout, path: seq<string>, ok: Claim, hits: set<Loc>, results: seq<Result>,
          pick: Selection, s: MergeState, s1: MergeState, s2: MergeState, i: nat)
    requires path != [] && Ready(env, lay, path, ok, hits, results, pick) && Consistent(results, s) && i < |results|
    requires i !in s.merged && s1 == Enter(results, s, i) && InView(env, lay, results, i)
    requires InLoop(env, lay, path, ok, hits, results, pick, s1, s2, i, |pick(results[i].loc)|)
    ensures Settled(env, lay, path, hits, results, s2, Height(lay, results[i].loc), None)
    ensures SameAbove(lay, results, s, s2, Height(lay, results[i].loc))
  {
    assert SelectionFits(env, hits, results, pick, results[i].loc);
    assert |LocsAt(results, pick(results[i].loc))| == |pick(results[i].loc)|;
    assert Together(results, s2.merged, i);
    forall j | 0 <= j < |results| && Height(lay, results[j].loc) > Height(lay, results[i].loc)
      ensures SameAt(results, s, s2, j)
    {
      assert SameAt(results, s1, s2, j);
    }
  }

  /** After n rounds of its loop the first n imports are in; `== true` has that proved whole, not clause by clause. */
  lemma {:induction false} LoopSettles(env: Env, lay: Layout, path: seq<string>, ok: Claim, hits: set<Loc>,
          results: seq<Result>, pick: Selection, start: MergeState, i: nat, n: nat) returns (s: MergeState)
    requires path != [] && Ready(env, lay, path, ok, hits, results, pick) && i < |results|
             && InView(env, lay, results, i)
    requires InLoop(env, lay, path, ok, hits, results, pick, start, start, i, 0) && n <= |pick(results[i].loc)|
    ensures s == MergingImports(env, results, pick, start, i, n)
    ensures InLoop(env, lay, path, ok, hits, results, pick, start, s, i, n) == true
    decreases Unmerged(results, start.merged), 2, n
  {
    if n == 0 {
      s := start;
    } else {
      var before := LoopSettles(env, lay, path, ok, hits, results, pick, start, i, n - 1);
      UnmergedShrinks(results, start.merged, before.merged);
      s := LoopGoesOn(env, lay, path, ok, hits, results, pick, start, before, i, n);
    }
  }

  lemma UnmergedShrinks(results: seq<Result>, merged: set<nat>, merged': set<nat>)
    requires merged <= merged'
    ensures Unmerged(results, merged') <= Unmerged(results, merged)
  {
  }

  lemma LoopGoesOn(env: Env, lay: Layout, path: seq<string>, ok: Claim, hits: set<Loc>, results: seq<Result>,
          pick: Selection, start: MergeState, before: MergeState, i: nat, n: nat) returns (s: MergeState)
    requires path != [] && Ready(env, lay, path, ok, hits, results, pick) && i < |results|
             && InView(env, lay, results, i)
    requires 0 < n <= |pick(results[i].loc)|
             && InLoop(env, lay, path, ok, hits, results, pick, start, before, i, n - 1)
    requires before == MergingImports(env, results, pick, start, i, n - 1)
    ensures s == MergingImports(env, results, pick, start, i, n)
    ensures InLoop(env, lay, path, ok, hits, results, pick, start, s, i, n) == true
    decreases Unmerged(results, before.merged), 1, 1
  {
    s := RoundSettles(env, lay, path, ok, hits, results, pick, start, before, i, n);
    RoundIsNext(env, results, pick, start, before, s, i, n);
  }

  lemma RoundIsNext(env: Env, results: seq<Result>, pick: Selection, start: MergeState, s: MergeState, s2: MergeState,
          i: nat, n: nat)
    requires WellPicked(results, pick) && Fits(results, start) && Fits(results, s) && i < |results|
             && 0 < n <= |pick(results[i].loc)|
    requires s == MergingImports(env, results, pick, start, i, n - 1)
    requires RoundGives(env, results, pick, s, i, n - 1, s2)
    ensures s2 == MergingImports(env, results, pick, start, i, n)
  {
    MergingRound(env, results, pick, start, i, n - 1);
  }

  /** One round: the import is merged and absorbed. */
  predicate RoundGives(env: Env, results: seq<Result>, pick: Selection, s: MergeState, i: nat, n: nat, s2: MergeState)
    requires WellPicked(results, pick) && Fits(results, s) && i < |results| && n < |pick(results[i].loc)|
  {
    var k := pick(results[i].loc)[n];
    s2 == Absorb(env, results, Merging(env, results, pick, s, k), i, k)
  }

  lemma RoundSettles(env: Env, lay: Layout, path: seq<string>, ok: Claim, hits: set<Loc>, results: seq<Result>,
          pick: Selection, start: MergeState, s: MergeState, i: nat, n: nat) returns (s2: MergeState)
    requires path != [] && Ready(env, lay, path, ok, hits, results, pick) && i < |results|
             && InView(env, lay, results, i)
    requires 0 < n <= |pick(results[i].loc)| && InLoop(env, lay, path, ok, hits, results, pick, start, s, i, n - 1)
    ensures RoundGives(env, results, pick, s, i, n - 1, s2)
    ensures InLoop(env, lay, path, ok, hits, results, pick, start, s2, i, n)
    decreases Unmerged(results, s.merged), 1, 0
  {
    var k := RoundBegins(env, lay, path, ok, hits, results, pick, start, s, i, n);
    var s1 := MergeSettles(env, lay, path, ok, hits, results, pick, s, k);
    s2 := Absorb(env, results, s1, i, k);
    AbsorbSettles(env, lay, path, ok, hits, results, pick, start, s, s1, s2, i, k, n - 1);
  }

  lemma RoundBegins(env: Env, lay: Layout, path: seq<string>, ok: Claim, hits: set<Loc>, results: seq<Result>,
          pick: Selection, start: MergeState, s: MergeState, i: nat, n: nat) returns (k: nat)
    requires path != [] && Ready(env, lay, path, ok, hits, results, pick) && i < |results|
             && InView(env, lay, results, i)
    requires 0 < n <= |pick(results[i].loc)| && InLoop(env, lay, path, ok, hits, results, pick, start, s, i, n - 1)
    ensures k == pick(results[i].loc)[n - 1] && k < |results|
    ensures Settled(env, lay, path, hits, results, s, Height(lay, results[k].loc), None)
    ensures Consistent(results, s) && AllClaim(results, s, PlaceClaim(env, lay, path, ok))
  {
    k := pick(results[i].loc)[n - 1];
    PickedImport(env, lay, path, ok, hits, results, pick, i, n - 1);
    ImportLaid(env, lay, path, results[i].loc, results[k].loc);
    BelowSettled(env, lay, path, hits, results, s, i, k);
  }

  /** What is settled but for result i is settled below it. */
  lemma BelowSettled(env: Env, lay: Layout, path: seq<string>, hits: set<Loc>, results: seq<Result>, s: MergeState,
          i: nat, k: nat)
    requires path != [] && Laid(env, lay, path) && Fits(results, s) && SamePresentationSameLoc(results)
    requires i < |results| && k < |results|
    requires if lay.core(results[i].loc) then lay.core(results[k].loc)
             else Height(lay, results[k].loc) < Height(lay, results[i].loc)
    requires Settled(env, lay, path, hits, results, s, Height(lay, results[i].loc), Some(results[i].presentation))
    ensures Settled(env, lay, path, hits, results, s, Height(lay, results[k].loc), None)
  {
  }

  /** The import has been merged (from s to s1), and result i absorbs its document (to s2). */
  lemma AbsorbSettles(env: Env, lay: Layout, path: seq<string>, ok: Claim, hits: set<Loc>, results: seq<Result>,
          pick: Selection, start: MergeState, s: MergeState, s1: MergeState, s2: MergeState, i: nat, k: nat, n: nat)
    requires path != [] && Ready(env, lay, path, ok, hits, results, pick) && i < |results|
             && InView(env, lay, results, i)
    requires InLoop(env, lay, path, ok, hits, results, pick, start, s, i, n) && n < |pick(results[i].loc)|
    requires k == pick(results[i].loc)[n] && k < |results| && s.merged <= s1.merged
    requires Consistent(results, s1) && k in s1.merged && AllClaim(results, s1, PlaceClaim(env, lay, path, ok))
    requires Settled(env, lay, path, hits, results, s1, Height(lay, results[k].loc), None)
    requires SameAbove(lay, results, s, s1, Height(lay, results[k].loc))
    requires s2 == Absorb(env, results, s1, i, k)
    ensures InLoop(env, lay, path, ok, hits, results, pick, start, s2, i, n + 1)
  {
    PickedImport(env, lay, path, ok, hits, results, pick, i, n);
    ImportLaid(env, lay, path, results[i].loc, results[k].loc);
    PlaceIsKept(env, lay, path, ok);
    AbsorbKeeps(env, results, s1, PlaceClaim(env, lay, path, ok), i, k);
    AbsorbSees(env, lay, path, ok, results, s1, i, k);
    if !lay.core(results[i].loc) {
      ImportSays(env, lay, path, ok, hits, results, s1, i, k);
      assert SameAt(results, s, s1, i);
    }
    OthersSettled(env, lay, path, hits, results, s, s1, s2, i, k);
    SameStill(lay, results, start, s, s1, s2, i, k);
  }

  lemma AbsorbSees(env: Env, lay: Layout, path: seq<string>, ok: Claim, results: seq<Result>, s: MergeState, i: nat,
          k: nat)
    requires path != [] && AllAccepted(env, ok) && AllClaim(results, s, PlaceClaim(env, lay, path, ok))
    requires PickedEdge(env, results, i, k) && lay.open < |path|
    ensures var r := Absorb(env, results, s, i, k);
            SeenAt(lay, results, r, i, path) == Combine(SeenAt(lay, results, s, i, path),
                                                        SeenAt(lay, results, s, k, path))
  {
    var mine, theirs := s.raws[results[i].presentation], s.raws[results[k].presentation];
    assert PlaceClaim(env, lay, path, ok)(results[i].loc, mine)
           && PlaceClaim(env, lay, path, ok)(results[k].loc, theirs);
    assert AcceptedAt(env, ok, results[i].loc, results[k].loc, theirs);
    MergeWatch(mine.entries, theirs.entries, path, lay.open);
  }

  /** An import that has been merged shows the word of its location, also from the core. */
  lemma ImportSays(env: Env, lay: Layout, path: seq<string>, ok: Claim, hits: set<Loc>, results: seq<Result>,
          s: MergeState, i: nat, k: nat)
    requires path != [] && Laid(env, lay, path) && AllClaim(results, s, PlaceClaim(env, lay, path, ok))
    requires PickedEdge(env, results, i, k) && InView(env, lay, results, i) && InView(env, lay, results, k)
    requires !lay.core(results[i].loc) && k in s.merged
    requires Settled(env, lay, path, hits, results, s, Height(lay, results[k].loc), None)
    ensures SeenAt(lay, results, s, k, path) == Word(env, lay, path, results[k].loc)
  {
    if lay.core(results[k].loc) {
      ImportLaid(env, lay, path, results[i].loc, results[k].loc);
      assert PlaceClaim(env, lay, path, ok)(results[k].loc, s.raws[results[k].presentation]);
    } else {
      assert SettledAt(env, lay, path, hits, results, s, k);
    }
  }

  lemma OthersSettled(env: Env, lay: Layout, path: seq<string>, hits: set<Loc>, results: seq<Result>, s: MergeState,
          s1: MergeState, s2: MergeState, i: nat, k: nat)
    requires path != [] && Laid(env, lay, path) && Fits(results, s) && Fits(results, s1) && i < |results|
             && k < |results|
    requires s2 == Absorb(env, results, s1, i, k)
    requires Settled(env, lay, path, hits, results, s, Height(lay, results[i].loc), Some(results[i].presentation))
    requires Settled(env, lay, path, hits, results, s1, Height(lay, results[k].loc), None)
    requires SameAbove(lay, results, s, s1, Height(lay, results[k].loc))
    ensures Settled(env, lay, path, hits, results, s2, Height(lay, results[i].loc), Some(results[i].presentation))
  {
    forall j | && 0 <= j < |results| && InView(env, lay, results, j) && !lay.core(results[j].loc)
               && Height(lay, results[j].loc) <= Height(lay, results[i].loc)
               && results[j].presentation != results[i].presentation
      ensures SettledAt(env, lay, path, hits, results, s2, j)
    {
      if Height(lay, results[j].loc) > Height(lay, results[k].loc) {
        assert SameAt(results, s, s1, j) && SettledAt(env, lay, path, hits, results, s, j);
      } else {
        assert SettledAt(env, lay, path, hits, results, s1, j);
      }
    }
  }

  lemma SameStill(lay: Layout, results: seq<Result>, start: MergeState, s: MergeState, s1: MergeState, s2: MergeState,
          i: nat, k: nat)
    requires Fits(results, start) && Fits(results, s) && Fits(results, s1) && Fits(results, s2) && i < |results|
             && k < |results|
    requires SamePresentationSameLoc(results) && Height(lay, results[k].loc) <= Height(lay, results[i].loc)
    requires SameAbove(lay, results, start, s, Height(lay, results[i].loc))
    requires SameAbove(lay, results, s, s1, Height(lay, results[k].loc))
    requires s2.merged == s1.merged
    requires forall p | p in s1.raws && p != results[i].presentation :: p in s2.raws && s2.raws[p] == s1.raws[p]
    ensures SameAbove(lay, results, start, s2, Height(lay, results[i].loc))
  {
    forall j | 0 <= j < |results| && Height(lay, results[j].loc) > Height(lay, results[i].loc)
      ensures SameAt(results, start, s2, j)
    {
      assert SameAt(results, start, s, j) && SameAt(results, s, s1, j);
    }
  }

  // ----- Reads

  lemma ReadIsReady(env: Env, lay: Layout, path: seq<string>, ok: Claim, hits: set<Loc>, results: seq<Result>)
    requires path != [] && Laid(env, lay, path) && AllAccepted(env, ok) && lay.scope(env.main)
    requires Complete(env, hits, results)
    ensures Ready(env, lay, path, ok, hits, results, Selected(results))
    ensures forall j | 0 <= j < |results| :: Height(lay, results[j].loc) <= Height(lay, env.main)
  {
    CompleteSelections(env, hits, results);
    CompleteEdges(env, hits, results);
    forall j | 0 <= j < |results|
      ensures InView(env, lay, results, j) && Height(lay, results[j].loc) <= Height(lay, env.main)
    {
      assert CompleteAt(env, hits, results, j);
      NeededBelow(env, lay, path, hits, results[j].loc);
    }
  }

  lemma StartSettles(env: Env, lay: Layout, path: seq<string>, cache: map<Loc, Content>, results: seq<Result>,
          raws: map<Presentation, Content>)
    requires path != [] && Laid(env, lay, path) && CacheSays(env, lay, path, cache)
    requires Complete(env, cache.Keys, results) && Loaded(env, results, raws, cache)
    ensures Settled(env, lay, path, cache.Keys, results, Start(results, raws), Height(lay, env.main), None)
  {
    forall j | 0 <= j < |results| && InView(env, lay, results, j) && !lay.core(results[j].loc)
      ensures SettledAt(env, lay, path, cache.Keys, results, Start(results, raws), j)
    {
      var loc := results[j].loc;
      assert loc in cache ==> Says(env, lay, path, loc, cache[loc]);
    }
  }

  /** What the results of a read say in the end. */
  lemma ResultsSay(env: Env, lay: Layout, path: seq<string>, ok: Claim, cache: map<Loc, Content>, results: seq<Result>,
          raws: map<Presentation, Content>)
    requires path != [] && Laid(env, lay, path) && AllAccepted(env, ok) && lay.scope(env.main)
    requires LoadedClaim(env, cache, ok) && CacheSays(env, lay, path, cache)
    requires Complete(env, cache.Keys, results) && Loaded(env, results, raws, cache)
    ensures var s := MergeAll(env, results, raws);
            && 0 in s.merged
            && forall j | 0 <= j < |results| && j in s.merged ::
                 Says(env, lay, path, results[j].loc, s.raws[results[j].presentation])
  {
    var s, pick := Start(results, raws), Selected(results);
    ReadIsReady(env, lay, path, ok, cache.Keys, results);
    LoadedInPlace(env, lay, path, ok, cache);
    StartClaim(env, cache, results, raws, PlaceClaim(env, lay, path, ok));
    CompleteStart(env, cache.Keys, results, raws);
    StartSettles(env, lay, path, cache, results, raws);
    var final := MergeSettles(env, lay, path, ok, cache.Keys, results, pick, s, 0);
    SettledSay(env, lay, path, ok, cache.Keys, results, pick, final);
  }

  lemma SettledSay(env: Env, lay: Layout, path: seq<string>, ok: Claim, hits: set<Loc>, results: seq<Result>,
          pick: Selection, s: MergeState)
    requires path != [] && Ready(env, lay, path, ok, hits, results, pick)
    requires forall j | 0 <= j < |results| :: Height(lay, results[j].loc) <= Height(lay, env.main)
    requires AllClaim(results, s, PlaceClaim(env, lay, path, ok))
    requires Settled(env, lay, path, hits, results, s, Height(lay, env.main), None)
    ensures forall j | 0 <= j < |results| && j in s.merged ::
              Says(env, lay, path, results[j].loc, s.raws[results[j].presentation])
  {
    forall j | 0 <= j < |results| && j in s.merged
      ensures Says(env, lay, path, results[j].loc, s.raws[results[j].presentation])
    {
      assert InView(env, lay, results, j);
      assert PlaceClaim(env, lay, path, ok)(results[j].loc, s.raws[results[j].presentation]);
      if !lay.core(results[j].loc) {
        assert SettledAt(env, lay, path, hits, results, s, j);
      }
    }
  }

  /**
   Any read, warm or cold, on cyclic imports too and at disputed paths too: main says its word, and so
   does everything that the read leaves in the cache.
   */
  lemma ReadSays(env: Env, lay: Layout, path: seq<string>, ok: Claim, cache: map<Loc, Content>, main: Content,
          cache': map<Loc, Content>)
    requires path != [] && Laid(env, lay, path) && AllAccepted(env, ok) && lay.scope(env.main)
    requires LoadedClaim(env, cache, ok) && CacheSays(env, lay, path, cache)
    requires ReadGives(env, cache, main, cache')
    ensures Says(env, lay, path, env.main, main) && CacheSays(env, lay, path, cache')
  {
    var results: seq<Result>, raws: map<Presentation, Content> :| Gives(env, cache, results, raws, main, cache');
    ResultsSay(env, lay, path, ok, cache, results, raws);
    CachedSay(env, lay, path, cache, results, MergeAll(env, results, raws), cache');
  }

  lemma CachedSay(env: Env, lay: Layout, path: seq<string>, cache: map<Loc, Content>, results: seq<Result>,
          s: MergeState, cache': map<Loc, Content>)
    requires path != [] && Laid(env, lay, path) && CacheSays(env, lay, path, cache) && Fits(results, s)
    requires forall j | 0 <= j < |results| && j in s.merged ::
               Says(env, lay, path, results[j].loc, s.raws[results[j].presentation])
    requires cache' == CachedUpTo(results, s, cache, |results|)
    ensures CacheSays(env, lay, path, cache')
  {
    forall loc | loc in cache' && lay.scope(loc)
      ensures Says(env, lay, path, loc, cache'[loc])
    {
      CachedUpToLocs(results, s, cache, |results|, loc);
      if loc in cache && cache'[loc] == cache[loc] {
        assert Says(env, lay, path, loc, cache[loc]);
      }
    }
  }

  /** Documents that say the word of the same location show the same. */
  lemma SameWord(env: Env, lay: Layout, path: seq<string>, loc: Loc, x: Content, y: Content)
    requires path != [] && Laid(env, lay, path) && !lay.core(loc)
    requires Says(env, lay, path, loc, x) && Says(env, lay, path, loc, y)
    ensures See(x.entries, path) == See(y.entries, path)
  {
    WatchEndsInSight(x.entries, path, lay.open);
    WatchEndsInSight(y.entries, path, lay.open);
  }

  /** So two reads show the same there, whatever the schedule and whatever is in the caches that earlier reads left. */
  lemma ReadsSayTheSame(env: Env, lay: Layout, path: seq<string>, ok: Claim,
          cache1: map<Loc, Content>, main1: Content, left1: map<Loc, Content>,
          cache2: map<Loc, Content>, main2: Content, left2: map<Loc, Content>)
    requires path != [] && Laid(env, lay, path) && AllAccepted(env, ok) && lay.scope(env.main) && !lay.core(env.main)
    requires LoadedClaim(env, cache1, ok) && CacheSays(env, lay, path, cache1) && ReadGives(env, cache1, main1, left1)
    requires LoadedClaim(env, cache2, ok) && CacheSays(env, lay, path, cache2) && ReadGives(env, cache2, main2, left2)
    ensures See(main1.entries, path) == See(main2.entries, path)
  {
    ReadSays(env, lay, path, ok, cache1, main1, left1);
    ReadSays(env, lay, path, ok, cache2, main2, left2);
    SameWord(env, lay, path, env.main, main1, main2);
  }

  // ----- Where the conditions come from

  /** Where all cycles are in the core, what a location reaches ranks it. */
  lemma RankOutsideCore(env: Env, core: Loc -> bool, from: Loc, to: Loc)
    requires forall way, loc | Leads(env, way, loc, loc) && |way| > 1 :: core(loc)
    requires Edge(env, from, to) && !core(from)
    ensures to in env.sources && Rank(env, to) < Rank(env, from)
  {
    ImportsAreImportable(env, from, to);
    var outer, inner := ReachSet(env, from), ReachSet(env, to);
    assert Leads(env, [from], from, from);
    forall l | l in inner
      ensures l in outer
    {
      EdgeReaches(env, from, to, l);
    }
    if from in inner {
      var way :| Leads(env, way, to, from);
      EdgeExtendsPath(env, way, from, to, from);
      assert false;
    }
    ProperSubsetIsSmaller(inner, outer);
  }

  /** The layout of reads whose cycles are all among what a profile reaches. */
  ghost function ProfileLayout(env: Env, profile: Loc, view: seq<Sight>, open: nat): Layout {
    Layout(_ => true, loc => Reaches(env, profile, loc), _ => view, loc => Rank(env, loc), open)
  }

  /**
   It is in order if the documents that the profile reaches show nothing behind the first prefixes but one view, and
   those of them that others import show all of it. No document may have a leaf at the first prefixes.
   */
  lemma ProfileIsLaid(env: Env, profile: Loc, path: seq<string>, view: seq<Sight>, open: nat)
    requires open < |path|
    requires forall way, loc | Leads(env, way, loc, loc) && |way| > 1 :: Reaches(env, profile, loc)
    requires forall loc | loc in env.sources :: Unblocked(View(env.sources[loc].raw.entries, path), open)
    requires forall loc | loc in env.sources && Reaches(env, profile, loc) ::
               AtMost(Watch(env.sources[loc].raw.entries, path, open), view)
    requires forall from, to | && Edge(env, from, to) && to in env.sources && !Reaches(env, profile, from)
                               && Reaches(env, profile, to) ::
               Watch(env.sources[to].raw.entries, path, open) == view
    ensures Laid(env, ProfileLayout(env, profile, view, open), path)
  {
    var lay := ProfileLayout(env, profile, view, open);
    forall from, to
      ensures EdgeLaid(env, lay, path, from, to)
    {
      if Edge(env, from, to) {
        ImportsAreImportable(env, from, to);
        if lay.core(from) {
          SourceReached(env, to);
          EdgeReaches(env, from, to, to);
          ReachesOn(env, profile, from, to);
        } else {
          RankOutsideCore(env, lay.core, from, to);
        }
      }
    }
  }

  /** In particular if no document has a leaf on the way to the path, and the profile's documents show nothing there. */
  lemma SilentProfileIsLaid(env: Env, profile: Loc, path: seq<string>)
    requires path != []
    requires forall way, loc | Leads(env, way, loc, loc) && |way| > 1 :: Reaches(env, profile, loc)
    requires forall loc | loc in env.sources :: Clear(env.sources[loc].raw.entries, path)
    requires forall loc | loc in env.sources && Reaches(env, profile, loc) ::
               See(env.sources[loc].raw.entries, path) == Nothing
    ensures Laid(env, ProfileLayout(env, profile, [Nothing], |path| - 1), path)
  {
    var open := |path| - 1;
    forall loc | loc in env.sources
      ensures var d := env.sources[loc].raw.entries;
              Unblocked(View(d, path), open) && Watch(d, path, open) == [See(d, path)]
    {
      ClearIsUnblocked(env.sources[loc].raw.entries, path);
    }
    forall from, to | Edge(env, from, to)
      ensures to in env.sources
    {
      ImportsAreImportable(env, from, to);
    }
    ProfileIsLaid(env, profile, path, [Nothing], open);
  }

  lemma SourceReached(env: Env, loc: Loc)
    requires loc in env.sources
    ensures Reaches(env, loc, loc)
  {
    assert Leads(env, [loc], loc, loc);
  }

  // ----- Histories

  lemma FromLaid(env: Env, main: Loc, lay: Layout, path: seq<string>)
    requires path != []
    ensures Laid(From(env, main), lay, path) <==> Laid(env, lay, path)
  {
    forall from, to
      ensures EdgeLaid(From(env, main), lay, path, from, to) <==> EdgeLaid(env, lay, path, from, to)
    {
      FromEdge(env, main, from, to);
    }
    forall loc
      ensures SourceLaid(From(env, main), lay, path, loc) <==> SourceLaid(env, lay, path, loc)
    {
    }
  }

  /** The word of a location is the same from wherever it is read. */
  lemma {:induction false} FromWord(env: Env, main: Loc, lay: Layout, path: seq<string>, loc: Loc, n: nat)
    requires path != [] && Laid(env, lay, path) && Laid(From(env, main), lay, path)
    requires lay.scope(loc) && loc in env.sources && !lay.core(loc) && n <= |ImportsOf(env, loc)|
    ensures ImportsOf(From(env, main), loc) == ImportsOf(env, loc)
    ensures WordUpTo(From(env, main), lay, path, loc, n) == WordUpTo(env, lay, path, loc, n)
    decreases Height(lay, loc), n
  {
    FromKeeps(env, main, loc, ImportList(env, loc));
    if n > 0 {
      var imported := ImportsOf(env, loc)[n - 1];
      FromWord(env, main, lay, path, loc, n - 1);
      ImportLaid(env, lay, path, loc, imported);
      if !lay.core(imported) {
        FromWord(env, main, lay, path, imported, |ImportsOf(env, imported)|);
      }
    }
  }

  lemma FromSays(env: Env, main: Loc, lay: Layout, path: seq<string>, loc: Loc, x: Content)
    requires path != [] && Laid(env, lay, path) && Laid(From(env, main), lay, path)
    ensures Says(From(env, main), lay, path, loc, x) <==> Says(env, lay, path, loc, x)
  {
    if loc in env.sources && lay.scope(loc) && !lay.core(loc) {
      FromWord(env, main, lay, path, loc, |ImportsOf(env, loc)|);
    }
  }

  /** The property of all documents, as they are in their sources and in the cache. */
  ghost predicate AllHeld(env: Env, cache: map<Loc, Content>, ok: Claim) {
    && (forall loc | loc in env.sources :: ok(loc, env.sources[loc].raw))
    && (forall loc | loc in cache :: ok(loc, cache[loc]))
  }

  lemma ReadKeepsHeld(env: Env, cache: map<Loc, Content>, main: Content, cache': map<Loc, Content>, ok: Claim)
    requires ReadGives(env, cache, main, cache') && KeptByMerge(env, ok) && AllHeld(env, cache, ok)
    ensures LoadedClaim(env, cache, ok) && AllHeld(env, cache', ok)
  {
    var results: seq<Result>, raws: map<Presentation, Content> :| Gives(env, cache, results, raws, main, cache');
    HeldIsLoaded(env, cache, ok);
    ReadKeeps(env, cache, results, raws, ok);
    CachingKeepsHeld(env, cache, results, MergeAll(env, results, raws), cache', ok);
  }

  lemma HeldIsLoaded(env: Env, cache: map<Loc, Content>, ok: Claim)
    requires AllHeld(env, cache, ok)
    ensures LoadedClaim(env, cache, ok)
  {
  }

  lemma CachingKeepsHeld(env: Env, cache: map<Loc, Content>, results: seq<Result>, s: MergeState,
          cache': map<Loc, Content>, ok: Claim)
    requires AllHeld(env, cache, ok) && AllClaim(results, s, ok) && cache' == CachedUpTo(results, s, cache, |results|)
    ensures AllHeld(env, cache', ok)
  {
    forall loc | loc in cache'
      ensures ok(loc, cache'[loc])
    {
      CachedUpToLocs(results, s, cache, |results|, loc);
    }
  }

  lemma FromAccepted(env: Env, main: Loc, ok: Claim)
    requires AllAccepted(env, ok)
    ensures AllAccepted(From(env, main), ok)
  {
    forall from, to, x: Content, y: Content
      ensures KeptAt(From(env, main), ok, from, to, x, y)
    {
      FromEdge(env, main, from, to);
      assert KeptAt(env, ok, from, to, x, y);
    }
    forall from, to, x
      ensures AcceptedAt(From(env, main), ok, from, to, x)
    {
      FromEdge(env, main, from, to);
      assert AcceptedAt(env, ok, from, to, x);
    }
  }

  lemma ReadSaysFrom(env: Env, main: Loc, lay: Layout, path: seq<string>, ok: Claim, cache: map<Loc, Content>,
          document: Content, cache': map<Loc, Content>)
    requires path != [] && Laid(env, lay, path) && AllAccepted(env, ok) && lay.scope(main)
    requires AllHeld(env, cache, ok) && CacheSays(env, lay, path, cache)
             && ReadGives(From(env, main), cache, document, cache')
    ensures Says(env, lay, path, main, document) && CacheSays(env, lay, path, cache') && AllHeld(env, cache', ok)
  {
    var env' := From(env, main);
    FromLaid(env, main, lay, path);
    FromAccepted(env, main, ok);
    ReadKeepsHeld(env', cache, document, cache', ok);
    forall loc, x
      ensures Says(env', lay, path, loc, x) <==> Says(env, lay, path, loc, x)
    {
      FromSays(env, main, lay, path, loc, x);
    }
    assert CacheSays(env', lay, path, cache);
    ReadSays(env', lay, path, ok, cache, document, cache');
  }

  lemma {:induction false} HistoryCachesSay(env: Env, lay: Layout, path: seq<string>, ok: Claim, mains: seq<Loc>,
          documents: seq<Content>, caches: seq<map<Loc, Content>>, i: nat)
    requires path != [] && Laid(env, lay, path) && AllAccepted(env, ok) && AllHeld(env, map[], ok)
    requires forall m | m in mains :: lay.scope(m)
    requires History(env, mains, documents, caches) && i <= |mains|
    ensures CacheSays(env, lay, path, caches[i]) && AllHeld(env, caches[i], ok)
  {
    if i > 0 {
      var main, cache := mains[i - 1], caches[i - 1];
      HistoryCachesSay(env, lay, path, ok, mains, documents, caches, i - 1);
      HistoryRead(env, mains, documents, caches, i - 1);
      ReadSaysFrom(env, main, lay, path, ok, cache, documents[i - 1], caches[i]);
    }
  }

  /**
   Over any history of reads of any imports so laid out, cyclic ones too, every main document says its word:
   neither the schedules nor the cache make a difference, also where documents dispute the path.
   */
  lemma HistorySays(env: Env, lay: Layout, path: seq<string>, ok: Claim, mains: seq<Loc>, documents: seq<Content>,
          caches: seq<map<Loc, Content>>, i: nat)
    requires path != [] && Laid(env, lay, path) && AllAccepted(env, ok) && AllHeld(env, map[], ok)
    requires forall m | m in mains :: lay.scope(m)
    requires History(env, mains, documents, caches) && i < |mains|
    ensures Says(env, lay, path, mains[i], documents[i])
  {
    HistoryCachesSay(env, lay, path, ok, mains, documents, caches, i);
    HistoryRead(env, mains, documents, caches, i);
    ReadSaysFrom(env, mains[i], lay, path, ok, caches[i], documents[i], caches[i + 1]);
  }

  /** Neither cycles nor what they dispute make a difference to main at the path. */
  ghost predicate Decided(env: Env, mains: seq<Loc>, main: Loc, path: seq<string>)
    requires path != []
  {
    exists lay :: Laid(env, lay, path) && (forall m | m in mains :: lay.scope(m)) && lay.scope(main) && !lay.core(main)
  }

  /**
   Schedule independence and cache transparency on cyclic imports: if every path is decided, a document is the same
   however often, in which order and with which schedules it and others have been read before.
   */
  lemma HistoriesAgree(env: Env, ok: Claim,
          mains1: seq<Loc>, documents1: seq<Content>, caches1: seq<map<Loc, Content>>, i: nat,
          mains2: seq<Loc>, documents2: seq<Content>, caches2: seq<map<Loc, Content>>, j: nat)
    requires AllAccepted(env, ok) && AllHeld(env, map[], ok)
    requires History(env, mains1, documents1, caches1) && History(env, mains2, documents2, caches2)
    requires i < |mains1| && j < |mains2| && mains1[i] == mains2[j]
    requires forall path: seq<string> | path != [] :: Decided(env, mains1 + mains2, mains1[i], path)
    ensures documents1[i] == documents2[j]
  {
    forall path: seq<string> | path != []
      ensures See(documents1[i].entries, path) == See(documents2[j].entries, path)
    {
      assert Decided(env, mains1 + mains2, mains1[i], path);
      var lay :| && Laid(env, lay, path) && (forall m | m in mains1 + mains2 :: lay.scope(m))
                 && lay.scope(mains1[i]) && !lay.core(mains1[i]);
      HistorySays(env, lay, path, ok, mains1, documents1, caches1, i);
      HistorySays(env, lay, path, ok, mains2, documents2, caches2, j);
      SameWord(env, lay, path, mains1[i], documents1[i], documents2[j]);
    }
    SameSights(documents1[i].entries, documents2[j].entries);
  }

  /** Two cold reads of the same main location end with the same document if each path is decided or undisputed. */
  lemma ColdReadsAgree(env: Env, ok: Claim, main1: Content, left1: map<Loc, Content>, main2: Content,
          left2: map<Loc, Content>)
    requires AllAccepted(env, ok) && LoadedClaim(env, map[], ok)
    requires ReadGives(env, map[], main1, left1) && ReadGives(env, map[], main2, left2)
    requires forall path: seq<string> | path != [] :: AtPeace(env, map[], ok, path) || Decided(env, [], env.main, path)
    ensures main1 == main2
  {
    var cold: map<Loc, Content> := map[];
    forall path: seq<string> | path != []
      ensures See(main1.entries, path) == See(main2.entries, path)
    {
      if AtPeace(env, cold, ok, path) {
        PeaceAgrees(env, cold, main1, left1, main2, left2, ok, path);
      } else {
        assert Decided(env, [], env.main, path);
        DecidedAgrees(env, ok, main1, left1, main2, left2, path);
      }
    }
    SameSights(main1.entries, main2.entries);
  }

  lemma DecidedAgrees(env: Env, ok: Claim, main1: Content, left1: map<Loc, Content>, main2: Content,
          left2: map<Loc, Content>, path: seq<string>)
    requires AllAccepted(env, ok) && LoadedClaim(env, map[], ok)
    requires ReadGives(env, map[], main1, left1) && ReadGives(env, map[], main2, left2)
    requires path != [] && Decided(env, [], env.main, path)
    ensures See(main1.entries, path) == See(main2.entries, path)
  {
    var lay :| Laid(env, lay, path) && lay.scope(env.main) && !lay.core(env.main);
    ReadsSayTheSame(env, lay, path, ok, map[], main1, left1, map[], main2, left2);
  }

  /** Of acyclic imports every path is decided: there is no need of a core. */
  lemma AcyclicIsDecided(env: Env, mains: seq<Loc>, main: Loc, path: seq<string>)
    requires path != [] && Acyclic(env)
    ensures Decided(env, mains, main, path)
  {
    var lay := Layout(_ => true, _ => false, _ => [], loc => Rank(env, loc), 0);
    forall from, to
      ensures EdgeLaid(env, lay, path, from, to)
    {
      if Edge(env, from, to) {
        ImportsRankLower(env, from, to);
      }
    }
    assert Laid(env, lay, path);
  }
}
