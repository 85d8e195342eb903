/**
 The second half of `Read.consume` (aria/parser/consumption/presentation.py), as functions: merging the
 results of a read into the main document and caching the merged presentations.
 PresentationMerge.dfy proves that the in-place merge computes them.
 */
module ResultMerge {
  import opened Wrappers
  import opened ImportGraph

  /** The indices of the results that `get_imports` selects among the first n: one for each location. */
  function ImportIndices(results: seq<Result>, origin: Loc, n: nat): (r: seq<nat>)
    requires n <= |results|
    ensures forall k | 0 <= k < |r| :: r[k] < n && results[r[k]].origin == Some(origin)
  {
    if n == 0 then []
    else
      var rest := ImportIndices(results, origin, n - 1);
      if results[n - 1].origin == Some(origin) && results[n - 1].loc !in LocsAt(results, rest) then rest + [n - 1]
      else rest
  }

  function LocsAt(results: seq<Result>, indices: seq<nat>): seq<Loc>
    requires forall k | 0 <= k < |indices| :: indices[k] < |results|
  {
    seq(|indices|, k requires 0 <= k < |indices| => results[indices[k]].loc)
  }

  /** The selected results have the imported locations in order, each once. */
  lemma {:induction false} ImportIndicesDedup(results: seq<Result>, origin: Loc, n: nat)
    requires n <= |results|
    ensures LocsAt(results, ImportIndices(results, origin, n)) == Dedup(LocsFrom(results[..n], origin))
  {
    if n > 0 {
      ImportIndicesDedup(results, origin, n - 1);
      var last := results[n - 1];
      assert results[..n] == results[..n - 1] + [last];
      LocsFromAppend(results[..n - 1], last, origin);
      ImportIndicesStep(results, origin, n - 1, LocsFrom(results[..n - 1], origin));
    }
  }

  lemma ImportIndicesStep(results: seq<Result>, origin: Loc, n: nat, before: seq<Loc>)
    requires n < |results| && LocsAt(results, ImportIndices(results, origin, n)) == Dedup(before)
    ensures LocsAt(results, ImportIndices(results, origin, n + 1)) ==
            Dedup(before + if results[n].origin == Some(origin) then [results[n].loc] else [])
  {
    if results[n].origin == Some(origin) {
      DedupAppend(before, results[n].loc);
      DedupMembers(before, results[n].loc);
      LocsAtAppend(results, ImportIndices(results, origin, n), n);
    } else {
      assert before + [] == before;
    }
  }

  lemma LocsAtAppend(results: seq<Result>, indices: seq<nat>, i: nat)
    requires i < |results| && forall k | 0 <= k < |indices| :: indices[k] < |results|
    ensures LocsAt(results, indices + [i]) == LocsAt(results, indices) + [results[i].loc]
  {
  }

  /**
   The state of a merge: the documents of the presentations, the results whose `merged` flag is set, and a
   log of the presentations whose import loop was entered.
   */
  datatype MergeState = MergeState(raws: map<Presentation, Content>, merged: set<nat>, loops: seq<Presentation>)

  predicate Fits(results: seq<Result>, s: MergeState) {
    forall j | 0 <= j < |results| :: results[j].presentation in s.raws
  }

  function Unmerged(results: seq<Result>, merged: set<nat>): set<nat> {
    set j: nat | j < |results| && j !in merged
  }

  /** Result i and all others with the same presentation. */
  function SamePresentation(results: seq<Result>, i: nat): set<nat>
    requires i < |results|
  {
    set j: nat | j < |results| && results[j].presentation == results[i].presentation
  }

  function Enter(results: seq<Result>, s: MergeState, i: nat): (r: MergeState)
    requires Fits(results, s) && i < |results| && i !in s.merged
    ensures Fits(results, r) && Unmerged(results, r.merged) < Unmerged(results, s.merged)
  {
    assert i in Unmerged(results, s.merged);
    s.(merged := s.merged + SamePresentation(results, i), loops := s.loops + [results[i].presentation])
  }

  /** For each location, the results that are selected as its imports. */
  type Selection = Loc -> seq<nat>

  predicate WellPickedAt(results: seq<Result>, indices: seq<nat>) {
    forall k | 0 <= k < |indices| :: indices[k] < |results|
  }

  ghost predicate WellPicked(results: seq<Result>, pick: Selection) {
    forall loc :: WellPickedAt(results, pick(loc))
  }

  /** What `get_imports` selects. */
  function Selected(results: seq<Result>): (pick: Selection)
    ensures WellPicked(results, pick)
  {
    loc => ImportIndices(results, loc, |results|)
  }

  /** The `merge` method of result i, as a function of the state. */
  function Merging(env: Env, results: seq<Result>, pick: Selection, s: MergeState, i: nat): (r: MergeState)
    requires WellPicked(results, pick) && Fits(results, s) && i < |results|
    ensures Fits(results, r) && s.merged <= r.merged
    decreases Unmerged(results, s.merged), 0, 0
  {
    if i in s.merged then s
    else MergingImports(env, results, pick, Enter(results, s, i), i, |pick(results[i].loc)|)
  }

  /** Its loop over the imports, after n rounds: each import is merged and then absorbed. */
  function MergingImports(env: Env, results: seq<Result>, pick: Selection, s: MergeState, i: nat,
          n: nat): (r: MergeState)
    requires WellPicked(results, pick) && Fits(results, s) && i < |results| && n <= |pick(results[i].loc)|
    ensures Fits(results, r) && s.merged <= r.merged
    decreases Unmerged(results, s.merged), 1, n
  {
    if n == 0 then s
    else
      var before, k := MergingImports(env, results, pick, s, i, n - 1), pick(results[i].loc)[n - 1];
      Absorb(env, results, Merging(env, results, pick, before, k), i, k)
  }

  /** Merges the document of result k into the document of result i. */
  function Absorb(env: Env, results: seq<Result>, s: MergeState, i: nat, k: nat): (r: MergeState)
    requires Fits(results, s) && i < |results| && k < |results|
    ensures Fits(results, r) && r.merged == s.merged
  {
    var mine, theirs := results[i].presentation, results[k].presentation;
    s.(raws := s.raws[mine := MergeImport(env, ClassOf(env, results[i]), s.raws[mine], s.raws[theirs])])
  }

  // ----- Any result list: termination, each loop once, closure

  /** All results with the presentation of result j are among those merged. */
  predicate Together(results: seq<Result>, merged: set<nat>, j: nat)
    requires j < |results|
  {
    forall k | 0 <= k < |results| && results[k].presentation == results[j].presentation :: k in merged
  }

  /** Results with the same presentation have the same location and have been marked together. */
  predicate Consistent(results: seq<Result>, s: MergeState) {
    && Fits(results, s) && SamePresentationSameLoc(results)
    && forall j {:trigger Together(results, s.merged, j)} | 0 <= j < |results| && j in s.merged ::
         Together(results, s.merged, j)
  }

  lemma EnterConsistent(results: seq<Result>, s: MergeState, i: nat)
    requires Consistent(results, s) && i < |results| && i !in s.merged
    ensures Consistent(results, Enter(results, s, i))
  {
    forall j | 0 <= j < |results| && j in Enter(results, s, i).merged
      ensures Together(results, Enter(results, s, i).merged, j)
    {
      assert j in s.merged ==> Together(results, s.merged, j);
    }
  }

  /** No import loop has been entered twice, and the loops entered are those of marked results. */
  ghost predicate LoopedOnce(results: seq<Result>, s: MergeState) {
    && Consistent(results, s)
    && (forall a, b | 0 <= a < b < |s.loops| :: s.loops[a] != s.loops[b])
    && (forall j | 0 <= j < |results| :: results[j].presentation in s.loops ==> j in s.merged)
  }

  lemma {:induction false} LoopsRunOnce(env: Env, results: seq<Result>, pick: Selection, s: MergeState, i: nat)
    requires WellPicked(results, pick) && LoopedOnce(results, s) && i < |results|
    ensures LoopedOnce(results, Merging(env, results, pick, s, i))
    decreases Unmerged(results, s.merged), 0, 0
  {
    if i !in s.merged {
      assert results[i].presentation !in s.loops;
      EnterConsistent(results, s, i);
      LoopsRunOnceIn(env, results, pick, Enter(results, s, i), i, |pick(results[i].loc)|);
    }
  }

  lemma {:induction false} LoopsRunOnceIn(env: Env, results: seq<Result>, pick: Selection, s: MergeState, i: nat,
          n: nat)
    requires WellPicked(results, pick) && LoopedOnce(results, s) && i < |results| && n <= |pick(results[i].loc)|
    ensures LoopedOnce(results, MergingImports(env, results, pick, s, i, n))
    decreases Unmerged(results, s.merged), 1, n
  {
    if n > 0 {
      LoopsRunOnceIn(env, results, pick, s, i, n - 1);
      LoopsRunOnce(env, results, pick, MergingImports(env, results, pick, s, i, n - 1), pick(results[i].loc)[n - 1]);
    }
  }

  /** The first n imports of result j are merged. */
  predicate ImportsMerged(results: seq<Result>, pick: Selection, merged: set<nat>, j: nat, n: nat)
    requires j < |results| && n <= |pick(results[j].loc)|
  {
    forall k | 0 <= k < n :: pick(results[j].loc)[k] in merged
  }

  predicate AllImportsMerged(results: seq<Result>, pick: Selection, merged: set<nat>, j: nat)
    requires j < |results|
  {
    ImportsMerged(results, pick, merged, j, |pick(results[j].loc)|)
  }

  /** Merging sets the flag of the result and keeps results with the same presentation in step. */
  lemma {:induction false} MergeGrows(env: Env, results: seq<Result>, pick: Selection, s: MergeState, i: nat)
    requires WellPicked(results, pick) && Consistent(results, s) && i < |results|
    ensures var r := Merging(env, results, pick, s, i); Consistent(results, r) && i in r.merged
    decreases Unmerged(results, s.merged), 0, 0
  {
    if i !in s.merged {
      EnterConsistent(results, s, i);
      MergeGrowsIn(env, results, pick, Enter(results, s, i), i, |pick(results[i].loc)|);
    }
  }

  lemma {:induction false} MergeGrowsIn(env: Env, results: seq<Result>, pick: Selection, s: MergeState, i: nat, n: nat)
    requires WellPicked(results, pick) && Consistent(results, s) && i < |results| && n <= |pick(results[i].loc)|
    ensures var r := MergingImports(env, results, pick, s, i, n); Consistent(results, r)
    decreases Unmerged(results, s.merged), 1, n
  {
    if n > 0 {
      MergeGrowsIn(env, results, pick, s, i, n - 1);
      MergeGrows(env, results, pick, MergingImports(env, results, pick, s, i, n - 1), pick(results[i].loc)[n - 1]);
    }
  }

  /** Whatever became merged between the two states has all its imports merged. */
  predicate NewOnesClosed(results: seq<Result>, pick: Selection, before: set<nat>, after: set<nat>) {
    forall j {:trigger AllImportsMerged(results, pick, after, j)} | 0 <= j < |results| && j in after && j !in before ::
      AllImportsMerged(results, pick, after, j)
  }

  lemma ClosedTransitive(results: seq<Result>, pick: Selection, first: set<nat>, second: set<nat>, third: set<nat>)
    requires NewOnesClosed(results, pick, first, second) && NewOnesClosed(results, pick, second, third)
             && second <= third
    ensures NewOnesClosed(results, pick, first, third)
  {
    forall j | 0 <= j < |results| && j in third && j !in first
      ensures AllImportsMerged(results, pick, third, j)
    {
      if j in second {
        assert AllImportsMerged(results, pick, second, j);
      } else {
        assert AllImportsMerged(results, pick, third, j);
      }
    }
  }

  /** The merge of a result reaches all it should: everything it marks has its imports merged. */
  lemma {:induction false} MergeReaches(env: Env, results: seq<Result>, pick: Selection, s: MergeState, i: nat)
    requires WellPicked(results, pick) && Consistent(results, s) && i < |results|
    ensures NewOnesClosed(results, pick, s.merged, Merging(env, results, pick, s, i).merged)
    decreases Unmerged(results, s.merged), 0, 0
  {
    if i !in s.merged {
      EnterConsistent(results, s, i);
      MergeReachesIn(env, results, pick, Enter(results, s, i), i, |pick(results[i].loc)|);
    }
  }

  lemma {:induction false} MergeReachesIn(env: Env, results: seq<Result>, pick: Selection, s: MergeState, i: nat,
          n: nat)
    requires WellPicked(results, pick) && Consistent(results, s) && i < |results| && n <= |pick(results[i].loc)|
    ensures Reached(results, pick, s.merged, MergingImports(env, results, pick, s, i, n).merged, i, n)
    decreases Unmerged(results, s.merged), 1, n
  {
    if n > 0 {
      var before, k := MergingImports(env, results, pick, s, i, n - 1), pick(results[i].loc)[n - 1];
      MergeReachesIn(env, results, pick, s, i, n - 1);
      MergeGrowsIn(env, results, pick, s, i, n - 1);
      MergeReaches(env, results, pick, before, k);
      MergeGrows(env, results, pick, before, k);
      ReachedNext(results, pick, s.merged, before.merged, Merging(env, results, pick, before, k).merged, i, n - 1);
    }
  }

  /**
   The loop over the imports of result i has come to the nth: those before it, and all that they led to, are
   merged.
   */
  predicate Reached(results: seq<Result>, pick: Selection, start: set<nat>, merged: set<nat>, i: nat, n: nat)
    requires i < |results| && n <= |pick(results[i].loc)|
  {
    ImportsMerged(results, pick, merged, i, n) && NewOnesClosed(results, pick, start, merged)
  }

  lemma ReachedNext(results: seq<Result>, pick: Selection, start: set<nat>, before: set<nat>, after: set<nat>, i: nat,
          n: nat)
    requires i < |results| && n < |pick(results[i].loc)| && before <= after
    requires Reached(results, pick, start, before, i, n)
    requires NewOnesClosed(results, pick, before, after) && pick(results[i].loc)[n] in after
    ensures Reached(results, pick, start, after, i, n + 1)
  {
    ClosedTransitive(results, pick, start, before, after);
  }

  // ----- Complete results of acyclic imports

  /** The results selected for each location are the imports that the read looked for, in order. */
  ghost predicate SelectionsFit(env: Env, hits: set<Loc>, results: seq<Result>, pick: Selection) {
    && WellPicked(results, pick) && AllRead(env, results)
    && (forall j {:trigger SelectionFits(env, hits, results, pick, results[j].loc)} | 0 <= j < |results| ::
          SelectionFits(env, hits, results, pick, results[j].loc))
  }

  /** All results are of locations with a source, each read in its class. */
  predicate AllRead(env: Env, results: seq<Result>) {
    forall j | 0 <= j < |results| ::
          results[j].loc in env.sources && ClassOf(env, results[j]) == env.classes(results[j].loc)
  }

  ghost predicate SelectionFits(env: Env, hits: set<Loc>, results: seq<Result>, pick: Selection, loc: Loc)
    requires WellPicked(results, pick) && loc in env.sources
  {
    LocsAt(results, pick(loc)) == Expanded(env, hits, loc)
  }

  lemma CompleteSelections(env: Env, hits: set<Loc>, results: seq<Result>)
    requires Complete(env, hits, results)
    ensures SelectionsFit(env, hits, results, Selected(results))
  {
    var pick := Selected(results);
    forall j | 0 <= j < |results|
      ensures results[j].loc in env.sources && SelectionFits(env, hits, results, pick, results[j].loc)
      ensures ClassOf(env, results[j]) == env.classes(results[j].loc)
    {
      assert CompleteAt(env, hits, results, j);
      ImportIndicesDedup(results, results[j].loc, |results|);
      assert results[..|results|] == results;
    }
  }

  /** The document of a presentation that no merge is working on: its own, or the fully merged one. */
  ghost function Expected(env: Env, hits: set<Loc>, loc: Loc, merged: bool): Content
    requires Acyclic(env) && loc in env.sources
  {
    if merged || loc in hits then Merged(env, loc) else env.sources[loc].raw
  }

  /** Every import ranks lower than the importing location. */
  ghost predicate Ranks(rank: Loc -> nat, env: Env) {
    forall from, to | Edge(env, from, to) :: rank(to) < rank(from)
  }

  /** Of the results ranked r or below, all but those of presentation p hold the expected document. */
  ghost predicate Settled(rank: Loc -> nat, env: Env, hits: set<Loc>, results: seq<Result>, s: MergeState, r: nat,
          p: Option<Presentation>)
    requires Acyclic(env) && AllRead(env, results) && Fits(results, s)
  {
    forall j | 0 <= j < |results| && rank(results[j].loc) <= r && Some(results[j].presentation) != p ::
      s.raws[results[j].presentation] == Expected(env, hits, results[j].loc, j in s.merged)
  }

  /** Results ranked above r are the same in both states. */
  ghost predicate SameAbove(rank: Loc -> nat, env: Env, results: seq<Result>, s: MergeState, s': MergeState, r: nat)
    requires Fits(results, s) && Fits(results, s')
  {
    forall j | 0 <= j < |results| && rank(results[j].loc) > r ::
      (j in s'.merged <==> j in s.merged) && s'.raws[results[j].presentation] == s.raws[results[j].presentation]
  }

  /** The selected results of a location are its imports in order, and rank lower. */
  lemma SelectedImports(rank: Loc -> nat, env: Env, hits: set<Loc>, results: seq<Result>, pick: Selection, i: nat,
          n: nat)
    requires Ranks(rank, env) && Acyclic(env) && SelectionsFit(env, hits, results, pick) && i < |results|
    requires n < |pick(results[i].loc)|
    ensures var k := pick(results[i].loc)[n];
            && results[i].loc !in hits && n < |ImportsOf(env, results[i].loc)|
            && results[k].loc == ImportsOf(env, results[i].loc)[n]
            && rank(results[k].loc) < rank(results[i].loc)
  {
    var loc := results[i].loc;
    var indices := pick(loc);
    assert SelectionFits(env, hits, results, pick, loc);
    assert LocsAt(results, indices)[n] == results[indices[n]].loc;
    assert Edge(env, loc, results[indices[n]].loc);
  }

  /** Merging a result leaves the fully merged document, and touches nothing ranked higher. */
  lemma {:induction false} MergeIsMerged(rank: Loc -> nat, env: Env, hits: set<Loc>, results: seq<Result>,
          pick: Selection, s: MergeState, i: nat)
    requires Ranks(rank, env) && Acyclic(env) && SelectionsFit(env, hits, results, pick) && Consistent(results, s)
    requires i < |results|
    requires Settled(rank, env, hits, results, s, rank(results[i].loc), None)
    ensures var s' := Merging(env, results, pick, s, i);
            && Consistent(results, s')
            && Settled(rank, env, hits, results, s', rank(results[i].loc), None)
            && SameAbove(rank, env, results, s, s', rank(results[i].loc))
    decreases Unmerged(results, s.merged), 0, 0
  {
    if i !in s.merged {
      var s1, loc, p := Enter(results, s, i), results[i].loc, results[i].presentation;
      forall j | 0 <= j < |results| && rank(results[j].loc) <= rank(loc) && results[j].presentation != p
        ensures s1.raws[results[j].presentation] == Expected(env, hits, results[j].loc, j in s1.merged)
      {
        assert j in s1.merged <==> j in s.merged;
      }
      assert s1.raws[p] == Advanced(env, hits, loc, 0);
      assert SelectionFits(env, hits, results, pick, loc);
      EnterConsistent(results, s, i);
      LoopMerges(rank, env, hits, results, pick, s1, i, |pick(results[i].loc)|);
    }
  }

  /** The document of a location once the first n of its imports have been merged into it. */
  ghost function Advanced(env: Env, hits: set<Loc>, loc: Loc, n: nat): Content
    requires Acyclic(env) && loc in env.sources && n <= |ImportsOf(env, loc)|
  {
    if loc in hits then Merged(env, loc) else MergedUpTo(env, loc, n)
  }

  /**
   Result i is being merged: the first n of its imports are in, and the other results are settled; higher ones
   are as at the start.
   */
  ghost predicate InLoop(rank: Loc -> nat, env: Env, hits: set<Loc>, results: seq<Result>, pick: Selection,
          start: MergeState, s: MergeState, i: nat, n: nat)
    requires Acyclic(env) && SelectionsFit(env, hits, results, pick) && i < |results|
  {
    && Fits(results, start) && Consistent(results, s) && i in s.merged
    && n <= |pick(results[i].loc)| <= |ImportsOf(env, results[i].loc)|
    && Settled(rank, env, hits, results, s, rank(results[i].loc), Some(results[i].presentation))
    && s.raws[results[i].presentation] == Advanced(env, hits, results[i].loc, n)
    && SameAbove(rank, env, results, start, s, rank(results[i].loc))
  }

  /** Merging a result keeps its loop going: after n rounds the first n imports are in. */
  lemma {:induction false} LoopMerges(rank: Loc -> nat, env: Env, hits: set<Loc>, results: seq<Result>,
          pick: Selection, start: MergeState, i: nat, n: nat)
    requires Ranks(rank, env) && Acyclic(env) && SelectionsFit(env, hits, results, pick) && i < |results|
    requires InLoop(rank, env, hits, results, pick, start, start, i, 0) && n <= |pick(results[i].loc)|
    ensures InLoop(rank, env, hits, results, pick, start, MergingImports(env, results, pick, start, i, n), i, n)
    decreases Unmerged(results, start.merged), 1, n
  {
    if n > 0 {
      LoopMerges(rank, env, hits, results, pick, start, i, n - 1);
      MergingRound(env, results, pick, start, i, n - 1);
      MergeRound(rank, env, hits, results, pick, start, MergingImports(env, results, pick, start, i, n - 1),
                 MergingImports(env, results, pick, start, i, n), i, n - 1);
    }
  }

  lemma MergingRound(env: Env, results: seq<Result>, pick: Selection, s: MergeState, i: nat, n: nat)
    requires WellPicked(results, pick) && Fits(results, s) && i < |results| && n < |pick(results[i].loc)|
    ensures var k := pick(results[i].loc)[n];
            MergingImports(env, results, pick, s, i, n + 1) ==
            Absorb(env, results, Merging(env, results, pick, MergingImports(env, results, pick, s, i, n), k), i, k)
  {
  }

  /** One round of the import loop: the next import is merged, and then its document is absorbed. */
  lemma MergeRound(rank: Loc -> nat, env: Env, hits: set<Loc>, results: seq<Result>, pick: Selection,
          start: MergeState, s: MergeState, s2: MergeState, i: nat, n: nat)
    requires Ranks(rank, env) && Acyclic(env) && SelectionsFit(env, hits, results, pick) && i < |results|
    requires InLoop(rank, env, hits, results, pick, start, s, i, n)
    requires n < |pick(results[i].loc)|
    requires var k := pick(results[i].loc)[n]; s2 == Absorb(env, results, Merging(env, results, pick, s, k), i, k)
    ensures InLoop(rank, env, hits, results, pick, start, s2, i, n + 1)
    decreases Unmerged(results, s.merged), 1, 0
  {
    var k := pick(results[i].loc)[n];
    SelectedImports(rank, env, hits, results, pick, i, n);
    MergeIsMerged(rank, env, hits, results, pick, s, k);
    MergeGrows(env, results, pick, s, k);
    var s1 := Merging(env, results, pick, s, k);
    AbsorbAdvances(rank, env, hits, results, s, s1, i, k, n);
    SameAboveTransitive(rank, env, results, start, s, s2, rank(results[i].loc));
  }

  lemma SameAboveTransitive(rank: Loc -> nat, env: Env, results: seq<Result>, s: MergeState, s': MergeState,
          s'': MergeState, r: nat)
    requires Fits(results, s) && Fits(results, s') && Fits(results, s'')
    requires SameAbove(rank, env, results, s, s', r) && SameAbove(rank, env, results, s', s'', r)
    ensures SameAbove(rank, env, results, s, s'', r)
  {
  }

  /** One round of the import loop: import n of result i has been merged (from s to s1) and is absorbed. */
  lemma AbsorbAdvances(rank: Loc -> nat, env: Env, hits: set<Loc>, results: seq<Result>, s: MergeState,
          s1: MergeState, i: nat, k: nat, n: nat)
    requires Acyclic(env) && AllRead(env, results) && Consistent(results, s) && Consistent(results, s1)
    requires i < |results| && k < |results| && k in s1.merged
    requires results[i].loc !in hits && n < |ImportsOf(env, results[i].loc)|
    requires results[k].loc == ImportsOf(env, results[i].loc)[n]
    requires rank(results[k].loc) < rank(results[i].loc)
    requires Settled(rank, env, hits, results, s, rank(results[i].loc), Some(results[i].presentation))
    requires s.raws[results[i].presentation] == Advanced(env, hits, results[i].loc, n)
    requires Settled(rank, env, hits, results, s1, rank(results[k].loc), None)
    requires SameAbove(rank, env, results, s, s1, rank(results[k].loc))
    ensures var s2 := Absorb(env, results, s1, i, k);
            && Settled(rank, env, hits, results, s2, rank(results[i].loc), Some(results[i].presentation))
            && s2.raws[results[i].presentation] == Advanced(env, hits, results[i].loc, n + 1)
            && SameAbove(rank, env, results, s, s2, rank(results[i].loc))
  {
  }

  // ----- The whole merge

  /** Before the merge: no flag is set. */
  function Start(results: seq<Result>, raws: map<Presentation, Content>): MergeState {
    MergeState(raws, {}, [])
  }

  /** `merge` of the main result. */
  function MergeAll(env: Env, results: seq<Result>, raws: map<Presentation, Content>): (r: MergeState)
    requires results != [] && Fits(results, Start(results, raws))
    ensures Fits(results, r)
  {
    Merging(env, results, Selected(results), Start(results, raws), 0)
  }

  /** The documents that a read hands to the merge: as loaded, or as found in PRESENTATION_CACHE. */
  predicate Loaded(env: Env, results: seq<Result>, raws: map<Presentation, Content>, cache: map<Loc, Content>) {
    forall j | 0 <= j < |results| ::
      && results[j].presentation in raws
      && (results[j].loc in cache ==> raws[results[j].presentation] == cache[results[j].loc])
      && (results[j].loc !in cache && results[j].loc in env.sources ==>
          raws[results[j].presentation] == env.sources[results[j].loc].raw)
  }

  /** Merging the complete results of acyclic imports turns the main document into the recursive specification. */
  lemma MergeMain(env: Env, results: seq<Result>, raws: map<Presentation, Content>, cache: map<Loc, Content>)
    requires Acyclic(env) && Complete(env, cache.Keys, results) && Loaded(env, results, raws, cache)
    requires CacheConsistent(env, cache)
    ensures var final := MergeAll(env, results, raws);
            && final.raws[results[0].presentation] == Merged(env, env.main)
            && (forall j | 0 <= j < |results| && j in final.merged ::
                final.raws[results[j].presentation] == Merged(env, results[j].loc))
            && (forall j | 0 <= j < |results| && results[j].loc in cache ::
                final.raws[results[j].presentation] == cache[results[j].loc])
  {
    var s, hits, rank := Start(results, raws), cache.Keys, (loc: Loc) => Rank(env, loc);
    RanksFit(rank, env);
    CompleteSelections(env, hits, results);
    StartSettled(rank, env, results, raws, cache);
    MergeIsMerged(rank, env, hits, results, Selected(results), s, 0);
    MergeGrows(env, results, Selected(results), s, 0);
    AllSettled(rank, env, results, cache, MergeAll(env, results, raws));
  }

  lemma RanksFit(rank: Loc -> nat, env: Env)
    requires Acyclic(env) && forall loc :: rank(loc) == Rank(env, loc)
    ensures Ranks(rank, env)
  {
    forall from, to | Edge(env, from, to)
      ensures rank(to) < rank(from)
    {
      ImportsRankLower(env, from, to);
    }
  }

  lemma StartSettled(rank: Loc -> nat, env: Env, results: seq<Result>, raws: map<Presentation, Content>,
          cache: map<Loc, Content>)
    requires Acyclic(env) && Complete(env, cache.Keys, results) && Loaded(env, results, raws, cache)
    requires CacheConsistent(env, cache) && AllRead(env, results)
    ensures Settled(rank, env, cache.Keys, results, Start(results, raws), rank(env.main), None)
  {
  }

  /** No result ranks above main, so all are settled. */
  lemma AllSettled(rank: Loc -> nat, env: Env, results: seq<Result>, cache: map<Loc, Content>, s: MergeState)
    requires Acyclic(env) && Complete(env, cache.Keys, results) && CacheConsistent(env, cache)
    requires AllRead(env, results) && Fits(results, s) && forall loc :: rank(loc) == Rank(env, loc)
    requires Settled(rank, env, cache.Keys, results, s, rank(env.main), None)
    ensures forall j | 0 <= j < |results| && j in s.merged ::
              s.raws[results[j].presentation] == Merged(env, results[j].loc)
    ensures forall j | 0 <= j < |results| && results[j].loc in cache ::
              s.raws[results[j].presentation] == cache[results[j].loc]
  {
    forall j | 0 <= j < |results|
      ensures rank(results[j].loc) <= rank(env.main)
    {
      assert CompleteAt(env, cache.Keys, results, j);
      NeededRank(env, cache.Keys, results[j].loc);
    }
  }

  lemma NeededRank(env: Env, hits: set<Loc>, loc: Loc)
    requires Acyclic(env) && Needed(env, hits, loc) && loc in env.sources
    ensures Rank(env, loc) <= Rank(env, env.main)
  {
    var path :| Followed(env, hits, path) && path[|path| - 1] == loc;
    PathRank(env, path);
  }

  lemma {:induction false} PathRank(env: Env, path: seq<Loc>)
    requires Acyclic(env) && IsPath(env, path)
    ensures Rank(env, path[|path| - 1]) <= Rank(env, path[0])
    decreases |path|
  {
    if |path| > 1 {
      var rest := path[1..];
      assert Edge(env, path[0], path[1]);
      ImportsRankLower(env, path[0], path[1]);
      forall i | 0 <= i < |rest| - 1
        ensures Edge(env, rest[i], rest[i + 1])
      {
        assert Edge(env, path[i + 1], path[i + 1 + 1]);
      }
      PathRank(env, rest);
    }
  }

  /** Each location with a result has a result that the merge reached. */
  lemma {:induction false} PathMerged(env: Env, hits: set<Loc>, results: seq<Result>, pick: Selection,
          merged: set<nat>, path: seq<Loc>) returns (i: nat)
    requires SelectionsFit(env, hits, results, pick) && results != [] && 0 in merged && results[0].loc == env.main
    requires forall j | 0 <= j < |results| && j in merged :: AllImportsMerged(results, pick, merged, j)
    requires Followed(env, hits, path)
    ensures i < |results| && i in merged && results[i].loc == path[|path| - 1]
    decreases |path|
  {
    if |path| == 1 {
      i := 0;
    } else {
      var shorter, from, to := path[..|path| - 1], path[|path| - 2], path[|path| - 1];
      assert forall k | 0 <= k < |shorter| - 1 :: Edge(env, path[k], path[k + 1]);
      assert Followed(env, hits, shorter);
      var j := PathMerged(env, hits, results, pick, merged, shorter);
      assert Edge(env, path[|path| - 2], path[|path| - 1]);
      i := ImportMerged(env, hits, results, pick, merged, j, to);
    }
  }

  lemma ImportMerged(env: Env, hits: set<Loc>, results: seq<Result>, pick: Selection, merged: set<nat>, j: nat,
          loc: Loc) returns (i: nat)
    requires SelectionsFit(env, hits, results, pick) && j < |results|
    requires AllImportsMerged(results, pick, merged, j)
    requires results[j].loc !in hits && Edge(env, results[j].loc, loc)
    ensures i < |results| && i in merged && results[i].loc == loc
  {
    var indices := pick(results[j].loc);
    assert SelectionFits(env, hits, results, pick, results[j].loc);
    var m :| 0 <= m < |indices| && LocsAt(results, indices)[m] == loc;
    i := indices[m];
  }

  lemma MergeReachesAllLocs(env: Env, results: seq<Result>, raws: map<Presentation, Content>, hits: set<Loc>,
          loc: Loc) returns (i: nat)
    requires Complete(env, hits, results) && Fits(results, Start(results, raws)) && Needed(env, hits, loc)
    ensures i < |results| && results[i].loc == loc && i in MergeAll(env, results, raws).merged
  {
    CompleteSelections(env, hits, results);
    CompleteStart(env, hits, results, raws);
    MergeAllReaches(env, results, raws);
    var path :| Followed(env, hits, path) && path[|path| - 1] == loc;
    i := PathMerged(env, hits, results, Selected(results), MergeAll(env, results, raws).merged, path);
  }

  lemma CompleteStart(env: Env, hits: set<Loc>, results: seq<Result>, raws: map<Presentation, Content>)
    requires Complete(env, hits, results) && Fits(results, Start(results, raws))
    ensures LoopedOnce(results, Start(results, raws))
  {
  }

  /**
   The merge on any result list, of cyclic imports too: it ends, no import loop is entered twice, and
   the imports of every result that it reaches are merged.
   */
  lemma MergeAllReaches(env: Env, results: seq<Result>, raws: map<Presentation, Content>)
    requires results != [] && LoopedOnce(results, Start(results, raws))
    ensures var r := MergeAll(env, results, raws);
            && LoopedOnce(results, r) && 0 in r.merged
            && forall j | 0 <= j < |results| && j in r.merged ::
                 AllImportsMerged(results, Selected(results), r.merged, j)
  {
    var s, pick := Start(results, raws), Selected(results);
    LoopsRunOnce(env, results, pick, s, 0);
    MergeGrows(env, results, pick, s, 0);
    MergeReaches(env, results, pick, s, 0);
  }

  /** The cache after the first n results had their turn: only merged presentations are stored. */
  function CachedUpTo(results: seq<Result>, s: MergeState, cache: map<Loc, Content>, n: nat): map<Loc, Content>
    requires Fits(results, s) && n <= |results|
  {
    if n == 0 then cache
    else
      var before := CachedUpTo(results, s, cache, n - 1);
      if n - 1 in s.merged then before[results[n - 1].loc := s.raws[results[n - 1].presentation]] else before
  }

  lemma {:induction false} CachedUpToLocs(results: seq<Result>, s: MergeState, cache: map<Loc, Content>, n: nat,
          loc: Loc)
    requires Fits(results, s) && n <= |results|
    ensures loc in CachedUpTo(results, s, cache, n) <==>
            loc in cache || exists k :: 0 <= k < n && k in s.merged && results[k].loc == loc
    ensures loc in CachedUpTo(results, s, cache, n) ==>
              || (loc in cache && CachedUpTo(results, s, cache, n)[loc] == cache[loc])
              || exists k :: 0 <= k < n && k in s.merged && results[k].loc == loc
                             && CachedUpTo(results, s, cache, n)[loc] == s.raws[results[k].presentation]
  {
    if n > 0 {
      CachedUpToLocs(results, s, cache, n - 1, loc);
      assert n - 1 in s.merged && results[n - 1].loc == loc ==>
          CachedUpTo(results, s, cache, n)[loc] == s.raws[results[n - 1].presentation];
    }
  }

  /** Caching the merged results of a complete read covers every location read. */
  lemma CachedLocs(env: Env, results: seq<Result>, raws: map<Presentation, Content>, cache: map<Loc, Content>)
    requires Complete(env, cache.Keys, results) && Loaded(env, results, raws, cache)
    ensures CachedUpTo(results, MergeAll(env, results, raws), cache, |results|).Keys ==
            cache.Keys + set j | 0 <= j < |results| :: results[j].loc
  {
    var s := MergeAll(env, results, raws);
    var cache' := CachedUpTo(results, s, cache, |results|);
    forall j | 0 <= j < |results|
      ensures results[j].loc in cache'
    {
      assert CompleteAt(env, cache.Keys, results, j);
      var k := MergeReachesAllLocs(env, results, raws, cache.Keys, results[j].loc);
      CachedUpToLocs(results, s, cache, |results|, results[j].loc);
    }
    forall loc | loc in cache
      ensures loc in cache'
    {
      CachedUpToLocs(results, s, cache, |results|, loc);
    }
    forall loc | loc in cache'
      ensures loc in cache || loc in set j | 0 <= j < |results| :: results[j].loc
    {
      CachedUpToLocs(results, s, cache, |results|, loc);
    }
  }

  /** Of acyclic imports, it keeps the cache consistent. */
  lemma CachingIsConsistent(env: Env, results: seq<Result>, raws: map<Presentation, Content>, cache: map<Loc, Content>)
    requires Acyclic(env) && Complete(env, cache.Keys, results) && Loaded(env, results, raws, cache)
    requires CacheConsistent(env, cache)
    ensures CacheConsistent(env, CachedUpTo(results, MergeAll(env, results, raws), cache, |results|))
  {
    var s := MergeAll(env, results, raws);
    var cache' := CachedUpTo(results, s, cache, |results|);
    MergeMain(env, results, raws, cache);
    forall loc | loc in cache'
      ensures loc in env.sources && cache'[loc] == Merged(env, loc)
    {
      CachedUpToLocs(results, s, cache, |results|, loc);
      assert forall k | 0 <= k < |results| :: CompleteAt(env, cache.Keys, results, k);
    }
  }
}
