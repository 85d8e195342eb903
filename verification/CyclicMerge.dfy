/**
 What merging the results of a read comes to whatever the imports are, cyclic ones included. By
 default all imports are: every presenter imports its profile, and so do the profile's own files.

 On cyclic imports a merge can absorb a document that is not finished, so there is no recursive
 specification. But nothing is made up, and nothing that the read needs is lost at a path that no
 document disputes.
 */
module CyclicMerge {
  import opened Documents
  import opened Sights
  import opened ImportGraph
  import opened ResultMerge

  // ----- What every merge keeps

  /** A property of the document held for a location. */
  type Claim = (Loc, Content) -> bool

  /** Merging the document of an import into that of the importing location keeps the property. */
  ghost predicate KeptByMerge(env: Env, claim: Claim) {
    forall from, to, x, y {:trigger KeptAt(env, claim, from, to, x, y)} :: KeptAt(env, claim, from, to, x, y)
  }

  ghost predicate KeptAt(env: Env, claim: Claim, from: Loc, to: Loc, x: Content, y: Content) {
    Edge(env, from, to) && claim(from, x) && claim(to, y) ==> claim(from, Content(Merge(x.entries, y.entries)))
  }

  ghost predicate AllClaim(results: seq<Result>, s: MergeState, claim: Claim) {
    Fits(results, s) && forall j | 0 <= j < |results| :: claim(results[j].loc, s.raws[results[j].presentation])
  }

  /** The results selected for a location are imports of it. */
  ghost predicate EdgesPicked(env: Env, results: seq<Result>, pick: Selection) {
    && WellPicked(results, pick) && SamePresentationSameLoc(results)
    && forall i, n {:trigger PickedEdge(env, results, i, pick(results[i].loc)[n])} | 0 <= i < |results|
       && 0 <= n < |pick(results[i].loc)| ::
         PickedEdge(env, results, i, pick(results[i].loc)[n])
  }

  /** Result k is an import of result i, which is read in its class. */
  ghost predicate PickedEdge(env: Env, results: seq<Result>, i: nat, k: nat) {
    && i < |results| && k < |results|
    && Edge(env, results[i].loc, results[k].loc) && ClassOf(env, results[i]) == env.classes(results[i].loc)
  }

  lemma CompleteEdges(env: Env, hits: set<Loc>, results: seq<Result>)
    requires Complete(env, hits, results)
    ensures EdgesPicked(env, results, Selected(results))
  {
    var pick := Selected(results);
    CompleteSelections(env, hits, results);
    forall i, n | 0 <= i < |results| && 0 <= n < |pick(results[i].loc)|
      ensures PickedEdge(env, results, i, pick(results[i].loc)[n])
    {
      var indices := pick(results[i].loc);
      assert SelectionFits(env, hits, results, pick, results[i].loc);
      assert WellPickedAt(results, indices);
      assert LocsAt(results, indices)[n] == results[indices[n]].loc;
    }
  }

  lemma AbsorbKeeps(env: Env, results: seq<Result>, s: MergeState, claim: Claim, i: nat, k: nat)
    requires KeptByMerge(env, claim) && AllClaim(results, s, claim)
    requires SamePresentationSameLoc(results) && PickedEdge(env, results, i, k)
    ensures AllClaim(results, Absorb(env, results, s, i, k), claim)
  {
    assert KeptAt(env, claim, results[i].loc, results[k].loc, s.raws[results[i].presentation],
                  s.raws[results[k].presentation]);
  }

  /** Merging any result keeps a property that merging along imports keeps. */
  lemma {:induction false} MergingKeeps(env: Env, results: seq<Result>, pick: Selection, s: MergeState, claim: Claim,
          i: nat)
    requires KeptByMerge(env, claim) && EdgesPicked(env, results, pick) && AllClaim(results, s, claim) && i < |results|
    ensures AllClaim(results, Merging(env, results, pick, s, i), claim)
    decreases Unmerged(results, s.merged), 0, 0
  {
    if i !in s.merged {
      MergingImportsKeeps(env, results, pick, Enter(results, s, i), claim, i, |pick(results[i].loc)|);
    }
  }

  lemma {:induction false} MergingImportsKeeps(env: Env, results: seq<Result>, pick: Selection, s: MergeState,
          claim: Claim, i: nat, n: nat)
    requires KeptByMerge(env, claim) && EdgesPicked(env, results, pick) && AllClaim(results, s, claim)
    requires i < |results| && n <= |pick(results[i].loc)|
    ensures AllClaim(results, MergingImports(env, results, pick, s, i, n), claim)
    decreases Unmerged(results, s.merged), 1, n
  {
    if n > 0 {
      assert PickedEdge(env, results, i, pick(results[i].loc)[n - 1]);
      MergingImportsKeeps(env, results, pick, s, claim, i, n - 1);
      MergingRound(env, results, pick, s, i, n - 1);
      RoundKeeps(env, results, pick, MergingImports(env, results, pick, s, i, n - 1),
                 MergingImports(env, results, pick, s, i, n),
                 claim, i, pick(results[i].loc)[n - 1]);
    }
  }

  lemma {:induction false} RoundKeeps(env: Env, results: seq<Result>, pick: Selection, s: MergeState, s2: MergeState,
          claim: Claim, i: nat, k: nat)
    requires KeptByMerge(env, claim) && EdgesPicked(env, results, pick) && AllClaim(results, s, claim)
    requires PickedEdge(env, results, i, k)
    requires s2 == Absorb(env, results, Merging(env, results, pick, s, k), i, k)
    ensures AllClaim(results, s2, claim)
    decreases Unmerged(results, s.merged), 1, 0
  {
    MergingKeeps(env, results, pick, s, claim, k);
    AbsorbKeeps(env, results, Merging(env, results, pick, s, k), claim, i, k);
  }

  // ----- Any result list

  /** A property of documents that merging any two of them keeps. */
  ghost predicate KeptByAnyMerge(claim: Content -> bool) {
    forall x, y {:trigger Merge(x.entries, y.entries)} | claim(x) && claim(y) ::
          claim(Content(Merge(x.entries, y.entries)))
  }

  ghost predicate AllHave(results: seq<Result>, s: MergeState, claim: Content -> bool) {
    Fits(results, s) && forall j | 0 <= j < |results| :: claim(s.raws[results[j].presentation])
  }

  /** Merging any result of any list keeps it, whatever is selected and accepted. */
  lemma {:induction false} AnyMergingKeeps(env: Env, results: seq<Result>, pick: Selection, s: MergeState,
          claim: Content -> bool, i: nat)
    requires KeptByAnyMerge(claim) && WellPicked(results, pick) && AllHave(results, s, claim) && i < |results|
    ensures AllHave(results, Merging(env, results, pick, s, i), claim)
    decreases Unmerged(results, s.merged), 0, 0
  {
    if i !in s.merged {
      AnyLoopKeeps(env, results, pick, Enter(results, s, i), claim, i, |pick(results[i].loc)|);
    }
  }

  lemma {:induction false} AnyLoopKeeps(env: Env, results: seq<Result>, pick: Selection, s: MergeState,
          claim: Content -> bool, i: nat, n: nat)
    requires KeptByAnyMerge(claim) && WellPicked(results, pick) && AllHave(results, s, claim)
    requires i < |results| && n <= |pick(results[i].loc)|
    ensures AllHave(results, MergingImports(env, results, pick, s, i, n), claim)
    decreases Unmerged(results, s.merged), 1, n
  {
    if n > 0 {
      AnyLoopKeeps(env, results, pick, s, claim, i, n - 1);
      MergingRound(env, results, pick, s, i, n - 1);
      AnyRoundKeeps(env, results, pick, MergingImports(env, results, pick, s, i, n - 1),
                    MergingImports(env, results, pick, s, i, n),
                    claim, i, pick(results[i].loc)[n - 1]);
    }
  }

  lemma {:induction false} AnyRoundKeeps(env: Env, results: seq<Result>, pick: Selection, s: MergeState, s2: MergeState,
          claim: Content -> bool, i: nat, k: nat)
    requires KeptByAnyMerge(claim) && WellPicked(results, pick) && AllHave(results, s, claim)
    requires i < |results| && k < |results|
    requires s2 == Absorb(env, results, Merging(env, results, pick, s, k), i, k)
    ensures AllHave(results, s2, claim)
    decreases Unmerged(results, s.merged), 1, 0
  {
    AnyMergingKeeps(env, results, pick, s, claim, k);
  }

  // ----- What is seen at an undisputed path

  /** The documents that have the property leave the sight undisputed, and are accepted as imports. */
  ghost predicate Peaceful(env: Env, claim: Claim, path: seq<string>, sight: Sight)
    requires path != []
  {
    && KeptByMerge(env, claim) && sight != Nothing
    && (forall loc, x {:trigger AgreesAt(claim, loc, x, path, sight)} :: AgreesAt(claim, loc, x, path, sight))
    && (forall from, to, x {:trigger AcceptedAt(env, claim, from, to, x)} :: AcceptedAt(env, claim, from, to, x))
  }

  ghost predicate AgreesAt(claim: Claim, loc: Loc, x: Content, path: seq<string>, sight: Sight)
    requires path != []
  {
    claim(loc, x) ==> Agrees(x.entries, path, sight)
  }

  ghost predicate AcceptedAt(env: Env, claim: Claim, from: Loc, to: Loc, x: Content) {
    Edge(env, from, to) && claim(to, x) ==> env.accepts(env.classes(from), x)
  }

  predicate Shown(results: seq<Result>, s: MergeState, j: nat, path: seq<string>, sight: Sight)
    requires path != [] && Fits(results, s) && j < |results|
  {
    See(s.raws[results[j].presentation].entries, path) == sight
  }

  /** What was shown still is, and result i shows what any newly marked result showed. */
  ghost predicate Gathered(results: seq<Result>, s: MergeState, r: MergeState, i: nat, path: seq<string>, sight: Sight)
    requires path != [] && Fits(results, s) && Fits(results, r) && i < |results|
  {
    && (forall j | 0 <= j < |results| && Shown(results, s, j, path, sight) :: Shown(results, r, j, path, sight))
    && (forall j | 0 <= j < |results| && j in r.merged && j !in s.merged && Shown(results, s, j, path, sight) ::
          Shown(results, r, i, path, sight))
  }

  lemma AbsorbShows(env: Env, results: seq<Result>, s: MergeState, claim: Claim, i: nat, k: nat, path: seq<string>,
          sight: Sight)
    requires path != [] && Peaceful(env, claim, path, sight) && AllClaim(results, s, claim)
    requires PickedEdge(env, results, i, k)
    ensures var r := Absorb(env, results, s, i, k);
            && (forall j | 0 <= j < |results| && Shown(results, s, j, path, sight) :: Shown(results, r, j, path, sight))
            && (Shown(results, s, k, path, sight) ==> Shown(results, r, i, path, sight))
  {
    var mine, theirs := s.raws[results[i].presentation], s.raws[results[k].presentation];
    assert AgreesAt(claim, results[i].loc, mine, path, sight) && AgreesAt(claim, results[k].loc, theirs, path, sight);
    assert AcceptedAt(env, claim, results[i].loc, results[k].loc, theirs);
    MergeShows(mine.entries, theirs.entries, path, sight);
  }

  lemma {:induction false} MergingGathers(env: Env, results: seq<Result>, pick: Selection, s: MergeState, claim: Claim,
          i: nat, path: seq<string>, sight: Sight)
    requires path != [] && Peaceful(env, claim, path, sight)
    requires EdgesPicked(env, results, pick) && AllClaim(results, s, claim) && i < |results|
    ensures Gathered(results, s, Merging(env, results, pick, s, i), i, path, sight)
    decreases Unmerged(results, s.merged), 0, 0
  {
    if i !in s.merged {
      LoopGathers(env, results, pick, Enter(results, s, i), claim, i, |pick(results[i].loc)|, path, sight);
    }
  }

  /** One round of the import loop: result k is merged (from s to s1), then result i absorbs its document (to s2). */
  lemma GatheredNext(results: seq<Result>, start: MergeState, s: MergeState, s1: MergeState, s2: MergeState, i: nat,
          k: nat, path: seq<string>, sight: Sight)
    requires path != [] && Fits(results, start) && Fits(results, s) && Fits(results, s1) && Fits(results, s2)
    requires i < |results| && k < |results| && start.merged <= s.merged && s1.merged == s2.merged
    requires Gathered(results, start, s, i, path, sight) && Gathered(results, s, s1, k, path, sight)
    requires forall j | 0 <= j < |results| && Shown(results, s1, j, path, sight) :: Shown(results, s2, j, path, sight)
    requires Shown(results, s1, k, path, sight) ==> Shown(results, s2, i, path, sight)
    ensures Gathered(results, start, s2, i, path, sight)
  {
  }

  lemma {:induction false} LoopGathers(env: Env, results: seq<Result>, pick: Selection, s: MergeState, claim: Claim,
          i: nat, n: nat, path: seq<string>, sight: Sight)
    requires path != [] && Peaceful(env, claim, path, sight)
    requires EdgesPicked(env, results, pick) && AllClaim(results, s, claim)
    requires i < |results| && n <= |pick(results[i].loc)|
    ensures Gathered(results, s, MergingImports(env, results, pick, s, i, n), i, path, sight)
    decreases Unmerged(results, s.merged), 1, n
  {
    if n > 0 {
      assert PickedEdge(env, results, i, pick(results[i].loc)[n - 1]);
      LoopGathers(env, results, pick, s, claim, i, n - 1, path, sight);
      MergingImportsKeeps(env, results, pick, s, claim, i, n - 1);
      MergingRound(env, results, pick, s, i, n - 1);
      RoundGathers(env, results, pick, s, MergingImports(env, results, pick, s, i, n - 1),
                   MergingImports(env, results, pick, s, i, n),
                   claim, i, pick(results[i].loc)[n - 1], path, sight);
    }
  }

  lemma {:induction false} RoundGathers(env: Env, results: seq<Result>, pick: Selection, start: MergeState,
          s: MergeState, s2: MergeState, claim: Claim, i: nat, k: nat, path: seq<string>, sight: Sight)
    requires path != [] && Peaceful(env, claim, path, sight)
    requires EdgesPicked(env, results, pick) && PickedEdge(env, results, i, k)
    requires Fits(results, start) && start.merged <= s.merged && AllClaim(results, s, claim)
    requires Gathered(results, start, s, i, path, sight)
    requires s2 == Absorb(env, results, Merging(env, results, pick, s, k), i, k)
    ensures Gathered(results, start, s2, i, path, sight)
    decreases Unmerged(results, s.merged), 1, 0
  {
    var s1 := Merging(env, results, pick, s, k);
    MergingGathers(env, results, pick, s, claim, k, path, sight);
    MergingKeeps(env, results, pick, s, claim, k);
    AbsorbShows(env, results, s1, claim, i, k, path, sight);
    GatheredNext(results, start, s, s1, s2, i, k, path, sight);
  }
}
