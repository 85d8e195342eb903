/**
 The merge of a read's results in place: the raw document of each presentation is a dictionary object,
 flags are set on the results, and the merged presentations are put in PRESENTATION_CACHE
 (aria/parser/consumption/presentation.py). Proved to compute what ResultMerge.dfy specifies.
 */
module PresentationMerge {
  import opened Wrappers
  import opened Documents
  import opened DictMerge
  import opened ImportGraph
  import opened ResultMerge

  /** The raw documents of the presentations are trees that share no object; all their objects are in `repr`. */
  ghost predicate AllValid(dicts: map<Presentation, PyDict>, repr: set<object>)
    reads repr
  {
    && (forall p {:trigger ValidAt(dicts, repr, p)} | p in dicts :: ValidAt(dicts, repr, p))
    && (forall p, q {:trigger ApartAt(dicts, repr, p, q)} | p in dicts && q in dicts && p != q ::
        ApartAt(dicts, repr, p, q))
  }

  ghost predicate ValidAt(dicts: map<Presentation, PyDict>, repr: set<object>, p: Presentation)
    requires p in dicts
    reads repr
  {
    dicts[p] in repr && dicts[p].repr <= repr && dicts[p].Valid()
  }

  ghost predicate ApartAt(dicts: map<Presentation, PyDict>, repr: set<object>, p: Presentation, q: Presentation)
    requires p in dicts && q in dicts
    reads repr
  {
    dicts[p] in repr && dicts[q] in repr && dicts[p].repr !! dicts[q].repr
  }

  /** The documents that they stand for. */
  ghost predicate StandFor(dicts: map<Presentation, PyDict>, raws: map<Presentation, Content>)
    reads dicts.Values
  {
    forall p {:trigger StandsFor(dicts, raws, p)} | p in dicts :: StandsFor(dicts, raws, p)
  }

  ghost predicate StandsFor(dicts: map<Presentation, PyDict>, raws: map<Presentation, Content>, p: Presentation)
    requires p in dicts
    reads dicts[p]
  {
    p in raws && raws[p].entries == dicts[p].doc
  }

  /** The raw document of one presentation is merged into that of another; all others stay as they are. */
  method MergeInto(dicts: map<Presentation, PyDict>, mine: Presentation, theirs: Presentation,
          ghost raws: map<Presentation, Content>,
                   ghost repr: set<object>) returns (ghost repr': set<object>)
    requires AllValid(dicts, repr) && mine in dicts && theirs in dicts && mine != theirs && StandFor(dicts, raws)
    requires mine in raws && theirs in raws
    modifies if ValidAt(dicts, repr, mine) then dicts[mine].repr else {}
    ensures AllValid(dicts, repr') && repr <= repr' && fresh(repr' - repr)
    ensures StandFor(dicts, raws[mine := Content(Merge(raws[mine].entries, raws[theirs].entries))])
  {
    assert ValidAt(dicts, repr, mine) && ValidAt(dicts, repr, theirs) && ApartAt(dicts, repr, mine, theirs);
    assert StandsFor(dicts, raws, mine) && StandsFor(dicts, raws, theirs);
    var _ := dicts[mine].MergeFrom(dicts[theirs], false);
    repr' := repr + dicts[mine].repr;
    forall p | p in dicts
      ensures ValidAt(dicts, repr', p)
      ensures p != mine ==> dicts[p].doc == old(dicts[p].doc) && dicts[p].repr == old(dicts[p].repr)
    {
      if p != mine {
        assert old(ValidAt(dicts, repr, p)) && old(ApartAt(dicts, repr, p, mine));
      }
    }
    forall p, q | p in dicts && q in dicts && p != q
      ensures ApartAt(dicts, repr', p, q)
    {
      assert ValidAt(dicts, repr', p) && ValidAt(dicts, repr', q);
      assert old(ApartAt(dicts, repr, p, q));
    }
    ghost var raws' := raws[mine := Content(Merge(raws[mine].entries, raws[theirs].entries))];
    forall p | p in dicts
      ensures StandsFor(dicts, raws', p)
    {
      assert old(StandsFor(dicts, raws, p));
    }
  }

  /** Self imports have been skipped, so a result and an import of it have different presentations. */
  predicate NoSelfImports(results: seq<Result>) {
    forall i, k {:trigger Distinct(results, i, k)} | 0 <= i < |results| && 0 <= k < |results| :: Distinct(results, i, k)
  }

  predicate Distinct(results: seq<Result>, i: nat, k: nat)
    requires i < |results| && k < |results|
  {
    results[k].origin == Some(results[i].loc) ==> results[k].presentation != results[i].presentation
  }

  lemma CompleteIsDistinct(env: Env, hits: set<Loc>, results: seq<Result>)
    requires Complete(env, hits, results)
    ensures NoSelfImports(results)
  {
    forall i, k | 0 <= i < |results| && 0 <= k < |results|
      ensures Distinct(results, i, k)
    {
      if results[k].origin == Some(results[i].loc) {
        assert CompleteAt(env, hits, results, i);
        LocsFromHas(results, k, results[i].loc);
        DedupMembers(LocsFrom(results, results[i].loc), results[k].loc);
        ImportsAreImportable(env, results[i].loc, results[k].loc);
      }
    }
  }

  lemma {:induction false} LocsFromHas(results: seq<Result>, k: nat, origin: Loc)
    requires k < |results| && results[k].origin == Some(origin)
    ensures results[k].loc in LocsFrom(results, origin)
  {
    if k < |results| - 1 {
      LocsFromHas(results[..|results| - 1], k, origin);
    }
  }

  /** The results of one read while they are merged: documents and flags are updated in place. */
  class Merger {
    const env: Env
    const results: seq<Result>
    const dicts: map<Presentation, PyDict>
    var merged: set<nat>
    ghost var loops: seq<Presentation>
    /** What the dictionaries stand for, and the objects that they reach. */
    ghost var raws: map<Presentation, Content>
    ghost var repr: set<object>

    ghost function Contents(): MergeState
      reads this
    {
      MergeState(raws, merged, loops)
    }

    ghost predicate Valid()
      reads this, repr, dicts.Values
    {
      && this !in repr && AllValid(dicts, repr) && StandFor(dicts, raws)
      && NoSelfImports(results) && Fits(results, Contents())
      && forall j {:trigger HasDict(j)} | 0 <= j < |results| :: HasDict(j)
    }

    predicate HasDict(j: nat)
      requires j < |results|
    {
      results[j].presentation in dicts
    }

    constructor (env: Env, results: seq<Result>, dicts: map<Presentation, PyDict>,
            ghost raws: map<Presentation, Content>,
                 ghost repr: set<object>)
      requires AllValid(dicts, repr) && StandFor(dicts, raws) && NoSelfImports(results)
               && forall j | 0 <= j < |results| :: results[j].presentation in dicts && results[j].presentation in raws
      ensures this.env == env && this.results == results && this.dicts == dicts
      ensures Valid() && Contents() == Start(results, raws) && this.repr == repr
    {
      this.env, this.results, this.dicts := env, results, dicts;
      this.merged, this.loops, this.raws, this.repr := {}, [], raws, repr;
    }

    /** The document of a result. */
    method Document(i: nat) returns (x: Content)
      requires Valid() && i < |results|
      ensures x == Contents().raws[results[i].presentation]
    {
      var p := results[i].presentation;
      assert HasDict(i) && ValidAt(dicts, repr, p) && StandsFor(dicts, raws, p);
      var d := dicts[p].Read();
      x := Content(d);
    }

    /** Puts the documents of the merged results in the cache. */
    method CacheMerged(cache: map<Loc, Content>) returns (cache': map<Loc, Content>)
      requires Valid()
      ensures cache' == CachedUpTo(results, Contents(), cache, |results|)
    {
      cache' := cache;
      for j := 0 to |results|
        invariant cache' == CachedUpTo(results, Contents(), cache, j)
      {
        if j in merged {
          var document := Document(j);
          cache' := cache'[results[j].loc := document];
        }
      }
    }

    method GetImports(i: nat) returns (imports: seq<nat>)
      requires i < |results|
      ensures imports == Selected(results)(results[i].loc)
    {
      imports := [];
      for n := 0 to |results|
        invariant imports == ImportIndices(results, results[i].loc, n)
      {
        if results[n].origin == Some(results[i].loc) {
          var seen := HasImport(imports, results[n].loc);
          if !seen {
            imports := imports + [n];
          }
        }
      }
    }

    method HasImport(imports: seq<nat>, loc: Loc) returns (found: bool)
      requires forall k | 0 <= k < |imports| :: imports[k] < |results|
      ensures found <==> loc in LocsAt(results, imports)
    {
      ghost var locs := LocsAt(results, imports);
      for k := 0 to |imports|
        invariant loc !in locs[..k]
      {
        if results[imports[k]].loc == loc {
          assert locs[k] == loc;
          return true;
        }
      }
      assert locs[..|imports|] == locs;
      return false;
    }

    method MergeResult(i: nat)
      requires Valid() && i < |results|
      modifies this, repr
      ensures Valid() && fresh(repr - old(repr))
      ensures Contents() == Merging(env, results, Selected(results), old(Contents()), i)
      decreases Unmerged(results, merged), 0
    {
      if i !in merged {
        Mark(i);
        MergeImports(i);
      }
    }

    /** The loop over the imports. */
    method MergeImports(i: nat)
      requires Valid() && i < |results|
      modifies this, repr
      ensures Valid() && fresh(repr - old(repr))
      ensures Contents() == MergingImports(env, results, Selected(results), old(Contents()), i,
                                           |Selected(results)(results[i].loc)|)
      decreases Unmerged(results, merged), 3
    {
      var imports := GetImports(i);
      ghost var start := Contents();
      for n := 0 to |imports|
        invariant Valid() && fresh(repr - old(repr)) && old(merged) <= merged
        invariant Contents() == MergingImports(env, results, Selected(results), start, i, n)
      {
        MergeNext(i, imports[n], start, n);
      }
    }

    /** One round takes the specification of the loop one round further. */
    method MergeNext(i: nat, k: nat, ghost start: MergeState, ghost n: nat)
      requires Valid() && i < |results| && Fits(results, start) && n < |Selected(results)(results[i].loc)|
      requires k == Selected(results)(results[i].loc)[n]
      requires Contents() == MergingImports(env, results, Selected(results), start, i, n)
      modifies this, repr
      ensures Valid() && fresh(repr - old(repr)) && old(merged) <= merged
      ensures Contents() == MergingImports(env, results, Selected(results), start, i, n + 1)
      decreases Unmerged(results, merged), 2
    {
      MergingRound(env, results, Selected(results), start, i, n);
      MergeImport(i, k);
    }

    /** One round of the loop: makes sure that the import is merged, then merges it into result i. */
    method MergeImport(i: nat, k: nat)
      requires Valid() && i < |results| && k < |results| && results[k].origin == Some(results[i].loc)
      modifies this, repr
      ensures Valid() && fresh(repr - old(repr))
      ensures Contents() == Absorb(env, results, Merging(env, results, Selected(results), old(Contents()), k), i, k)
      decreases Unmerged(results, merged), 1
    {
      MergeResult(k);
      AbsorbResult(i, k);
    }

    /** Merges the document of the import; those of all other presentations stay as they are. */
    method AbsorbDocument(mine: Presentation, theirs: Presentation)
      requires Valid() && mine in dicts && theirs in dicts && mine in raws && theirs in raws && mine != theirs
      modifies this`raws, this`repr, repr
      ensures Valid() && fresh(repr - old(repr))
      ensures merged == old(merged) && loops == old(loops)
      ensures raws == old(raws)[mine := Content(Merge(old(raws)[mine].entries, old(raws)[theirs].entries))]
    {
      repr := MergeInto(dicts, mine, theirs, raws, repr);
      raws := raws[mine := Content(Merge(raws[mine].entries, raws[theirs].entries))];
    }

    /** Validates the import and merges its document. */
    method AbsorbResult(i: nat, k: nat)
      requires Valid() && i < |results| && k < |results| && results[k].origin == Some(results[i].loc)
      modifies this`raws, this`repr, repr
      ensures Valid() && fresh(repr - old(repr))
      ensures merged == old(merged) && loops == old(loops)
      ensures Contents() == Absorb(env, results, old(Contents()), i, k)
    {
      var mine, theirs := results[i].presentation, results[k].presentation;
      assert HasDict(i) && HasDict(k) && Distinct(results, i, k);
      assert ValidAt(dicts, repr, theirs) && StandsFor(dicts, raws, theirs);
      var imported := dicts[theirs].Read();
      if env.accepts(ClassOf(env, results[i]), Content(imported)) {
        AbsorbDocument(mine, theirs);
      } else {
        assert raws == raws[mine := raws[mine]];
      }
    }

    method Mark(i: nat)
      requires Valid() && i < |results| && i !in merged
      modifies this`merged, this`loops
      ensures Valid() && Contents() == Enter(results, old(Contents()), i)
    {
      for n := 0 to |results|
        invariant merged == old(merged) + (set j: nat | j < n && results[j].presentation == results[i].presentation)
        invariant loops == old(loops)
      {
        if results[n].presentation == results[i].presentation {
          merged := merged + {n};
        }
      }
      loops := loops + [results[i].presentation];
    }
  }

  /** A dictionary object for each presentation. */
  method WriteAll(raws: map<Presentation, Content>) returns (dicts: map<Presentation, PyDict>, ghost repr: set<object>)
    ensures AllValid(dicts, repr) && fresh(repr) && StandFor(dicts, raws) && dicts.Keys == raws.Keys
  {
    dicts, repr := map[], {};
    var todo := raws.Keys;
    while todo != {}
      invariant AllValid(dicts, repr) && fresh(repr) && StandFor(dicts, raws)
      invariant todo <= raws.Keys && dicts.Keys == raws.Keys - todo
      decreases todo
    {
      var p :| p in todo;
      var dict := PyDict.Write(raws[p].entries);
      Added(dicts, repr, p, dict);
      AddedStands(dicts, raws, p, dict);
      dicts, repr, todo := dicts[p := dict], repr + dict.repr, todo - {p};
    }
  }

  lemma Added(dicts: map<Presentation, PyDict>, repr: set<object>, p: Presentation, dict: PyDict)
    requires AllValid(dicts, repr) && p !in dicts && dict.Valid() && dict.repr !! repr
    ensures AllValid(dicts[p := dict], repr + dict.repr)
  {
    var more, repr' := dicts[p := dict], repr + dict.repr;
    forall q | q in more
      ensures ValidAt(more, repr', q)
    {
      assert q != p ==> ValidAt(dicts, repr, q);
    }
    forall q, r | q in more && r in more && q != r
      ensures ApartAt(more, repr', q, r)
    {
      assert q != p ==> ValidAt(dicts, repr, q);
      assert r != p ==> ValidAt(dicts, repr, r);
      assert q != p && r != p ==> ApartAt(dicts, repr, q, r);
    }
  }

  lemma AddedStands(dicts: map<Presentation, PyDict>, raws: map<Presentation, Content>, p: Presentation, dict: PyDict)
    requires StandFor(dicts, raws) && p in raws && dict.doc == raws[p].entries
    ensures StandFor(dicts[p := dict], raws)
  {
    var more := dicts[p := dict];
    forall q | q in more
      ensures StandsFor(more, raws, q)
    {
      assert q != p ==> StandsFor(dicts, raws, q);
    }
  }

  /**
   The end of `Read.consume`: merges the results into the main document and, if caching is on, puts
   the merged presentations in the cache.
   */
  method Consume(env: Env, results: seq<Result>, raws: map<Presentation, Content>, cache: map<Loc, Content>,
          caching: bool)
    returns (main: Content, cache': map<Loc, Content>)
    requires results != [] && NoSelfImports(results) && forall j | 0 <= j < |results| :: results[j].presentation in raws
    requires !caching ==> cache == map[]
    ensures main == MergeAll(env, results, raws).raws[results[0].presentation]
    ensures caching ==> cache' == CachedUpTo(results, MergeAll(env, results, raws), cache, |results|)
    ensures !caching ==> cache' == cache
  {
    var dicts, repr := WriteAll(raws);
    var merger := new Merger(env, results, dicts, raws, repr);
    merger.MergeResult(0);
    main := merger.Document(0);
    cache' := cache;
    if caching {
      cache' := merger.CacheMerged(cache);
    }
  }
}
