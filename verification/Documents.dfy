/**
 Raw documents and the deep merge of aria/utils/collections.py, as values.

 A document is what a YAML file is read into: nested dictionaries whose leaves are scalars and
 lists. The merge compares leaves but never looks inside them, so a leaf is one opaque token.
 DictMerge.dfy proves that the in-place merge of dictionary objects computes `Merge`.
 */
module Documents {
  import opened Wrappers

  datatype Raw = Leaf(token: string) | Dict(entries: map<string, Raw>)

  type Document = map<string, Raw>

  predicate BothDicts(x: Raw, y: Raw) {
    x.Dict? && y.Dict?
  }

  /** The right-biased deep merge: dictionaries are merged key by key, anything else is overridden. */
  function Merge(a: Document, b: Document): Document
    decreases Dict(b)
  {
    map k | k in a.Keys + b.Keys ::
      if k !in b then a[k]
      else if k in a && BothDicts(a[k], b[k]) then
        assert b[k] == Dict(b[k].entries);
        Dict(Merge(a[k].entries, b[k].entries))
      else b[k]
  }

  /** The value at a path of keys. */
  function Lookup(d: Document, path: seq<string>): Option<Raw>
    requires path != []
    decreases |path|
  {
    if path[0] !in d then None
    else if |path| == 1 then Some(d[path[0]])
    else if d[path[0]].Dict? then Lookup(d[path[0]].entries, path[1..])
    else None
  }

  /** `b` overrides `a` at or above `path`: somewhere on the way `b` has a value which is not merged. */
  predicate Overrides(a: Document, b: Document, path: seq<string>)
    requires path != []
    decreases |path|
  {
    && path[0] in b
    && (|| path[0] !in a
        || !BothDicts(a[path[0]], b[path[0]])
        || (|path| > 1 && Overrides(a[path[0]].entries, b[path[0]].entries, path[1..])))
  }

  /**
   What `Overrides` means for the two documents: some non-empty prefix of the path is in b and not a pair of
   dictionaries.
   */
  lemma {:induction false} OverridesByPrefix(a: Document, b: Document, path: seq<string>)
    requires path != []
    ensures Overrides(a, b, path) <==>
            exists n :: 0 < n <= |path| && Lookup(b, path[..n]).Some?
                        && !(Lookup(a, path[..n]).Some? && BothDicts(Lookup(a, path[..n]).value,
                                                                     Lookup(b, path[..n]).value))
    decreases |path|
  {
    var k := path[0];
    assert path[..1] == [k];
    if k in a && k in b && BothDicts(a[k], b[k]) {
      if |path| > 1 {
        var a', b', rest := a[k].entries, b[k].entries, path[1..];
        OverridesByPrefix(a', b', rest);
        forall n | 0 < n <= |rest|
          ensures Lookup(a, path[..n + 1]) == Lookup(a', rest[..n])
          ensures Lookup(b, path[..n + 1]) == Lookup(b', rest[..n])
        {
          assert path[..n + 1][1..] == rest[..n];
        }
        if Overrides(a, b, path) {
          var n :| 0 < n <= |rest| && Lookup(b', rest[..n]).Some?
                   && !(Lookup(a', rest[..n]).Some? && BothDicts(Lookup(a', rest[..n]).value,
                                                                 Lookup(b', rest[..n]).value));
          assert Lookup(b, path[..n + 1]).Some?;
        } else {
          forall n | 0 < n <= |path| && Lookup(b, path[..n]).Some?
            ensures Lookup(a, path[..n]).Some? && BothDicts(Lookup(a, path[..n]).value, Lookup(b, path[..n]).value)
          {
            if n > 1 {
              var m := n - 1;
              assert Lookup(b', rest[..m]).Some?;
            }
          }
        }
      }
    } else if k in b {
      assert Lookup(b, path[..1]).Some?;
    } else {
      forall n | 0 < n <= |path|
        ensures Lookup(b, path[..n]).None?
      {
        assert path[..n][0] == k;
      }
    }
  }

  /** Every path of the merge: b's value where b overrides, two merged dictionaries, or what a had. */
  lemma {:induction false} MergeLookup(a: Document, b: Document, path: seq<string>)
    requires path != []
    ensures Overrides(a, b, path) ==> Lookup(Merge(a, b), path) == Lookup(b, path)
    ensures !Overrides(a, b, path) && Lookup(b, path).Some? ==>
              && Lookup(a, path).Some? && BothDicts(Lookup(a, path).value, Lookup(b, path).value)
              && Lookup(Merge(a, b), path) == Some(Dict(Merge(Lookup(a, path).value.entries,
                                                              Lookup(b, path).value.entries)))
    ensures !Overrides(a, b, path) && Lookup(b, path).None? ==> Lookup(Merge(a, b), path) == Lookup(a, path)
    decreases |path|
  {
    var k := path[0];
    if k in a && k in b && BothDicts(a[k], b[k]) && |path| > 1 {
      MergeLookup(a[k].entries, b[k].entries, path[1..]);
    }
  }

  /** Every leaf path of b holds b's leaf in the merge. */
  lemma {:induction false} MergeKeepsLeavesOfSource(a: Document, b: Document, path: seq<string>)
    requires path != []
    requires Lookup(b, path).Some? && Lookup(b, path).value.Leaf?
    ensures Lookup(Merge(a, b), path) == Lookup(b, path)
  {
    MergeLookup(a, b, path);
  }

  /** Merging the same source a second time changes nothing. */
  lemma {:induction false} MergeIdempotent(a: Document, b: Document)
    ensures Merge(Merge(a, b), b) == Merge(a, b)
    decreases Dict(b)
  {
    forall k | k in b && k in a && BothDicts(a[k], b[k])
      ensures Merge(Merge(a[k].entries, b[k].entries), b[k].entries) == Merge(a[k].entries, b[k].entries)
    {
      assert b[k] == Dict(b[k].entries);
      MergeIdempotent(a[k].entries, b[k].entries);
    }
    forall k | k in b && !(k in a && BothDicts(a[k], b[k])) && b[k].Dict?
      ensures Merge(b[k].entries, b[k].entries) == b[k].entries
    {
      MergeSelf(b[k].entries);
    }
    assert Merge(Merge(a, b), b).Keys == Merge(a, b).Keys;
  }

  lemma {:induction false} MergeSelf(b: Document)
    ensures Merge(b, b) == b
    decreases Dict(b)
  {
    forall k | k in b && b[k].Dict?
      ensures Merge(b[k].entries, b[k].entries) == b[k].entries
    {
      assert b[k] == Dict(b[k].entries);
      MergeSelf(b[k].entries);
    }
  }

  /** All that x holds, y overrides: y has every key of x, and inside the dictionaries under a shared key again. */
  predicate Absorbs(y: Document, x: Document)
    decreases Dict(y)
  {
    && x.Keys <= y.Keys
    && forall k | k in x && BothDicts(x[k], y[k]) ::
         assert y[k] == Dict(y[k].entries); Absorbs(y[k].entries, x[k].entries)
  }

  /** Merging y into x gives y itself exactly when y absorbs x. */
  lemma {:induction false} MergeAbsorbs(x: Document, y: Document)
    ensures Merge(x, y) == y <==> Absorbs(y, x)
    decreases Dict(y)
  {
    forall k | k in x && k in y && BothDicts(x[k], y[k])
      ensures Merge(x, y)[k] == y[k] <==> Absorbs(y[k].entries, x[k].entries)
    {
      assert y[k] == Dict(y[k].entries);
      MergeAbsorbs(x[k].entries, y[k].entries);
    }
    assert Merge(x, y).Keys == x.Keys + y.Keys;
    if Merge(x, y) == y {
      assert forall k | k in x && BothDicts(x[k], y[k]) :: Merge(x, y)[k] == y[k];
    }
  }

  /**
   Grouping matters for three documents at a key where a and c hold dictionaries and b a leaf:
   grouped to the left the leaf wipes out a's dictionary, grouped to the right it is itself
   overridden. That makes a difference unless c's dictionary absorbs a's.
   */
  predicate GroupingMatters(a: Document, b: Document, c: Document)
    decreases Dict(c)
  {
    exists k | k in a.Keys * b.Keys * c.Keys ::
      && BothDicts(a[k], c[k])
      && (if b[k].Leaf? then !Absorbs(c[k].entries, a[k].entries)
          else assert c[k] == Dict(c[k].entries);
               GroupingMatters(a[k].entries, b[k].entries, c[k].entries))
  }

  /** The merge is associative exactly where the grouping does not matter. */
  lemma {:induction false} MergeAssociativeIff(a: Document, b: Document, c: Document)
    ensures Merge(Merge(a, b), c) == Merge(a, Merge(b, c)) <==> !GroupingMatters(a, b, c)
    decreases Dict(c)
  {
    var left, right := Merge(Merge(a, b), c), Merge(a, Merge(b, c));
    assert left.Keys == right.Keys == a.Keys + b.Keys + c.Keys;
    forall k | k in left
      ensures left[k] == right[k] <==>
              !(k in a.Keys * b.Keys * c.Keys && BothDicts(a[k], c[k])
                && (if b[k].Leaf? then !Absorbs(c[k].entries, a[k].entries)
                    else GroupingMatters(a[k].entries, b[k].entries, c[k].entries)))
    {
      if k in a.Keys * b.Keys * c.Keys && BothDicts(a[k], c[k]) {
        if b[k].Dict? {
          assert c[k] == Dict(c[k].entries);
          MergeAssociativeIff(a[k].entries, b[k].entries, c[k].entries);
        } else {
          MergeAbsorbs(a[k].entries, c[k].entries);
        }
      }
    }
    if left == right {
      assert forall k | k in left :: left[k] == right[k];
    } else {
      var k :| k in left && left[k] != right[k];
    }
  }

  /** An input on which grouping matters: a leaf between dictionaries with different keys. */
  lemma LeafBetweenDicts()
    ensures var a, b, c := map["k" := Dict(map["x" := Leaf("1")])], map["k" := Leaf("2")],
            map["k" := Dict(map["y" := Leaf("3")])];
            && Merge(Merge(a, b), c) == c
            && Merge(a, Merge(b, c)) == map["k" := Dict(map["x" := Leaf("1"), "y" := Leaf("3")])]
            && c != map["k" := Dict(map["x" := Leaf("1"), "y" := Leaf("3")])]
  {
    var x, y := map["x" := Leaf("1")], map["y" := Leaf("3")];
    var a, b, c := map["k" := Dict(x)], map["k" := Leaf("2")], map["k" := Dict(y)];
    assert Merge(a, b) == b && Merge(b, c) == c;
    assert Merge(x, y) == map["x" := Leaf("1"), "y" := Leaf("3")];
    assert Merge(a, c) == map["k" := Dict(Merge(x, y))];
    assert "x" !in c["k"].entries;
  }

  /** No path is a dictionary in one document and a leaf in the other. */
  predicate SameKinds(a: Document, b: Document)
    decreases Dict(b)
  {
    forall k | k in a.Keys * b.Keys ::
      && a[k].Dict? == b[k].Dict?
      && (a[k].Dict? ==> assert b[k] == Dict(b[k].entries); SameKinds(a[k].entries, b[k].entries))
  }

  lemma {:induction false} MergeAssociative(a: Document, b: Document, c: Document)
    requires SameKinds(a, b) && SameKinds(b, c)
    ensures Merge(Merge(a, b), c) == Merge(a, Merge(b, c))
    decreases Dict(c)
  {
    MergeAssociativeIff(a, b, c);
    SameKindsGrouping(a, b, c);
  }

  lemma {:induction false} SameKindsGrouping(a: Document, b: Document, c: Document)
    requires SameKinds(a, b) && SameKinds(b, c)
    ensures !GroupingMatters(a, b, c)
    decreases Dict(c)
  {
    forall k | k in a.Keys * b.Keys * c.Keys && BothDicts(a[k], c[k])
      ensures b[k].Dict? && !GroupingMatters(a[k].entries, b[k].entries, c[k].entries)
    {
      assert c[k] == Dict(c[k].entries);
      SameKindsGrouping(a[k].entries, b[k].entries, c[k].entries);
    }
  }

  /** What strict mode rejects: a shared key with two different values which are not both dictionaries. */
  predicate Conflict(a: Document, b: Document)
    decreases Dict(b)
  {
    exists k | k in a.Keys * b.Keys :: ConflictAt(a, b, k)
  }

  predicate ConflictAt(a: Document, b: Document, k: string)
    requires k in a && k in b
    decreases Dict(b), 0
  {
    if BothDicts(a[k], b[k]) then assert b[k] == Dict(b[k].entries); Conflict(a[k].entries, b[k].entries)
    else a[k] != b[k]
  }

  /** A conflict is a shared path with unequal values that are not both dictionaries. */
  lemma {:induction false} ConflictByPath(a: Document, b: Document)
    ensures Conflict(a, b) <==>
            exists path: seq<string> | path != [] ::
              && Lookup(a, path).Some? && Lookup(b, path).Some?
              && !BothDicts(Lookup(a, path).value, Lookup(b, path).value)
              && Lookup(a, path) != Lookup(b, path)
    decreases Dict(b)
  {
    if Conflict(a, b) {
      var path := ConflictPath(a, b);
    }
    forall path: seq<string> |
      && path != [] && Lookup(a, path).Some? && Lookup(b, path).Some?
      && !BothDicts(Lookup(a, path).value, Lookup(b, path).value) && Lookup(a, path) != Lookup(b, path)
      ensures Conflict(a, b)
    {
      PathConflict(a, b, path);
    }
  }

  lemma {:induction false} ConflictPath(a: Document, b: Document) returns (path: seq<string>)
    requires Conflict(a, b)
    ensures path != [] && Lookup(a, path).Some? && Lookup(b, path).Some?
    ensures !BothDicts(Lookup(a, path).value, Lookup(b, path).value) && Lookup(a, path) != Lookup(b, path)
    decreases Dict(b)
  {
    var k :| k in a.Keys * b.Keys && ConflictAt(a, b, k);
    if BothDicts(a[k], b[k]) {
      assert b[k] == Dict(b[k].entries);
      var rest := ConflictPath(a[k].entries, b[k].entries);
      path := [k] + rest;
    } else {
      path := [k];
    }
  }

  lemma {:induction false} PathConflict(a: Document, b: Document, path: seq<string>)
    requires path != [] && Lookup(a, path).Some? && Lookup(b, path).Some?
    requires !BothDicts(Lookup(a, path).value, Lookup(b, path).value) && Lookup(a, path) != Lookup(b, path)
    ensures Conflict(a, b)
    decreases |path|
  {
    var k := path[0];
    if |path| > 1 {
      PathConflict(a[k].entries, b[k].entries, path[1..]);
    }
    assert ConflictAt(a, b, k);
  }
}
