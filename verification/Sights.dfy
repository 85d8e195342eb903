/**
 What a document shows at a path: nothing, a leaf, or a dictionary. Merging documents makes nothing
 up, and it loses nothing at a path that no document disputes.
 */
module Sights {
  import opened Documents

  datatype Sight = Nothing | ALeaf(token: string) | ADict

  function SightOf(x: Raw): Sight {
    match x
    case Leaf(token) => ALeaf(token)
    case Dict(_) => ADict
  }

  function See(d: Document, path: seq<string>): Sight
    requires path != []
  {
    match Lookup(d, path)
    case None => Nothing
    case Some(x) => SightOf(x)
  }

  /** The document has no leaf on the way to the path. */
  predicate Clear(d: Document, path: seq<string>)
    requires path != []
    decreases |path|
  {
    |path| > 1 && path[0] in d ==> d[path[0]].Dict? && Clear(d[path[0]].entries, path[1..])
  }

  /** What that means for the prefixes of the path. */
  lemma {:induction false} ClearMeans(d: Document, path: seq<string>)
    requires path != []
    ensures Clear(d, path) <==> forall n | 0 < n < |path| :: !See(d, path[..n]).ALeaf?
    decreases |path|
  {
    var k := path[0];
    if k !in d {
      forall n | 0 < n < |path|
        ensures See(d, path[..n]) == Nothing
      {
        assert path[..n][0] == k;
      }
    } else if |path| > 1 {
      assert path[..1] == [k];
      if d[k].Dict? {
        var inner, rest := d[k].entries, path[1..];
        ClearMeans(inner, rest);
        forall n | 0 < n < |rest|
          ensures See(d, path[..n + 1]) == See(inner, rest[..n])
        {
          assert path[..n + 1][1..] == rest[..n];
        }
        if forall n | 0 < n < |path| :: !See(d, path[..n]).ALeaf? {
          forall n | 0 < n < |rest|
            ensures !See(inner, rest[..n]).ALeaf?
          {
            assert !See(d, path[..n + 1]).ALeaf?;
          }
        }
        if Clear(d, path) {
          forall n | 0 < n < |path|
            ensures !See(d, path[..n]).ALeaf?
          {
            if n > 1 {
              var m := n - 1;
              assert !See(inner, rest[..m]).ALeaf?;
            }
          }
        }
      } else {
        assert See(d, path[..1]).ALeaf?;
      }
    }
  }

  /** The document does not dispute that this is what the path shows: it shows the same, or it leaves the path open. */
  predicate Agrees(d: Document, path: seq<string>, sight: Sight)
    requires path != []
  {
    Clear(d, path) && See(d, path) in {Nothing, sight}
  }

  /** The later of two sights, if it is one at all. */
  function Last(earlier: Sight, later: Sight): Sight {
    if later == Nothing then earlier else later
  }

  /**
   Where neither document has a leaf on the way, the merge shows what the source shows, or else what the target
   did.
   */
  lemma {:induction false} MergeLast(a: Document, b: Document, path: seq<string>)
    requires path != [] && Clear(a, path) && Clear(b, path)
    ensures Clear(Merge(a, b), path) && See(Merge(a, b), path) == Last(See(a, path), See(b, path))
    decreases |path|
  {
    var k := path[0];
    if |path| > 1 && k in a && k in b {
      MergeLast(a[k].entries, b[k].entries, path[1..]);
    }
  }

  /** The merge shows at every path what one of the two documents shows. */
  lemma MergeSees(a: Document, b: Document, path: seq<string>)
    requires path != []
    ensures See(Merge(a, b), path) in {See(a, path), See(b, path)}
  {
    MergeLookup(a, b, path);
  }

  /** At a path that neither disputes, it shows what is to be seen if one of them does. */
  lemma MergeShows(a: Document, b: Document, path: seq<string>, sight: Sight)
    requires path != [] && sight != Nothing
    requires Agrees(a, path, sight) && Agrees(b, path, sight)
    ensures Agrees(Merge(a, b), path, sight)
    ensures See(Merge(a, b), path) == sight <==> See(a, path) == sight || See(b, path) == sight
  {
    MergeLast(a, b, path);
  }

  /** Documents that show the same at every path are the same. */
  lemma {:induction false} SameSights(a: Document, b: Document)
    requires forall path: seq<string> | path != [] :: See(a, path) == See(b, path)
    ensures a == b
    decreases Dict(a)
  {
    forall k
      ensures k in a <==> k in b
      ensures k in a && k in b ==> a[k] == b[k]
    {
      assert See(a, [k]) == See(b, [k]);
      if k in a && a[k].Dict? {
        var x, y := a[k].entries, b[k].entries;
        assert a[k] == Dict(x);
        forall path: seq<string> | path != []
          ensures See(x, path) == See(y, path)
        {
          var longer := [k] + path;
          assert longer[1..] == path;
          assert See(a, longer) == See(b, longer);
        }
        SameSights(x, y);
      }
    }
  }

  // ----- All that a document shows on the way to a path

  /** What the document shows at each prefix of the path, the path itself last. */
  function View(d: Document, path: seq<string>): (view: seq<Sight>)
    ensures |view| == |path|
    decreases |path|
  {
    if path == [] then []
    else if path[0] !in d then seq(|path|, _ => Nothing)
    else
      match d[path[0]]
      case Leaf(token) => [ALeaf(token)] + seq(|path| - 1, _ => Nothing)
      case Dict(entries) => [ADict] + View(entries, path[1..])
  }

  lemma {:induction false} ViewSees(d: Document, path: seq<string>, n: nat)
    requires n < |path|
    ensures View(d, path)[n] == See(d, path[..n + 1])
    decreases |path|
  {
    var k := path[0];
    assert path[..n + 1][0] == k && path[..n + 1][1..] == path[1..][..n];
    if n > 0 && k in d && d[k].Dict? {
      ViewSees(d[k].entries, path[1..], n - 1);
    }
  }

  /** The view ends in the sight at the path itself. */
  lemma ViewEndsInSight(d: Document, path: seq<string>)
    requires path != []
    ensures View(d, path)[|path| - 1] == See(d, path)
  {
    ViewSees(d, path, |path| - 1);
    assert path[..|path|] == path;
  }

  /** Below a leaf, or below nothing, there is nothing. */
  predicate Proper(view: seq<Sight>) {
    forall m, n | 0 <= m < n < |view| && view[m] != ADict :: view[n] == Nothing
  }

  lemma {:induction false} ViewIsProper(d: Document, path: seq<string>)
    ensures Proper(View(d, path))
    decreases |path|
  {
    if path != [] && path[0] in d && d[path[0]].Dict? {
      ViewIsProper(d[path[0]].entries, path[1..]);
    }
  }

  /**
   What is seen once the second view is merged into the first: it overrides, except dictionaries with
   dictionaries.
   */
  function Combine(x: seq<Sight>, y: seq<Sight>): seq<Sight> {
    if x == [] || y == [] || y[0] == Nothing then x
    else if x[0] == ADict && y[0] == ADict then [ADict] + Combine(x[1..], y[1..])
    else y
  }

  lemma {:induction false} MergeView(a: Document, b: Document, path: seq<string>)
    ensures View(Merge(a, b), path) == Combine(View(a, path), View(b, path))
    decreases |path|
  {
    if path != [] && path[0] in a && path[0] in b && BothDicts(a[path[0]], b[path[0]]) {
      MergeView(a[path[0]].entries, b[path[0]].entries, path[1..]);
    }
  }

  /** The view shows nothing but what the other does. */
  predicate AtMost(x: seq<Sight>, most: seq<Sight>) {
    |x| == |most| && forall n | 0 <= n < |x| :: x[n] in {Nothing, most[n]}
  }

  lemma {:induction false} CombineAtMost(x: seq<Sight>, y: seq<Sight>, most: seq<Sight>)
    requires AtMost(x, most) && AtMost(y, most)
    ensures AtMost(Combine(x, y), most)
  {
    if x != [] {
      assert forall n | 0 <= n < |x| - 1 ::
               x[1..][n] == x[n + 1] && y[1..][n] == y[n + 1] && most[1..][n] == most[n + 1];
      CombineAtMost(x[1..], y[1..], most[1..]);
    }
  }

  /** A view that shows all of it is not changed by one that shows nothing else. */
  lemma {:induction false} CombineWithLess(x: seq<Sight>, y: seq<Sight>)
    requires AtMost(y, x) && Proper(x) && Proper(y)
    ensures Combine(x, y) == x
  {
    if x != [] && y[0] != Nothing {
      if x[0] == ADict {
        assert forall n | 0 <= n < |x| - 1 :: x[1..][n] == x[n + 1] && y[1..][n] == y[n + 1];
        CombineWithLess(x[1..], y[1..]);
      } else {
        assert y == x;
      }
    }
  }

  /** Below a leaf a document shows nothing. */
  lemma LeafEnds(d: Document, path: seq<string>, n: nat)
    requires 0 < n < |path| && See(d, path[..n]).ALeaf?
    ensures See(d, path) == Nothing
  {
    ViewSees(d, path, n - 1);
    ViewEndsInSight(d, path);
    ViewIsProper(d, path);
  }

  // ----- Where dictionaries on the way do not matter

  /** None of the first prefixes is a leaf. */
  predicate Unblocked(view: seq<Sight>, open: nat) {
    forall n | 0 <= n < open && n < |view| :: !view[n].ALeaf?
  }

  /** Then what is combined behind them does not depend on them. */
  lemma {:induction false} CombineBehind(x: seq<Sight>, y: seq<Sight>, open: nat)
    requires open <= |x| == |y| && Proper(x) && Proper(y) && Unblocked(x, open) && Unblocked(y, open)
    ensures |Combine(x, y)| == |x| && Unblocked(Combine(x, y), open)
    ensures Combine(x, y)[open..] == Combine(x[open..], y[open..])
  {
    CombineLength(x, y);
    if open > 0 {
      if y[0] == Nothing {
        assert forall n | open <= n < |y| :: y[n] == Nothing;
      } else if x[0] == Nothing {
        assert forall n | open <= n < |x| :: x[n] == Nothing;
        assert y[open..] == [] || y[open] != Nothing || forall n | open <= n < |y| :: y[n] == Nothing;
      } else {
        var x', y' := x[1..], y[1..];
        assert forall n | 0 <= n < |x'| :: x'[n] == x[n + 1] && y'[n] == y[n + 1];
        CombineBehind(x', y', open - 1);
        assert x'[open - 1..] == x[open..] && y'[open - 1..] == y[open..];
        assert Combine(x, y)[open..] == Combine(x', y')[open - 1..];
      }
    }
  }

  lemma {:induction false} CombineLength(x: seq<Sight>, y: seq<Sight>)
    requires |x| == |y|
    ensures |Combine(x, y)| == |x|
  {
    if x != [] {
      CombineLength(x[1..], y[1..]);
    }
  }

  /** What a document shows on the way to the path behind the first prefixes. */
  function Watch(d: Document, path: seq<string>, open: nat): seq<Sight> {
    if open <= |path| then View(d, path)[open..] else []
  }

  lemma MergeWatch(a: Document, b: Document, path: seq<string>, open: nat)
    requires open <= |path| && Unblocked(View(a, path), open) && Unblocked(View(b, path), open)
    ensures Unblocked(View(Merge(a, b), path), open)
    ensures Watch(Merge(a, b), path, open) == Combine(Watch(a, path, open), Watch(b, path, open))
  {
    MergeView(a, b, path);
    ViewIsProper(a, path);
    ViewIsProper(b, path);
    CombineBehind(View(a, path), View(b, path), open);
  }

  lemma WatchIsProper(d: Document, path: seq<string>, open: nat)
    ensures Proper(Watch(d, path, open))
  {
    ViewIsProper(d, path);
  }

  lemma WatchEndsInSight(d: Document, path: seq<string>, open: nat)
    requires open < |path|
    ensures |Watch(d, path, open)| == |path| - open && Watch(d, path, open)[|path| - open - 1] == See(d, path)
  {
    ViewEndsInSight(d, path);
  }

  /** A document without a leaf on the way: all that is to be watched is the path itself. */
  lemma ClearIsUnblocked(d: Document, path: seq<string>)
    requires path != [] && Clear(d, path)
    ensures Unblocked(View(d, path), |path| - 1) && Watch(d, path, |path| - 1) == [See(d, path)]
  {
    ClearMeans(d, path);
    forall n | 0 <= n < |path| - 1
      ensures !View(d, path)[n].ALeaf?
    {
      ViewSees(d, path, n);
    }
    ViewEndsInSight(d, path);
  }
}
