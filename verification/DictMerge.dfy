/**
 The in-place merge of aria/utils/collections.py on dictionary objects.

 A `PyDict` is a Python dictionary: an object whose entries are updated in place and whose values
 may be other dictionary objects. `doc` is the document it stands for and `repr` the objects it
 reaches (or reached before an entry was overridden). A valid dictionary is a tree.
 */
module DictMerge {
  import opened Documents

  datatype Value = Scalar(token: string) | Object(dict: PyDict)

  class PyDict {
    var entries: map<string, Value>
    ghost var doc: Document
    ghost var repr: set<object>

    /** The object is a tree of dictionaries that stands for `doc`. */
    ghost predicate Valid()
      reads this, repr
      decreases repr, 1
    {
      && this in repr
      && entries.Keys == doc.Keys
      && (forall k | k in entries :: EntryValid(k))
      && (forall j, k | j in entries && k in entries && j != k :: Separate(entries[j], entries[k]))
    }

    /** The entry under a key stands for the value of `doc`, and its objects do not include this one. */
    ghost predicate EntryValid(k: string)
      requires this in repr && k in entries && entries.Keys == doc.Keys
      reads this, repr
      decreases repr, 0
    {
      match entries[k]
      case Scalar(token) => doc[k] == Leaf(token)
      case Object(d) =>
        && d in repr && d.repr <= repr && this !in d.repr
        && d.Valid() && doc[k] == Dict(d.doc)
    }

    /** Two values share no dictionary object. */
    static ghost predicate Separate(x: Value, y: Value)
      reads if x.Object? then {x.dict} else {}, if y.Object? then {y.dict} else {}
    {
      x.Object? && y.Object? ==> x.dict.repr !! y.dict.repr
    }

    constructor ()
      ensures Valid() && fresh(repr)
      ensures entries == map[] && doc == map[]
    {
      entries, doc, repr := map[], map[], {this};
    }

    /** Stores a value under a key; a dictionary value must not be part of this one yet. */
    method Store(key: string, value: Value)
      requires Valid()
      requires value.Object? ==> value.dict.Valid() && value.dict.repr !! repr
      modifies this
      ensures Valid()
      ensures repr == old(repr) + (if value.Object? then value.dict.repr else {})
      ensures value.Scalar? ==> doc == old(doc)[key := Leaf(value.token)]
      ensures value.Object? ==> doc == old(doc)[key := Dict(value.dict.doc)]
      ensures entries == old(entries)[key := value]
    {
      match value {
        case Scalar(token) => StoreScalar(key, token);
        case Object(d) => StoreObject(key, d);
      }
    }

    method StoreScalar(key: string, token: string)
      requires Valid()
      modifies this`entries, this`doc
      ensures Valid()
      ensures doc == old(doc)[key := Leaf(token)] && entries == old(entries)[key := Scalar(token)]
    {
      entries := entries[key := Scalar(token)];
      doc := doc[key := Leaf(token)];
      forall j | j in entries
        ensures EntryValid(j)
      {
        assert j != key ==> old(EntryValid(j));
      }
    }

    method StoreObject(key: string, d: PyDict)
      requires Valid() && d.Valid() && d.repr !! repr
      modifies this
      ensures Valid() && repr == old(repr) + d.repr
      ensures doc == old(doc)[key := Dict(d.doc)] && entries == old(entries)[key := Object(d)]
    {
      entries := entries[key := Object(d)];
      doc := doc[key := Dict(d.doc)];
      forall j | j in entries && j != key
        ensures EntryValid(j) && Separate(entries[j], entries[key])
      {
        assert old(EntryValid(j));
      }
      Adopt(key);
    }

    /** A structural copy that shares no object with the original. */
    method Copy() returns (copy: PyDict)
      requires Valid()
      ensures copy.Valid() && fresh(copy.repr)
      ensures copy.doc == doc
      decreases repr, 2
    {
      copy := new PyDict();
      var todo := entries.Keys;
      while todo != {}
        invariant todo <= entries.Keys
        invariant copy.Valid() && fresh(copy.repr)
        invariant copy.doc.Keys == entries.Keys - todo
        invariant forall k | k in copy.doc :: copy.doc[k] == doc[k]
        decreases todo
      {
        var k :| k in todo;
        CopyEntry(k, copy);
        todo := todo - {k};
      }
    }

    /** The document that the object stands for. */
    method Read() returns (d: Document)
      requires Valid()
      ensures d == doc
      decreases repr, 1
    {
      d := map[];
      var todo := entries.Keys;
      while todo != {}
        invariant todo <= entries.Keys && d.Keys == entries.Keys - todo
        invariant forall k | k in d :: d[k] == doc[k]
        decreases todo
      {
        var k :| k in todo;
        assert EntryValid(k);
        match entries[k] {
          case Scalar(token) => d := d[k := Leaf(token)];
          case Object(child) =>
            var inner := child.Read();
            d := d[k := Dict(inner)];
        }
        todo := todo - {k};
      }
    }

    /** A new object that stands for a document. */
    static method Write(d: Document) returns (x: PyDict)
      ensures fresh(x.repr) && x.Valid() && x.doc == d
      decreases Dict(d)
    {
      x := new PyDict();
      var todo := d.Keys;
      while todo != {}
        invariant todo <= d.Keys && x.Valid() && fresh(x.repr)
        invariant x.doc.Keys == d.Keys - todo && forall k | k in x.doc :: x.doc[k] == d[k]
        decreases todo
      {
        var k :| k in todo;
        match d[k] {
          case Leaf(token) => x.Store(k, Scalar(token));
          case Dict(inner) =>
            assert d[k] == Dict(inner);
            var child := Write(inner);
            x.Store(k, Object(child));
        }
        todo := todo - {k};
      }
    }

    /** Puts a copy of the value under a key into another dictionary. */
    method CopyEntry(k: string, copy: PyDict)
      requires Valid() && k in entries && copy.Valid() && copy.repr !! repr
      modifies copy
      ensures copy.Valid() && copy.doc == old(copy.doc)[k := doc[k]]
      ensures old(copy.repr) <= copy.repr && fresh(copy.repr - old(copy.repr))
      decreases repr, 1
    {
      var v := CopyValue(k);
      copy.Store(k, v);
    }

    /** A copy of the value under a key. */
    method CopyValue(k: string) returns (v: Value)
      requires Valid() && k in entries
      ensures v.Scalar? ==> doc[k] == Leaf(v.token)
      ensures v.Object? ==> v.dict.Valid() && fresh(v.dict.repr) && doc[k] == Dict(v.dict.doc)
      decreases repr, 0
    {
      match entries[k] {
        case Scalar(token) => v := Scalar(token);
        case Object(d) =>
          var copy := d.Copy();
          v := Object(copy);
      }
    }

    /**
     Merges the entries of `b` into this dictionary, in any order of the keys. `b` and everything it
     reaches stays as it is and shares no object with the result. In strict mode the merge stops at
     the first conflict it meets, and it fails exactly when there is one.
     */
    method MergeFrom(b: PyDict, strict: bool) returns (ok: bool)
      requires Valid() && b.Valid() && repr !! b.repr
      modifies repr
      ensures Valid() && fresh(repr - old(repr)) && old(repr) <= repr
      ensures b.Valid() && b.doc == old(b.doc) && b.repr == old(b.repr) && repr !! b.repr
      ensures ok <==> !(strict && Conflict(old(doc), b.doc))
      ensures ok ==> doc == Merge(old(doc), b.doc)
      decreases b.repr, 1
    {
      ghost var a0, b0 := doc, b.doc;
      ghost var done: set<string> := {};
      var todo := b.entries.Keys;
      ok := true;
      MergeStart(a0, b0);
      while ok && todo != {}
        invariant todo <= b.entries.Keys && done == b0.Keys - todo && b.doc == b0
        invariant Valid() && fresh(repr - old(repr)) && old(repr) <= repr
        invariant b.Valid() && repr !! b.repr
        invariant MergedSoFar(a0, b0, done, strict, ok, doc)
        decreases todo
      {
        var k :| k in todo;
        ghost var before := doc;
        ok := MergeKey(k, b, strict);
        MergeStep(a0, b0, done, k, strict, before, ok, doc);
        todo, done := todo - {k}, done + {k};
      }
      MergeEnd(a0, b0, done, strict, ok, doc);
    }

    /** One step of the merge: the entry of `b` under one key. */
    method MergeKey(k: string, b: PyDict, strict: bool) returns (ok: bool)
      requires Valid() && b.Valid() && repr !! b.repr && k in b.entries
      modifies repr
      ensures Valid() && fresh(repr - old(repr)) && old(repr) <= repr
      ensures b.Valid() && repr !! b.repr
      ensures ok <==> !(strict && Conflict(old(doc), Only(b.doc, {k})))
      ensures ok ==> doc == Merge(old(doc), Only(b.doc, {k}))
      decreases b.repr, 0
    {
      MergeOneKey(doc, b.doc, k);
      assert b.EntryValid(k);
      if k in entries && entries[k].Object? && b.entries[k].Object? {
        assert EntryValid(k);
        ok := MergeChild(k, b.entries[k].dict, strict);
      } else if k in entries && entries[k] == b.entries[k] {
        assert EntryValid(k);
        ok := true;
      } else if k in entries && strict {
        assert EntryValid(k);
        ok := false;
      } else {
        var v := b.CopyValue(k);
        Store(k, v);
        ok := true;
      }
    }

    /** Merges a dictionary into the dictionary under a key. */
    method MergeChild(k: string, b: PyDict, strict: bool) returns (ok: bool)
      requires Valid() && k in entries && entries[k].Object? && EntryValid(k)
      requires b.Valid() && repr !! b.repr
      modifies repr
      ensures Valid() && fresh(repr - old(repr)) && old(repr) <= repr
      ensures b.Valid() && repr !! b.repr
      ensures ok <==> !(strict && Conflict(old(doc)[k].entries, b.doc))
      ensures ok ==> doc == old(doc)[k := Dict(Merge(old(doc)[k].entries, b.doc))]
      decreases b.repr, 2
    {
      var child := entries[k].dict;
      ok := child.MergeFrom(b, strict);
      forall j | j in entries && j != k
        ensures EntryValid(j) && Separate(entries[j], entries[k])
      {
        assert old(EntryValid(j) && Separate(entries[j], entries[k]));
        assert entries[j].Object? ==> old(entries[j].dict.Valid());
      }
      Adopt(k);
    }

    /** Restores validity after the dictionary under a key was updated in place. */
    ghost method Adopt(k: string)
      requires this in repr && entries.Keys == doc.Keys
      requires k in entries && entries[k].Object?
      requires entries[k].dict.Valid() && this !in entries[k].dict.repr
      requires forall j | j in entries && j != k :: EntryValid(j) && Separate(entries[j], entries[k])
      requires forall i, j | i in entries && j in entries && i != j && i != k && j != k ::
                 Separate(entries[i], entries[j])
      modifies this`doc, this`repr
      ensures Valid()
      ensures repr == old(repr) + entries[k].dict.repr
      ensures doc == old(doc)[k := Dict(entries[k].dict.doc)]
    {
      doc := doc[k := Dict(entries[k].dict.doc)];
      repr := repr + entries[k].dict.repr;
      forall j | j in entries
        ensures EntryValid(j)
      {
        assert j != k ==> old(EntryValid(j));
      }
    }
  }

  /** The entries of a document under some of its keys. */
  function Only(d: Document, keys: set<string>): Document {
    map k | k in d && k in keys :: d[k]
  }

  /** Merging by one more key of the source is merging that key into what has been merged so far. */
  lemma MergeByKeys(a: Document, b: Document, done: set<string>, k: string)
    requires k in b && k !in done
    ensures Merge(Merge(a, Only(b, done)), Only(b, {k})) == Merge(a, Only(b, done + {k}))
  {
    var m, one, more := Merge(a, Only(b, done)), Only(b, {k}), Only(b, done + {k});
    assert m.Keys == a.Keys + (b.Keys * done) && more.Keys == b.Keys * (done + {k}) && one.Keys == {k};
    assert Merge(m, one).Keys == Merge(a, more).Keys;
    forall j | j in Merge(m, one)
      ensures Merge(m, one)[j] == Merge(a, more)[j]
    {
      if j == k {
        assert k in m <==> k in a;
      } else {
        assert Merge(m, one)[j] == m[j];
      }
    }
  }

  /** A conflict by one more key is a conflict before, or one at that key. */
  lemma ConflictByKeys(a: Document, b: Document, done: set<string>, k: string)
    requires k in b && k !in done
    ensures Conflict(a, Only(b, done + {k})) <==>
            Conflict(a, Only(b, done)) || Conflict(Merge(a, Only(b, done)), Only(b, {k}))
  {
    var some, more, m := Only(b, done), Only(b, done + {k}), Merge(a, Only(b, done));
    MergeOneKey(m, b, k);
    if k in a {
      assert m[k] == a[k];
      assert ConflictAt(m, b, k) == ConflictAt(a, more, k);
    }
    forall j | j in a && j in some
      ensures ConflictAt(a, more, j) == ConflictAt(a, some, j)
    {
    }
    if Conflict(a, some) {
      var j :| j in a.Keys * some.Keys && ConflictAt(a, some, j);
      assert j in a.Keys * more.Keys && ConflictAt(a, more, j);
    }
  }

  /** The state of a merge of b into a when the keys in `done` have been merged without failing, or one has failed. */
  ghost predicate MergedSoFar(a: Document, b: Document, done: set<string>, strict: bool, ok: bool, doc: Document) {
    if ok then doc == Merge(a, Only(b, done)) && !(strict && Conflict(a, Only(b, done)))
    else strict && Conflict(a, b)
  }

  lemma MergeStart(a: Document, b: Document)
    ensures MergedSoFar(a, b, {}, true, true, a) && MergedSoFar(a, b, {}, false, true, a)
  {
    assert Only(b, {}) == map[];
    assert Merge(a, map[]) == a;
  }

  lemma MergeStep(a: Document, b: Document, done: set<string>, k: string, strict: bool, before: Document, ok: bool,
          after: Document)
    requires k in b && k !in done && MergedSoFar(a, b, done, strict, true, before)
    requires ok <==> !(strict && Conflict(before, Only(b, {k})))
    requires ok ==> after == Merge(before, Only(b, {k}))
    ensures MergedSoFar(a, b, done + {k}, strict, ok, after)
  {
    MergeByKeys(a, b, done, k);
    ConflictByKeys(a, b, done, k);
    if !ok {
      ConflictGrows(a, b, done + {k});
    }
  }

  lemma MergeEnd(a: Document, b: Document, done: set<string>, strict: bool, ok: bool, doc: Document)
    requires MergedSoFar(a, b, done, strict, ok, doc) && (ok ==> done == b.Keys)
    ensures ok <==> !(strict && Conflict(a, b))
    ensures ok ==> doc == Merge(a, b)
  {
    assert Only(b, b.Keys) == b;
  }

  lemma ConflictGrows(a: Document, b: Document, keys: set<string>)
    requires Conflict(a, Only(b, keys))
    ensures Conflict(a, b)
  {
    var j :| j in a.Keys * Only(b, keys).Keys && ConflictAt(a, Only(b, keys), j);
    assert ConflictAt(a, b, j);
  }

  /** What merging a single key does. */
  lemma MergeOneKey(a: Document, b: Document, k: string)
    requires k in b
    ensures k in a && BothDicts(a[k], b[k]) ==>
              Merge(a, Only(b, {k})) == a[k := Dict(Merge(a[k].entries, b[k].entries))]
    ensures !(k in a && BothDicts(a[k], b[k])) ==> Merge(a, Only(b, {k})) == a[k := b[k]]
    ensures Conflict(a, Only(b, {k})) <==> k in a && ConflictAt(a, b, k)
  {
    if k in a {
      assert ConflictAt(a, Only(b, {k}), k) == ConflictAt(a, b, k);
    }
  }
}
