/**
 Write-through of instrumented dictionaries (aria/storage/collection_instrumentation.py).

 A handle is an instrumented dictionary: a copy of the entries of a nested dictionary (or, at the top
 level, of the values of a model's field), with a link to the handle it was taken from.
 */
module Instrumentation {
  import opened Documents

  /** A parameter model, of which only the value matters here. */
  class Parameter {
    var value: Raw

    constructor (value: Raw)
      ensures this.value == value
    {
      this.value := value;
    }
  }

  /** A model with a dictionary field of parameters. */
  class Model {
    var field: map<string, Parameter>

    ghost predicate Valid()
      reads this
    {
      forall j, k | j in field && k in field && j != k :: field[j] != field[k]
    }

    ghost function Parameters(): set<Parameter>
      reads this
    {
      set k | k in field :: field[k]
    }

    /** The values of the parameters. */
    function Contents(): Document
      reads this, set k | k in field :: field[k]
    {
      map k | k in field :: field[k].value
    }

    constructor ()
      ensures Valid() && field == map[]
    {
      field := map[];
    }

    /** `_set_field` at the top level: an existing parameter keeps its identity, a new key gets a new one. */
    method SetField(key: string, value: Raw)
      requires Valid()
      modifies this, Parameters()
      ensures Valid() && Contents() == old(Contents())[key := value]
      ensures forall k | k in old(field) :: k in field && field[k] == old(field)[k]
      ensures fresh(Parameters() - old(Parameters()))
    {
      if key in field {
        field[key].value := value;
      } else {
        var parameter := new Parameter(value);
        field := field[key := parameter];
      }
    }
  }

  /** The document with the value at a path replaced; the path must lead through dictionaries. */
  function UpdateAt(d: Document, path: seq<string>, value: Raw): Document
    requires path != [] && Through(d, path[..|path| - 1])
    decreases |path|
  {
    if |path| == 1 then d[path[0] := value]
    else
      assert path[..|path| - 1][1..] == path[1..][..|path[1..]| - 1];
      d[path[0] := Dict(UpdateAt(d[path[0]].entries, path[1..], value))]
  }

  /** Every step of the path leads to a dictionary. */
  predicate Through(d: Document, path: seq<string>)
    decreases |path|
  {
    path == [] || (path[0] in d && d[path[0]].Dict? && Through(d[path[0]].entries, path[1..]))
  }

  /** The dictionary at the end of such a path. */
  function At(d: Document, path: seq<string>): Document
    requires Through(d, path)
    decreases |path|
  {
    if path == [] then d else At(d[path[0]].entries, path[1..])
  }

  lemma {:induction false} ThroughAppend(d: Document, path: seq<string>, key: string)
    requires Through(d, path) && key in At(d, path) && At(d, path)[key].Dict?
    ensures Through(d, path + [key]) && At(d, path + [key]) == At(d, path)[key].entries
    decreases |path|
  {
    if path == [] {
      assert (path + [key])[1..] == [];
    } else {
      ThroughAppend(d[path[0]].entries, path[1..], key);
      assert (path + [key])[1..] == path[1..] + [key];
    }
  }

  /** Replacing a dictionary by itself with one entry changed is changing that entry. */
  lemma {:induction false} UpdateDeeper(d: Document, path: seq<string>, key: string, value: Raw)
    requires path != [] && Through(d, path)
    ensures Through(d, path[..|path| - 1]) && Through(d, (path + [key])[..|path|])
    ensures UpdateAt(d, path, Dict(At(d, path)[key := value])) == UpdateAt(d, path + [key], value)
    decreases |path|
  {
    assert (path + [key])[..|path|] == path;
    ThroughPrefix(d, path);
    assert (path + [key])[1..] == path[1..] + [key];
    if |path| > 1 {
      UpdateDeeper(d[path[0]].entries, path[1..], key, value);
      assert path[..|path| - 1][1..] == path[1..][..|path[1..]| - 1];
    }
  }

  lemma {:induction false} ThroughPrefix(d: Document, path: seq<string>)
    requires path != [] && Through(d, path)
    ensures Through(d, path[..|path| - 1])
    decreases |path|
  {
    if |path| > 1 {
      ThroughPrefix(d[path[0]].entries, path[1..]);
      assert path[..|path| - 1][1..] == path[1..][..|path[1..]| - 1];
    }
  }

  /** After an update, the dictionary at the parent path has the new entry. */
  lemma {:induction false} AtUpdated(d: Document, path: seq<string>, key: string, value: Raw)
    requires Through(d, path)
    ensures Through(d, (path + [key])[..|path|])
    ensures Through(UpdateAt(d, path + [key], value), path)
    ensures At(UpdateAt(d, path + [key], value), path) == At(d, path)[key := value]
    decreases |path|
  {
    assert (path + [key])[..|path|] == path;
    if path != [] {
      AtUpdated(d[path[0]].entries, path[1..], key, value);
      assert (path + [key])[1..] == path[1..] + [key];
    }
  }

  class Handle {
    const model: Model
    const parent: Handle?
    const key: string
    var entries: Document
    /** The handles up to the top level one, and the keys from there to here. */
    ghost const chain: set<Handle>
    ghost const path: seq<string>
    ghost const root: Handle

    /** How the chain is linked; this never changes. */
    ghost predicate Linked()
      decreases |path|
    {
      && this in chain
      && (parent == null ==> path == [] && root == this && chain == {this})
      && (parent != null ==>
            && path == parent.path + [key] && root == parent.root && model == parent.model
            && chain == parent.chain + {this} && this !in parent.chain && parent in chain && parent.Linked())
    }

    /** Each handle of the chain holds what its parent holds under its key, and the top one what the field holds. */
    ghost predicate Synced()
      requires Linked()
      reads chain, model, model.Parameters()
      decreases |path|
    {
      if parent == null then entries == model.Contents()
      else key in parent.entries && parent.entries[key] == Dict(entries) && parent.Synced()
    }

    /** The instrumented root of a model's field. */
    constructor Root(model: Model)
      requires model.Valid()
      ensures Linked() && path == [] && this.model == model && fresh(chain) && Synced()
    {
      this.model, this.parent, this.key := model, null, "";
      this.entries := model.Contents();
      this.path, this.root, this.chain := [], this, {this};
    }

    /** What indexing with a key returns if there is a dictionary: a new handle with a copy of its entries. */
    constructor Child(parent: Handle, key: string)
      requires parent.Linked() && key in parent.entries && parent.entries[key].Dict?
      requires parent.Synced()
      ensures Linked() && Synced() && this.parent == parent && this.key == key && this.model == parent.model
      ensures path == parent.path + [key] && root == parent.root && fresh(chain - parent.chain)
    {
      this.model, this.parent, this.key := parent.model, parent, key;
      this.entries := parent.entries[key].entries;
      this.path, this.root, this.chain := parent.path + [key], parent.root, parent.chain + {this};
      new;
      assert this !in parent.chain && parent.model.Parameters() == old(parent.model.Parameters());
      assert forall h: Handle | h in parent.chain :: h.entries == old(h.entries);
      assert forall p: Parameter | p in parent.model.Parameters() :: p.value == old(p.value);
      assert parent.Synced();
    }

    /** In a synced chain the root has, at the path of the handle, the entries of the handle. */
    lemma RootHasEntries()
      requires Linked() && Synced()
      ensures Through(root.entries, path) && At(root.entries, path) == entries
      ensures root.entries == model.Contents()
      decreases |path|
    {
      if parent != null {
        parent.RootHasEntries();
        ThroughAppend(root.entries, parent.path, key);
      }
    }

    lemma RootInChain()
      requires Linked()
      ensures root in chain && (parent != null ==> root in parent.chain && root != this)
      decreases |path|
    {
      if parent != null {
        parent.RootInChain();
      }
    }

    /**
     `__setitem__`: sets the entry here and writes through to the root and the model. Both end as the
     old nested value, functionally updated at the path of the entry.
     */
    method SetItem(k: string, value: Raw)
      requires Linked() && Synced() && model.Valid()
      modifies chain, model, model.Parameters()
      ensures Synced() && model.Valid() && fresh(model.Parameters() - old(model.Parameters()))
      ensures entries == old(entries)[k := value]
      ensures Through(old(root.entries), path) && (path + [k])[..|path|] == path
      ensures root.entries == UpdateAt(old(root.entries), path + [k], value)
      ensures model.Contents() == root.entries
      decreases |path|, 1
    {
      RootHasEntries();
      RootInChain();
      assert (path + [k])[..|path|] == path;
      if parent == null {
        entries := entries[k := value];
        model.SetField(k, value);
      } else {
        SetNested(k, value);
      }
    }

    /** `__setitem__` below the top level: the parent gets a copy of the entries under this handle's key. */
    method SetNested(k: string, value: Raw)
      requires Linked() && Synced() && model.Valid() && parent != null && root in parent.chain
      requires Through(root.entries, path) && At(root.entries, path) == entries
      modifies chain, model, model.Parameters()
      ensures Synced() && model.Valid() && fresh(model.Parameters() - old(model.Parameters()))
      ensures entries == old(entries)[k := value]
      ensures (path + [k])[..|path|] == path && root.entries == UpdateAt(old(root.entries), path + [k], value)
      ensures model.Contents() == root.entries
      decreases |path|, 0
    {
      ghost var before, was := root.entries, entries;
      UpdateDeeper(before, path, k, value);
      assert (path + [k])[..|path|] == path;
      entries := entries[k := value];
      assert parent.Synced() && root.entries == before;
      parent.SetItem(key, Dict(entries));
    }
  }
}
