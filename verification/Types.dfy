/** The type hierarchy of aria/modeling/service_common.py. */
module Types {
  import opened Wrappers

  /** A type with its own role, if it has one, and its children. */
  datatype Type = Type(name: string, role: Option<string>, children: seq<Type>)

  /** The first type of that name in the tree, in depth-first order. */
  function GetDescendant(t: Type, name: string): Option<Type>
    decreases t, 0
  {
    if t.name == name then Some(t) else FirstDescendant(t.children, name)
  }

  function FirstDescendant(types: seq<Type>, name: string): Option<Type>
    decreases types
  {
    if types == [] then None
    else
      var found := GetDescendant(types[0], name);
      if found.Some? then found else FirstDescendant(types[1..], name)
  }

  /** A chain of types from a root down to one of its descendants, each a child of the one before. */
  ghost predicate IsChain(chain: seq<Type>) {
    chain != [] && forall i | 0 <= i < |chain| - 1 :: chain[i + 1] in chain[i].children
  }

  /** The chain leads from the type to a type of that name. */
  ghost predicate LeadsTo(chain: seq<Type>, t: Type, name: string) {
    IsChain(chain) && chain[0] == t && chain[|chain| - 1].name == name
  }

  /** A type of that name is the type itself or below it, by way of children. */
  ghost predicate Descends(t: Type, name: string) {
    exists chain: seq<Type> :: LeadsTo(chain, t, name)
  }

  /** The type has a descendant (or is one) with that name exactly when a chain leads to one. */
  lemma {:induction false} DescendantByChain(t: Type, name: string)
    ensures GetDescendant(t, name).Some? <==> Descends(t, name)
    ensures GetDescendant(t, name).Some? ==> GetDescendant(t, name).value.name == name
    decreases t, 0
  {
    FirstDescendantByChain(t.children, name);
    if t.name == name {
      assert LeadsTo([t], t, name);
    } else if GetDescendant(t, name).Some? {
      var i, chain: seq<Type> :| 0 <= i < |t.children| && LeadsTo(chain, t.children[i], name);
      assert LeadsTo([t] + chain, t, name);
    }
    forall chain: seq<Type> | LeadsTo(chain, t, name)
      ensures GetDescendant(t, name).Some?
    {
      if |chain| > 1 {
        var rest := chain[1..];
        assert chain[0 + 1] in chain[0].children;
        forall i | 0 <= i < |rest| - 1
          ensures rest[i + 1] in rest[i].children
        {
          assert chain[i + 1 + 1] in chain[i + 1].children;
        }
        var i :| 0 <= i < |t.children| && t.children[i] == rest[0];
        assert LeadsTo(rest, t.children[i], name);
      }
    }
  }

  lemma {:induction false} FirstDescendantByChain(types: seq<Type>, name: string)
    ensures FirstDescendant(types, name).Some? <==>
            exists i, chain: seq<Type> :: 0 <= i < |types| && LeadsTo(chain, types[i], name)
    ensures FirstDescendant(types, name).Some? ==> FirstDescendant(types, name).value.name == name
    decreases types
  {
    if types != [] {
      DescendantByChain(types[0], name);
      FirstDescendantByChain(types[1..], name);
      forall i, chain: seq<Type> | 0 <= i < |types| && LeadsTo(chain, types[i], name)
        ensures FirstDescendant(types, name).Some?
      {
        assert i > 0 ==> LeadsTo(chain, types[1..][i - 1], name);
      }
      if FirstDescendant(types, name).Some? {
        if j, chain: seq<Type> :| 0 <= j < |types[1..]| && LeadsTo(chain, types[1..][j], name) {
          assert LeadsTo(chain, types[j + 1], name);
        } else {
          var chain: seq<Type> :| LeadsTo(chain, types[0], name);
        }
      }
    }
  }

  /** The role of the last type of a chain: its own, or that of its nearest ancestor that has one. */
  function Role(chain: seq<Type>): Option<string>
    requires chain != []
  {
    var last := chain[|chain| - 1];
    if last.role.Some? || |chain| == 1 then last.role else Role(chain[..|chain| - 1])
  }

  /** Position i of the chain has that role, and no position after it has one. */
  predicate Nearest(chain: seq<Type>, i: nat, role: string) {
    i < |chain| && chain[i].role == Some(role) && forall j | i < j < |chain| :: chain[j].role.None?
  }

  lemma {:induction false} RoleIsNearest(chain: seq<Type>, role: string)
    requires chain != []
    ensures Role(chain) == Some(role) <==> exists i :: Nearest(chain, i, role)
  {
    var last := |chain| - 1;
    if last > 0 && chain[last].role.None? {
      var shorter := chain[..last];
      RoleIsNearest(shorter, role);
      forall i: nat | i < last
        ensures Nearest(shorter, i, role) <==> Nearest(chain, i, role)
      {
        assert forall j | i < j < last :: shorter[j] == chain[j];
      }
    } else {
      assert Nearest(chain, last, role) <==> chain[last].role == Some(role);
    }
  }
}
