/** The validator of derivation hierarchies (aria/parser/presentation/field_validators.py). */
module Hierarchy {
  import opened Counting
  import opened Wrappers

  type Name = string

  /** The types dictionary: the `derived_from` of each type, and the conversion of shorthand type names. */
  datatype Types = Types(derivedFrom: map<Name, Option<Name>>, convert: Name -> Name) {
    /** The converted parent of a type. */
    function Parent(name: Name): Option<Name>
      requires name in derivedFrom
    {
      if derivedFrom[name].None? then None else Some(convert(derivedFrom[name].value))
    }

    /** The walk goes on from this type to its parent. */
    predicate Continues(name: Name)
      requires name in derivedFrom
    {
      Parent(name).Some? && Parent(name).value != name && Parent(name).value in derivedFrom
    }
  }

  datatype Issue = ParentIsSelf | UnknownParent | Circular

  /** The chain of types that the walk from a type visits, each the parent of the one before. */
  ghost predicate IsWalk(types: Types, walk: seq<Name>) {
    && walk != [] && (forall i | 0 <= i < |walk| :: walk[i] in types.derivedFrom)
    && forall i | 0 <= i < |walk| - 1 ::
         && types.derivedFrom[walk[i]].Some? && walk[i + 1] == types.convert(types.derivedFrom[walk[i]].value)
         && walk[i + 1] != walk[i]
  }

  /** The derivation chain of a type ends at a root. */
  ghost predicate EndsAtRoot(types: Types, name: Name) {
    exists walk :: IsWalk(types, walk) && walk[0] == name && types.derivedFrom[walk[|walk| - 1]].None?
  }

  /** The walk from a type comes back to a type it has visited. */
  ghost predicate RunsInCircle(types: Types, name: Name) {
    exists walk :: IsWalk(types, walk) && walk[0] == name && ComesBack(types, walk)
  }

  /** The last type of a walk derives from another one that the walk has visited. */
  ghost predicate ComesBack(types: Types, walk: seq<Name>)
    requires IsWalk(types, walk)
  {
    var last := walk[|walk| - 1];
    && types.derivedFrom[last].Some? && types.convert(types.derivedFrom[last].value) != last
    && types.convert(types.derivedFrom[last].value) in walk
  }

  lemma WalkExtends(types: Types, walk: seq<Name>)
    requires IsWalk(types, walk) && types.Continues(walk[|walk| - 1])
    ensures IsWalk(types, walk + [types.Parent(walk[|walk| - 1]).value])
  {
  }

  /** Every walk from the start of a circle stays on it, and can go on. */
  lemma {:induction false} CircleCovers(types: Types, circle: seq<Name>, walk: seq<Name>, n: nat)
    requires IsWalk(types, circle) && ComesBack(types, circle)
    requires IsWalk(types, walk) && walk[0] == circle[0] && n < |walk|
    ensures walk[n] in circle && types.Continues(walk[n])
  {
    if n > 0 {
      CircleCovers(types, circle, walk, n - 1);
      var i :| 0 <= i < |circle| && circle[i] == walk[n - 1];
      assert walk[n - 1 + 1] == types.convert(types.derivedFrom[walk[n - 1]].value);
      if i < |circle| - 1 {
        assert circle[i + 1] == types.convert(types.derivedFrom[circle[i]].value);
      }
    }
    var k :| 0 <= k < |circle| && circle[k] == walk[n];
    assert k < |circle| - 1 ==> circle[k + 1] != circle[k];
  }

  /** A type whose derivation runs in a circle has no walk that stops, in particular none that ends at a root. */
  lemma CircleNeverStops(types: Types, name: Name, walk: seq<Name>)
    requires RunsInCircle(types, name) && IsWalk(types, walk) && walk[0] == name
    ensures types.Continues(walk[|walk| - 1])
  {
    var circle :| IsWalk(types, circle) && circle[0] == name && ComesBack(types, circle);
    CircleCovers(types, circle, walk, |walk| - 1);
  }

  /**
   The validator for one type of the dictionary. It always ends, and reports: deriving from itself, an
   unknown parent, or a derivation chain that runs in a circle.
   */
  method Validate(types: Types, name: Name) returns (issue: Option<Issue>)
    requires name in types.derivedFrom
    ensures issue == Some(ParentIsSelf) <==>
            types.derivedFrom[name].Some? && types.convert(types.derivedFrom[name].value) == name
    ensures issue == Some(UnknownParent) <==>
            && types.derivedFrom[name].Some? && types.convert(types.derivedFrom[name].value) != name
            && types.convert(types.derivedFrom[name].value) !in types.derivedFrom
    ensures issue == Some(Circular) <==> RunsInCircle(types, name)
    ensures issue.Some? <==> HasIssue(types, name)
  {
    var value := types.Parent(name);
    if value.None? {
      NoCircleFromEnd(types, [name]);
      return None;
    }
    if value.value == name {
      NoCircleFromEnd(types, [name]);
      return Some(ParentIsSelf);
    }
    if value.value !in types.derivedFrom {
      NoCircleFromEnd(types, [name]);
      return Some(UnknownParent);
    }
    var hierarchy, current := [name], name;
    while types.derivedFrom[current].Some?
      invariant IsWalk(types, hierarchy) && NoRepeats(hierarchy)
      invariant hierarchy[0] == name && current == hierarchy[|hierarchy| - 1]
      decreases |types.derivedFrom.Keys| + 1 - |hierarchy|
    {
      var parent := types.convert(types.derivedFrom[current].value);
      if parent == current || parent !in types.derivedFrom {
        break;
      }
      if parent in hierarchy {
        return Some(Circular);
      }
      WalkExtends(types, hierarchy);
      hierarchy, current := hierarchy + [parent], parent;
      NoRepeatsBound(hierarchy, types.derivedFrom.Keys);
    }
    NoCircleFromEnd(types, hierarchy);
    return None;
  }

  /** A walk that cannot go on does not run in a circle. */
  lemma NoCircleFromEnd(types: Types, walk: seq<Name>)
    requires IsWalk(types, walk) && !types.Continues(walk[|walk| - 1])
    ensures !RunsInCircle(types, walk[0])
  {
    if RunsInCircle(types, walk[0]) {
      CircleNeverStops(types, walk[0], walk);
    }
  }

  /** The issue of a type, as `Validate` determines it. */
  ghost predicate HasIssue(types: Types, name: Name)
    requires name in types.derivedFrom
  {
    || types.Parent(name) == Some(name)
    || (types.Parent(name).Some? && types.Parent(name).value !in types.derivedFrom)
    || RunsInCircle(types, name)
  }

  /** Follows the walk from a type to its end, or until it meets a type again. */
  lemma {:induction false} FollowToEnd(types: Types, walk: seq<Name>)
    requires IsWalk(types, walk) && NoRepeats(walk)
    requires forall name | name in types.derivedFrom :: !HasIssue(types, name)
    ensures EndsAtRoot(types, walk[0])
    decreases |types.derivedFrom.Keys| + 1 - |walk|
  {
    var last := walk[|walk| - 1];
    assert !HasIssue(types, last) && !HasIssue(types, walk[0]);
    if types.Parent(last).Some? {
      assert types.Continues(last);
      WalkExtends(types, walk);
      NoRepeatsBound(walk, types.derivedFrom.Keys);
      FollowToEnd(types, walk + [types.Parent(last).value]);
    }
  }

  /** Validating all types reports nothing exactly when every derivation chain ends at a root. */
  lemma AllValidIff(types: Types)
    ensures (forall name | name in types.derivedFrom :: !HasIssue(types, name)) <==>
            (forall name | name in types.derivedFrom :: EndsAtRoot(types, name))
  {
    if forall name | name in types.derivedFrom :: !HasIssue(types, name) {
      forall name | name in types.derivedFrom
        ensures EndsAtRoot(types, name)
      {
        FollowToEnd(types, [name]);
      }
    }
    if forall name | name in types.derivedFrom :: EndsAtRoot(types, name) {
      forall name | name in types.derivedFrom
        ensures !HasIssue(types, name)
      {
        var walk :| IsWalk(types, walk) && walk[0] == name && types.derivedFrom[walk[|walk| - 1]].None?;
        if RunsInCircle(types, name) {
          CircleNeverStops(types, name, walk);
        }
        assert |walk| > 1 ==> walk[0 + 1] != walk[0];
      }
    }
  }

  /** Validates all types, in any order. */
  method ValidateAll(types: Types) returns (issues: map<Name, Issue>)
    ensures forall name :: name in issues <==> name in types.derivedFrom && HasIssue(types, name)
    ensures issues == map[] <==> forall name | name in types.derivedFrom :: EndsAtRoot(types, name)
  {
    issues := map[];
    var todo := types.derivedFrom.Keys;
    while todo != {}
      invariant todo <= types.derivedFrom.Keys
      invariant forall name :: name in issues <==> name in types.derivedFrom.Keys - todo && HasIssue(types, name)
      decreases todo
    {
      var name :| name in todo;
      var issue := Validate(types, name);
      if issue.Some? {
        issues := issues[name := issue.value];
      }
      todo := todo - {name};
    }
    AllValidIff(types);
    if forall name | name in types.derivedFrom :: !HasIssue(types, name) {
      assert issues == map[];
    } else {
      var name :| name in types.derivedFrom && HasIssue(types, name);
      assert name in issues;
    }
  }
}
