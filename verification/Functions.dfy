/**
 Evaluating intrinsic functions (aria/modeling/functions.py) and coercing parameters
 (aria/orchestrator/topology/instance_handler.py).

 What a function returns when it is called is given by an environment. A function can return values
 that hold functions in turn; the depth bounds how long such a chain is followed, as the stack does.
 */
module Functions {
  import opened Wrappers

  datatype Entry = Entry(key: string, value: Value)

  datatype Value =
    | Scalar(token: string)
    | List(items: seq<Value>)
    | Dict(entries: seq<Entry>)
    | Function(id: nat)

  /** What calling a function comes to: CannotEvaluateFunctionException, InvalidValueError, or an evaluation. */
  datatype Call = CannotEvaluate | Invalid(issue: string) | Returns(value: Value, final: bool)

  type Env = nat -> Call

  datatype Evaluation = Evaluation(value: Value, final: bool)

  /** The result of `evaluate`, None if nothing was evaluated, with the issues met. */
  datatype Eval = TooDeep | Done(result: Option<Evaluation>, issues: seq<string>)

  /** The result for a list of values: their new values, whether any was evaluated, and whether all were final. */
  datatype EvalAll = AllTooDeep | AllDone(values: seq<Value>, evaluated: bool, final: bool, issues: seq<string>)

  function Evaluate(v: Value, env: Env, depth: nat): Eval
    decreases depth, v, 0
  {
    match v
    case Scalar(_) => Done(None, [])
    case Function(id) =>
      (match env(id)
       case CannotEvaluate => Done(None, [])
       case Invalid(issue) => Done(None, [issue])
       case Returns(value, final) =>
         if depth == 0 then TooDeep
         else
           match Evaluate(value, env, depth - 1)
           case TooDeep => TooDeep
           case Done(None, issues) => Done(Some(Evaluation(value, final)), issues)
           case Done(Some(e), issues) => Done(Some(Evaluation(e.value, final && e.final)), issues))
    case List(items) =>
      (match EvaluateAll(items, env, depth)
       case AllTooDeep => TooDeep
       case AllDone(values, evaluated, final, issues) => Done(if evaluated then Some(Evaluation(List(values), final))
                                                              else None, issues))
    case Dict(entries) =>
      match EvaluateEntries(entries, env, depth)
      case AllTooDeep => TooDeep
      case AllDone(values, evaluated, final, issues) =>
        Done(if evaluated then Some(Evaluation(Dict(WithValues(entries, values)), final)) else None, issues)
  }

  function WithValues(entries: seq<Entry>, values: seq<Value>): seq<Entry>
    requires |values| == |entries|
  {
    seq(|entries|, i requires 0 <= i < |entries| => Entry(entries[i].key, values[i]))
  }

  /** One more value behind those evaluated so far. */
  function Add(all: EvalAll, v: Value, e: Eval): EvalAll {
    if all.AllTooDeep? || e.TooDeep? then AllTooDeep
    else
      match e.result
      case None => AllDone(all.values + [v], all.evaluated, all.final, all.issues + e.issues)
      case Some(ev) => AllDone(all.values + [ev.value], true, all.final && ev.final, all.issues + e.issues)
  }

  function EvaluateAll(items: seq<Value>, env: Env, depth: nat): (r: EvalAll)
    ensures r.AllDone? ==> |r.values| == |items|
    decreases depth, items, 0
  {
    if items == [] then AllDone([], false, true, [])
    else
      var n := |items| - 1;
      assert items[n] in items;
      Add(EvaluateAll(items[..n], env, depth), items[n], Evaluate(items[n], env, depth))
  }

  function EvaluateEntries(entries: seq<Entry>, env: Env, depth: nat): (r: EvalAll)
    ensures r.AllDone? ==> |r.values| == |entries|
    decreases depth, entries, 0
  {
    if entries == [] then AllDone([], false, true, [])
    else
      var n := |entries| - 1;
      Add(EvaluateEntries(entries[..n], env, depth), entries[n].value, Evaluate(entries[n].value, env, depth))
  }

  /** What a value stands for once evaluated; a value in which nothing was evaluated is final. */
  function Outcome(v: Value, e: Eval): Evaluation
    requires e.Done?
  {
    if e.result.Some? then e.result.value else Evaluation(v, true)
  }

  function OutcomeAll(values: seq<Value>, all: EvalAll): (seq<Value>, bool)
    requires all.AllDone?
  {
    (all.values, all.final)
  }

  // ----- Depth

  lemma {:induction false} DepthIrrelevant(v: Value, env: Env, depth: nat, more: nat)
    requires depth <= more && Evaluate(v, env, depth).Done?
    ensures Evaluate(v, env, more) == Evaluate(v, env, depth)
    decreases depth, v, 0
  {
    match v {
      case Scalar(_) =>
      case Function(id) =>
        if env(id).Returns? {
          DepthIrrelevant(env(id).value, env, depth - 1, more - 1);
        }
      case List(items) => DepthIrrelevantAll(items, env, depth, more);
      case Dict(entries) => DepthIrrelevantEntries(entries, env, depth, more);
    }
  }

  lemma {:induction false} DepthIrrelevantAll(items: seq<Value>, env: Env, depth: nat, more: nat)
    requires depth <= more && EvaluateAll(items, env, depth).AllDone?
    ensures EvaluateAll(items, env, more) == EvaluateAll(items, env, depth)
    decreases depth, items, 0
  {
    if items != [] {
      DepthIrrelevantAll(items[..|items| - 1], env, depth, more);
      DepthIrrelevant(items[|items| - 1], env, depth, more);
    }
  }

  lemma {:induction false} DepthIrrelevantEntries(entries: seq<Entry>, env: Env, depth: nat, more: nat)
    requires depth <= more && EvaluateEntries(entries, env, depth).AllDone?
    ensures EvaluateEntries(entries, env, more) == EvaluateEntries(entries, env, depth)
    decreases depth, entries, 0
  {
    if entries != [] {
      DepthIrrelevantEntries(entries[..|entries| - 1], env, depth, more);
      DepthIrrelevant(entries[|entries| - 1].value, env, depth, more);
    }
  }

  // ----- Coercion

  /** The value of a parameter after coercion: only a final evaluation replaces it. */
  function Coerced(v: Value, e: Eval): Value
    requires e.Done?
  {
    if e.result.Some? && e.result.value.final then e.result.value.value else v
  }

  /** Every function that is final in the earlier environment gives the same final value in the later one. */
  ghost predicate Stable(earlier: Env, later: Env) {
    forall id :: earlier(id).Returns? && earlier(id).final ==> later(id) == earlier(id)
  }

  lemma {:induction false} UnevaluatedIsSame(items: seq<Value>, env: Env, depth: nat)
    requires EvaluateAll(items, env, depth).AllDone? && !EvaluateAll(items, env, depth).evaluated
    ensures EvaluateAll(items, env, depth).values == items && EvaluateAll(items, env, depth).final
    decreases |items|
  {
    if items != [] {
      UnevaluatedIsSame(items[..|items| - 1], env, depth);
    }
  }

  function Values(entries: seq<Entry>): seq<Value> {
    seq(|entries|, i requires 0 <= i < |entries| => entries[i].value)
  }

  /** The values of a dictionary are evaluated as those of a list. */
  lemma {:induction false} EntriesAreItems(entries: seq<Entry>, env: Env, depth: nat)
    ensures EvaluateEntries(entries, env, depth) == EvaluateAll(Values(entries), env, depth)
    decreases |entries|
  {
    if entries != [] {
      var n := |entries| - 1;
      EntriesAreItems(entries[..n], env, depth);
      assert Values(entries)[..n] == Values(entries[..n]);
    }
  }

  /**
   Evaluating, later, what an earlier evaluation left (and found final) gives what evaluating the
   original later gives, at any nesting of lists, dictionaries and functions returning functions.
   */
  lemma {:induction false} FinalIsPreserved(v: Value, earlier: Env, later: Env, depth: nat, depth': nat)
    requires Stable(earlier, later)
    requires Evaluate(v, earlier, depth).Done? && Outcome(v, Evaluate(v, earlier, depth)).final
    requires Evaluate(v, later, depth').Done?
    ensures var w := Outcome(v, Evaluate(v, earlier, depth)).value;
            && Evaluate(w, later, depth').Done?
            && Outcome(w, Evaluate(w, later, depth')) == Outcome(v, Evaluate(v, later, depth'))
    decreases depth, v, 0
  {
    match v {
      case Scalar(_) =>
      case Function(id) =>
        if earlier(id).Returns? {
          var value := earlier(id).value;
          assert later(id) == earlier(id);
          FinalIsPreserved(value, earlier, later, depth - 1, depth' - 1);
          var w := Outcome(value, Evaluate(value, earlier, depth - 1)).value;
          DepthIrrelevant(w, later, depth' - 1, depth');
        }
      case List(items) =>
        if EvaluateAll(items, earlier, depth).evaluated {
          FinalIsPreservedAll(items, earlier, later, depth, depth');
          SameListOutcome(items, EvaluateAll(items, earlier, depth).values, later, depth');
        }
      case Dict(entries) =>
        EntriesAreItems(entries, earlier, depth);
        EntriesAreItems(entries, later, depth');
        if EvaluateAll(Values(entries), earlier, depth).evaluated {
          var ws := EvaluateAll(Values(entries), earlier, depth).values;
          FinalIsPreservedEntries(entries, earlier, later, depth, depth');
          SameDictOutcome(entries, ws, later, depth');
        }
    }
  }

  lemma {:induction false} FinalIsPreservedAll(items: seq<Value>, earlier: Env, later: Env, depth: nat, depth': nat)
    requires Stable(earlier, later)
    requires EvaluateAll(items, earlier, depth).AllDone? && EvaluateAll(items, earlier, depth).final
    requires EvaluateAll(items, later, depth').AllDone?
    ensures var ws := EvaluateAll(items, earlier, depth).values;
            && EvaluateAll(ws, later, depth').AllDone?
            && OutcomeAll(ws, EvaluateAll(ws, later, depth')) == OutcomeAll(items, EvaluateAll(items, later, depth'))
    decreases depth, items, 0
  {
    if items != [] {
      var n := |items| - 1;
      FinalIsPreservedAll(items[..n], earlier, later, depth, depth');
      FinalIsPreserved(items[n], earlier, later, depth, depth');
      var ws := EvaluateAll(items, earlier, depth).values;
      assert ws[..n] == EvaluateAll(items[..n], earlier, depth).values;
      assert ws[n] == Outcome(items[n], Evaluate(items[n], earlier, depth)).value;
    }
  }

  lemma {:induction false} FinalIsPreservedEntries(entries: seq<Entry>, earlier: Env, later: Env, depth: nat,
          depth': nat)
    requires Stable(earlier, later)
    requires EvaluateEntries(entries, earlier, depth).AllDone? && EvaluateEntries(entries, earlier, depth).final
    requires EvaluateEntries(entries, later, depth').AllDone?
    ensures var ws := EvaluateEntries(entries, earlier, depth).values;
            && EvaluateAll(ws, later, depth').AllDone?
            && OutcomeAll(ws, EvaluateAll(ws, later, depth')) ==
               OutcomeAll(Values(entries), EvaluateEntries(entries, later, depth'))
    decreases depth, entries, 0
  {
    if entries != [] {
      var n := |entries| - 1;
      FinalIsPreservedEntries(entries[..n], earlier, later, depth, depth');
      FinalIsPreserved(entries[n].value, earlier, later, depth, depth');
      var ws := EvaluateEntries(entries, earlier, depth).values;
      assert ws[..n] == EvaluateEntries(entries[..n], earlier, depth).values;
    }
  }

  lemma SameListOutcome(a: seq<Value>, b: seq<Value>, env: Env, depth: nat)
    requires EvaluateAll(a, env, depth).AllDone? && EvaluateAll(b, env, depth).AllDone?
    requires OutcomeAll(a, EvaluateAll(a, env, depth)) == OutcomeAll(b, EvaluateAll(b, env, depth))
    ensures Outcome(List(a), Evaluate(List(a), env, depth)) == Outcome(List(b), Evaluate(List(b), env, depth))
  {
    if !EvaluateAll(a, env, depth).evaluated {
      UnevaluatedIsSame(a, env, depth);
    }
    if !EvaluateAll(b, env, depth).evaluated {
      UnevaluatedIsSame(b, env, depth);
    }
  }

  lemma SameDictOutcome(entries: seq<Entry>, ws: seq<Value>, env: Env, depth: nat)
    requires |ws| == |entries|
    requires EvaluateEntries(entries, env, depth) == EvaluateAll(Values(entries), env, depth)
    requires EvaluateAll(Values(entries), env, depth).AllDone? && EvaluateAll(ws, env, depth).AllDone?
    requires OutcomeAll(Values(entries), EvaluateAll(Values(entries), env, depth)) ==
             OutcomeAll(ws, EvaluateAll(ws, env, depth))
    ensures var new' := Dict(WithValues(entries, ws));
            && Evaluate(new', env, depth).Done?
            && Outcome(new', Evaluate(new', env, depth)) == Outcome(Dict(entries), Evaluate(Dict(entries), env, depth))
  {
    var others := WithValues(entries, ws);
    EntriesAreItems(others, env, depth);
    assert Values(others) == ws;
    var values := EvaluateAll(ws, env, depth).values;
    assert WithValues(others, values) == WithValues(entries, values);
    if !EvaluateAll(Values(entries), env, depth).evaluated {
      UnevaluatedIsSame(Values(entries), env, depth);
      assert WithValues(entries, Values(entries)) == entries;
    }
    if !EvaluateAll(ws, env, depth).evaluated {
      UnevaluatedIsSame(ws, env, depth);
    }
  }

  /** Coercing a parameter does not change what it evaluates to later. */
  lemma CoercionPreservesMeaning(v: Value, earlier: Env, later: Env, depth: nat, depth': nat)
    requires Stable(earlier, later) && Evaluate(v, earlier, depth).Done? && Evaluate(v, later, depth').Done?
    ensures var w := Coerced(v, Evaluate(v, earlier, depth));
            && Evaluate(w, later, depth').Done?
            && Outcome(w, Evaluate(w, later, depth')) == Outcome(v, Evaluate(v, later, depth'))
  {
    if Outcome(v, Evaluate(v, earlier, depth)).final {
      FinalIsPreserved(v, earlier, later, depth, depth');
    }
  }

  /** Coercing twice in one environment is coercing once. */
  lemma CoercionIdempotent(v: Value, env: Env, depth: nat)
    requires Evaluate(v, env, depth).Done?
    ensures var w := Coerced(v, Evaluate(v, env, depth));
            Evaluate(w, env, depth).Done? && Coerced(w, Evaluate(w, env, depth)) == w
  {
    CoercionPreservesMeaning(v, env, env, depth, depth);
  }

  /** Some function of the value, not counting what functions return, can be evaluated. */
  predicate HasEvaluable(v: Value, env: Env)
    decreases v
  {
    match v
    case Scalar(_) => false
    case Function(id) => env(id).Returns?
    case List(items) => exists i :: 0 <= i < |items| && HasEvaluable(items[i], env)
    case Dict(entries) => exists i :: 0 <= i < |entries| && HasEvaluable(entries[i].value, env)
  }

  /** `evaluate` returns None exactly when nothing in the value can be evaluated. */
  lemma {:induction false} NoneIffNothingEvaluable(v: Value, env: Env, depth: nat)
    requires Evaluate(v, env, depth).Done?
    ensures Evaluate(v, env, depth).result.Some? <==> HasEvaluable(v, env)
    decreases v, 1, 0
  {
    match v {
      case List(items) =>
        forall i | 0 <= i < |items|
          ensures Evaluate(items[i], env, depth).Done? ==>
                    (Evaluate(items[i], env, depth).result.Some? <==> HasEvaluable(items[i], env))
        {
          if Evaluate(items[i], env, depth).Done? {
            NoneIffNothingEvaluable(items[i], env, depth);
          }
        }
        EvaluatedIffSome(items, env, depth);
      case Dict(entries) =>
        EntriesAreItems(entries, env, depth);
        forall i | 0 <= i < |entries|
          ensures Evaluate(Values(entries)[i], env, depth).Done? ==>
                    (Evaluate(Values(entries)[i], env, depth).result.Some? <==> HasEvaluable(entries[i].value, env))
        {
          if Evaluate(entries[i].value, env, depth).Done? {
            NoneIffNothingEvaluable(entries[i].value, env, depth);
          }
        }
        EvaluatedIffSome(Values(entries), env, depth);
      case _ =>
    }
  }

  lemma {:induction false} EvaluatedIffSome(items: seq<Value>, env: Env, depth: nat)
    requires EvaluateAll(items, env, depth).AllDone?
    ensures forall i | 0 <= i < |items| :: Evaluate(items[i], env, depth).Done?
    ensures EvaluateAll(items, env, depth).evaluated <==>
            exists i :: 0 <= i < |items| && Evaluate(items[i], env, depth).result.Some?
    decreases |items|
  {
    if items != [] {
      var n := |items| - 1;
      EvaluatedIffSome(items[..n], env, depth);
      assert forall i | 0 <= i < n :: items[..n][i] == items[i];
    }
  }

  /** Some function that is called along the way is invalid, for that reason. */
  predicate MeetsInvalid(v: Value, env: Env, depth: nat, issue: string)
    decreases depth, v
  {
    match v
    case Scalar(_) => false
    case Function(id) =>
      (match env(id)
       case CannotEvaluate => false
       case Invalid(reason) => issue == reason
       case Returns(value, _) => depth > 0 && MeetsInvalid(value, env, depth - 1, issue))
    case List(items) => exists i :: 0 <= i < |items| && MeetsInvalid(items[i], env, depth, issue)
    case Dict(entries) => exists i :: 0 <= i < |entries| && MeetsInvalid(entries[i].value, env, depth, issue)
  }

  /** An issue is met exactly when an invalid function raises it, also by way of what other functions return. */
  lemma {:induction false} IssuesIffInvalid(v: Value, env: Env, depth: nat, issue: string)
    requires Evaluate(v, env, depth).Done?
    ensures issue in Evaluate(v, env, depth).issues <==> MeetsInvalid(v, env, depth, issue)
    decreases depth, v
  {
    match v {
      case Scalar(_) =>
      case Function(id) =>
        if env(id).Returns? {
          IssuesIffInvalid(env(id).value, env, depth - 1, issue);
        }
      case List(items) =>
        IssuesOfAll(items, env, depth, issue);
        forall i | 0 <= i < |items|
          ensures issue in Evaluate(items[i], env, depth).issues <==> MeetsInvalid(items[i], env, depth, issue)
        {
          IssuesIffInvalid(items[i], env, depth, issue);
        }
      case Dict(entries) =>
        EntriesAreItems(entries, env, depth);
        IssuesOfAll(Values(entries), env, depth, issue);
        forall i | 0 <= i < |entries|
          ensures issue in Evaluate(Values(entries)[i], env, depth).issues <==>
                  MeetsInvalid(entries[i].value, env, depth, issue)
        {
          IssuesIffInvalid(entries[i].value, env, depth, issue);
        }
    }
  }

  lemma {:induction false} IssuesOfAll(items: seq<Value>, env: Env, depth: nat, issue: string)
    requires EvaluateAll(items, env, depth).AllDone?
    ensures forall i | 0 <= i < |items| :: Evaluate(items[i], env, depth).Done?
    ensures issue in EvaluateAll(items, env, depth).issues <==>
            exists i :: 0 <= i < |items| && issue in Evaluate(items[i], env, depth).issues
    decreases |items|
  {
    if items != [] {
      var n := |items| - 1;
      IssuesOfAll(items[..n], env, depth, issue);
      assert forall i | 0 <= i < n :: items[..n][i] == items[i];
    }
  }

  // ----- What an evaluation is, by position

  /**
   A value becomes another one. A function becomes what the value it returns becomes, and so on along what
   functions return; one that cannot be evaluated or is invalid stays, as a scalar does. A list keeps its
   length and order, a dictionary its keys and order.
   */
  ghost predicate Becomes(v: Value, w: Value, env: Env, depth: nat)
    decreases depth, v
  {
    match v
    case Scalar(_) => w == v
    case Function(id) =>
      if env(id).Returns? then depth > 0 && Becomes(env(id).value, w, env, depth - 1) else w == v
    case List(items) =>
      w.List? && |w.items| == |items| && forall i | 0 <= i < |items| :: Becomes(items[i], w.items[i], env, depth)
    case Dict(entries) =>
      && w.Dict? && |w.entries| == |entries|
      && forall i | 0 <= i < |entries| ::
           w.entries[i].key == entries[i].key && Becomes(entries[i].value, w.entries[i].value, env, depth)
  }

  /** Every function that returns on the way, returned ones included, returns a final value. */
  ghost predicate AllFinal(v: Value, env: Env, depth: nat)
    decreases depth, v
  {
    match v
    case Scalar(_) => true
    case Function(id) =>
      env(id).Returns? ==> env(id).final && depth > 0 && AllFinal(env(id).value, env, depth - 1)
    case List(items) => forall i | 0 <= i < |items| :: AllFinal(items[i], env, depth)
    case Dict(entries) => forall i | 0 <= i < |entries| :: AllFinal(entries[i].value, env, depth)
  }

  /** The new values of a list are those of its items. */
  lemma {:induction false} AllByItem(items: seq<Value>, env: Env, depth: nat)
    ensures EvaluateAll(items, env, depth).AllDone? <==>
            forall i | 0 <= i < |items| :: Evaluate(items[i], env, depth).Done?
    ensures EvaluateAll(items, env, depth).AllDone? ==>
              forall i | 0 <= i < |items| ::
                EvaluateAll(items, env, depth).values[i] == Outcome(items[i], Evaluate(items[i], env, depth)).value
    decreases |items|
  {
    if items != [] {
      var n := |items| - 1;
      AllByItem(items[..n], env, depth);
      assert forall i | 0 <= i < n :: items[..n][i] == items[i];
    }
  }

  /** The list is final if all its items are. */
  lemma {:induction false} FinalByItem(items: seq<Value>, env: Env, depth: nat)
    requires EvaluateAll(items, env, depth).AllDone?
    ensures forall i | 0 <= i < |items| :: Evaluate(items[i], env, depth).Done?
    ensures EvaluateAll(items, env, depth).final <==>
            forall i | 0 <= i < |items| :: Outcome(items[i], Evaluate(items[i], env, depth)).final
    decreases |items|
  {
    if items != [] {
      var n := |items| - 1;
      FinalByItem(items[..n], env, depth);
      assert forall i | 0 <= i < n :: items[..n][i] == items[i];
    }
  }

  /** An evaluation that ends comes to the value that v becomes; it does not end exactly if v becomes nothing. */
  lemma {:induction false} EvaluationBecomes(v: Value, w: Value, env: Env, depth: nat)
    ensures Becomes(v, w, env, depth) <==>
            Evaluate(v, env, depth).Done? && Outcome(v, Evaluate(v, env, depth)).value == w
    decreases depth, v
  {
    match v {
      case Scalar(_) =>
      case Function(id) =>
        if env(id).Returns? && depth > 0 {
          EvaluationBecomes(env(id).value, w, env, depth - 1);
        }
      case List(items) =>
        AllByItem(items, env, depth);
        ListOutcome(items, env, depth);
        if w.List? && |w.items| == |items| {
          forall i | 0 <= i < |items|
            ensures Becomes(items[i], w.items[i], env, depth) <==>
                    Evaluate(items[i], env, depth).Done?
                    && Outcome(items[i], Evaluate(items[i], env, depth)).value == w.items[i]
          {
            EvaluationBecomes(items[i], w.items[i], env, depth);
          }
        }
      case Dict(entries) =>
        DictOutcome(entries, env, depth);
        if w.Dict? && |w.entries| == |entries| {
          forall i | 0 <= i < |entries|
            ensures Becomes(entries[i].value, w.entries[i].value, env, depth) <==>
                    ComesTo(entries[i].value, w.entries[i].value, env, depth)
          {
            EvaluationBecomes(entries[i].value, w.entries[i].value, env, depth);
          }
          EntriesBecome(entries, w.entries, env, depth);
        }
    }
  }

  predicate ComesTo(v: Value, w: Value, env: Env, depth: nat) {
    Evaluate(v, env, depth).Done? && Outcome(v, Evaluate(v, env, depth)).value == w
  }

  lemma EntriesBecome(entries: seq<Entry>, others: seq<Entry>, env: Env, depth: nat)
    requires |others| == |entries|
    ensures (EvaluateAll(Values(entries), env, depth).AllDone?
             && WithValues(entries, EvaluateAll(Values(entries), env, depth).values) == others) <==>
            forall i | 0 <= i < |entries| ::
              others[i].key == entries[i].key && ComesTo(entries[i].value, others[i].value, env, depth)
  {
    var values := Values(entries);
    AllByItem(values, env, depth);
    assert forall i | 0 <= i < |entries| :: values[i] == entries[i].value;
    if EvaluateAll(values, env, depth).AllDone? {
      var new' := WithValues(entries, EvaluateAll(values, env, depth).values);
      forall i | 0 <= i < |entries|
        ensures new'[i] == others[i] <==>
                others[i].key == entries[i].key && ComesTo(entries[i].value, others[i].value, env, depth)
      {
        assert Evaluate(values[i], env, depth).Done?;
      }
    }
  }

  lemma ListOutcome(items: seq<Value>, env: Env, depth: nat)
    ensures Evaluate(List(items), env, depth).Done? <==> EvaluateAll(items, env, depth).AllDone?
    ensures EvaluateAll(items, env, depth).AllDone? ==>
              var all := EvaluateAll(items, env, depth);
              Outcome(List(items), Evaluate(List(items), env, depth)) == Evaluation(List(all.values), all.final)
  {
    if EvaluateAll(items, env, depth).AllDone? && !EvaluateAll(items, env, depth).evaluated {
      UnevaluatedIsSame(items, env, depth);
    }
  }

  lemma DictOutcome(entries: seq<Entry>, env: Env, depth: nat)
    ensures Evaluate(Dict(entries), env, depth).Done? <==> EvaluateAll(Values(entries), env, depth).AllDone?
    ensures EvaluateAll(Values(entries), env, depth).AllDone? ==>
              var all := EvaluateAll(Values(entries), env, depth);
              Outcome(Dict(entries), Evaluate(Dict(entries), env, depth)) ==
                Evaluation(Dict(WithValues(entries, all.values)), all.final)
  {
    EntriesAreItems(entries, env, depth);
    if EvaluateAll(Values(entries), env, depth).AllDone? && !EvaluateAll(Values(entries), env, depth).evaluated {
      UnevaluatedIsSame(Values(entries), env, depth);
      assert WithValues(entries, Values(entries)) == entries;
    }
  }

  /** An evaluation is final exactly if every function that returned on the way returned a final value. */
  lemma {:induction false} FinalIffAllFinal(v: Value, env: Env, depth: nat)
    requires Evaluate(v, env, depth).Done?
    ensures Outcome(v, Evaluate(v, env, depth)).final <==> AllFinal(v, env, depth)
    decreases depth, v
  {
    match v {
      case Scalar(_) =>
      case Function(id) =>
        if env(id).Returns? {
          FinalIffAllFinal(env(id).value, env, depth - 1);
        }
      case List(items) =>
        FinalByItem(items, env, depth);
        ListOutcome(items, env, depth);
        forall i | 0 <= i < |items|
          ensures Outcome(items[i], Evaluate(items[i], env, depth)).final <==> AllFinal(items[i], env, depth)
        {
          FinalIffAllFinal(items[i], env, depth);
        }
      case Dict(entries) =>
        DictOutcome(entries, env, depth);
        FinalByItem(Values(entries), env, depth);
        assert forall i | 0 <= i < |entries| :: Evaluate(Values(entries)[i], env, depth).Done?;
        forall i | 0 <= i < |entries|
          ensures Outcome(Values(entries)[i], Evaluate(Values(entries)[i], env, depth)).final <==>
                  AllFinal(entries[i].value, env, depth)
        {
          FinalIffAllFinal(entries[i].value, env, depth);
        }
    }
  }

  /** Whether an evaluation ends and has a result, what value it comes to, and whether that is final. */
  lemma EvaluationMeans(v: Value, env: Env, depth: nat)
    ensures Evaluate(v, env, depth).Done? <==> exists w :: Becomes(v, w, env, depth)
    ensures Evaluate(v, env, depth).Done? ==>
              var result := Evaluate(v, env, depth).result;
              && (result.Some? <==> HasEvaluable(v, env))
              && Becomes(v, if result.Some? then result.value.value else v, env, depth)
              && (result.Some? ==> (result.value.final <==> AllFinal(v, env, depth)))
  {
    if Evaluate(v, env, depth).Done? {
      FinalIffAllFinal(v, env, depth);
      EvaluationBecomes(v, Outcome(v, Evaluate(v, env, depth)).value, env, depth);
      NoneIffNothingEvaluable(v, env, depth);
    }
    if w :| Becomes(v, w, env, depth) {
      EvaluationBecomes(v, w, env, depth);
    }
  }

  /** Coercion replaces a value by what it becomes if all is final on the way, and leaves it as it is otherwise. */
  lemma CoercionMeans(v: Value, env: Env, depth: nat)
    requires Evaluate(v, env, depth).Done?
    ensures var w := Coerced(v, Evaluate(v, env, depth));
            if AllFinal(v, env, depth) then Becomes(v, w, env, depth) else w == v
  {
    FinalIffAllFinal(v, env, depth);
    EvaluationMeans(v, env, depth);
  }

  // ----- The loops, item by item

  lemma AllStep(items: seq<Value>, env: Env, depth: nat, i: nat)
    requires i < |items|
    ensures EvaluateAll(items[..i + 1], env, depth) ==
            Add(EvaluateAll(items[..i], env, depth), items[i], Evaluate(items[i], env, depth))
  {
    assert items[..i + 1][..i] == items[..i];
  }

  lemma EntriesStep(entries: seq<Entry>, env: Env, depth: nat, i: nat)
    requires i < |entries|
    ensures EvaluateEntries(entries[..i + 1], env, depth) ==
            Add(EvaluateEntries(entries[..i], env, depth), entries[i].value, Evaluate(entries[i].value, env, depth))
  {
    assert entries[..i + 1][..i] == entries[..i];
  }

  lemma {:induction false} TooDeepStays(items: seq<Value>, env: Env, depth: nat, i: nat)
    requires i <= |items| && EvaluateAll(items[..i], env, depth).AllTooDeep?
    ensures EvaluateAll(items, env, depth).AllTooDeep?
    decreases |items| - i
  {
    if i < |items| {
      AllStep(items, env, depth, i);
      TooDeepStays(items, env, depth, i + 1);
    } else {
      assert items[..i] == items;
    }
  }

  lemma {:induction false} EntriesTooDeepStays(entries: seq<Entry>, env: Env, depth: nat, i: nat)
    requires i <= |entries| && EvaluateEntries(entries[..i], env, depth).AllTooDeep?
    ensures EvaluateEntries(entries, env, depth).AllTooDeep?
    decreases |entries| - i
  {
    if i < |entries| {
      EntriesStep(entries, env, depth, i);
      EntriesTooDeepStays(entries, env, depth, i + 1);
    } else {
      assert entries[..i] == entries;
    }
  }

  // ----- The code

  /** Keeping an issue, unless the same one is there already. */
  function Report(issues: seq<string>, issue: string): seq<string> {
    if issue in issues then issues else issues + [issue]
  }

  function ReportAll(issues: seq<string>, found: seq<string>): seq<string> {
    if found == [] then issues else Report(ReportAll(issues, found[..|found| - 1]), found[|found| - 1])
  }

  lemma {:induction false} ReportAllAppend(issues: seq<string>, first: seq<string>, second: seq<string>)
    ensures ReportAll(ReportAll(issues, first), second) == ReportAll(issues, first + second)
  {
    if second == [] {
      assert first + second == first;
    } else {
      var n := |second| - 1;
      ReportAllAppend(issues, first, second[..n]);
      assert (first + second)[..|first| + n] == first + second[..n];
    }
  }

  /** Each issue found is kept once. */
  lemma {:induction false} ReportedOnce(issues: seq<string>, found: seq<string>, issue: string)
    requires forall i, j | 0 <= i < j < |issues| :: issues[i] != issues[j]
    ensures issue in ReportAll(issues, found) <==> issue in issues || issue in found
    ensures var all := ReportAll(issues, found); forall i, j | 0 <= i < j < |all| :: all[i] != all[j]
  {
    if found != [] {
      var n := |found| - 1;
      ReportedOnce(issues, found[..n], issue);
      assert found == found[..n] + [found[n]];
    }
  }

  /** Evaluates values, keeping the issues reported on the way. */
  class Evaluator {
    const env: Env
    const reporting: bool
    var issues: seq<string>

    constructor (env: Env, reporting: bool)
      ensures this.env == env && this.reporting == reporting && issues == []
    {
      this.env, this.reporting, issues := env, reporting, [];
    }

    function Reported(before: seq<string>, found: seq<string>): seq<string> {
      if reporting then ReportAll(before, found) else before
    }

    /** `evaluate`; an exhausted stack is the result false. */
    method EvaluateValue(v: Value, depth: nat) returns (ok: bool, evaluation: Option<Evaluation>)
      modifies this`issues
      ensures ok <==> Evaluate(v, env, depth).Done?
      ensures ok ==> evaluation == Evaluate(v, env, depth).result
      ensures ok ==> issues == Reported(old(issues), Evaluate(v, env, depth).issues)
      ensures ok <==> exists w :: Becomes(v, w, env, depth)
      ensures ok ==> (evaluation.Some? <==> HasEvaluable(v, env))
      ensures ok ==> Becomes(v, if evaluation.Some? then evaluation.value.value else v, env, depth)
      ensures ok && evaluation.Some? ==> (evaluation.value.final <==> AllFinal(v, env, depth))
      decreases depth, v, 1
    {
      EvaluationMeans(v, env, depth);
      var evaluated, final, value := false, true, v;
      match v {
        case Scalar(_) =>
        case Function(id) =>
          match env(id) {
            case CannotEvaluate =>
            case Invalid(issue) =>
              if reporting && issue !in issues {
                issues := issues + [issue];
              }
              assert ReportAll(old(issues), [issue]) == Report(ReportAll(old(issues), []), issue);
            case Returns(returned, isFinal) =>
              if depth == 0 {
                return false, None;
              }
              evaluated, value, final := true, returned, isFinal;
              var nestedOk, nested := EvaluateValue(value, depth - 1);
              if !nestedOk {
                return false, None;
              }
              if nested.Some? {
                value, final := nested.value.value, final && nested.value.final;
              }
          }
        case List(items) =>
          var itemsOk, some, allFinal, values := EvaluateItems(items, depth);
          if !itemsOk {
            return false, None;
          }
          evaluated, final, value := some, allFinal, List(values);
        case Dict(entries) =>
          var valuesOk, some, allFinal, values := EvaluateValues(entries, depth);
          if !valuesOk {
            return false, None;
          }
          evaluated, final, value := some, allFinal, Dict(WithValues(entries, values));
      }
      return true, if evaluated then Some(Evaluation(value, final)) else None;
    }

    lemma ReportedAppend(before: seq<string>, first: seq<string>, second: seq<string>)
      ensures Reported(Reported(before, first), second) == Reported(before, first + second)
    {
      ReportAllAppend(before, first, second);
    }

    /** The loop over the items of a list. */
    method EvaluateItems(items: seq<Value>, depth: nat) returns (ok: bool, evaluated: bool, final: bool,
            values: seq<Value>)
      modifies this`issues
      ensures ok <==> EvaluateAll(items, env, depth).AllDone?
      ensures ok ==>
                var found := EvaluateAll(items, env, depth).issues;
                && EvaluateAll(items, env, depth) == AllDone(values, evaluated, final, found)
                && issues == Reported(old(issues), found)
      decreases depth, items, 0
    {
      evaluated, final, values := false, true, [];
      ghost var found: seq<string> := [];
      for i := 0 to |items|
        invariant EvaluateAll(items[..i], env, depth) == AllDone(values, evaluated, final, found)
        invariant issues == Reported(old(issues), found)
      {
        var itemOk, evaluation := EvaluateValue(items[i], depth);
        AllStep(items, env, depth, i);
        if !itemOk {
          TooDeepStays(items, env, depth, i + 1);
          return false, false, false, [];
        }
        ReportedAppend(old(issues), found, Evaluate(items[i], env, depth).issues);
        found := found + Evaluate(items[i], env, depth).issues;
        if evaluation.Some? {
          evaluated, final, values := true, final && evaluation.value.final, values + [evaluation.value.value];
        } else {
          values := values + [items[i]];
        }
      }
      assert items[..|items|] == items;
      ok := true;
    }

    /** The loop over the entries of a dictionary: that over their values. */
    method EvaluateValues(entries: seq<Entry>, depth: nat) returns (ok: bool, evaluated: bool, final: bool,
            values: seq<Value>)
      modifies this`issues
      ensures ok <==> EvaluateEntries(entries, env, depth).AllDone?
      ensures ok ==>
                var found := EvaluateEntries(entries, env, depth).issues;
                && EvaluateEntries(entries, env, depth) == AllDone(values, evaluated, final, found)
                && issues == Reported(old(issues), found)
      decreases depth, entries, 0
    {
      evaluated, final, values := false, true, [];
      ghost var found: seq<string> := [];
      for i := 0 to |entries|
        invariant EvaluateEntries(entries[..i], env, depth) == AllDone(values, evaluated, final, found)
        invariant issues == Reported(old(issues), found)
      {
        var value := entries[i].value;
        var valueOk, evaluation := EvaluateValue(value, depth);
        EntriesStep(entries, env, depth, i);
        if !valueOk {
          EntriesTooDeepStays(entries, env, depth, i + 1);
          return false, false, false, [];
        }
        ReportedAppend(old(issues), found, Evaluate(value, env, depth).issues);
        found := found + Evaluate(value, env, depth).issues;
        if evaluation.Some? {
          evaluated, final, values := true, final && evaluation.value.final, values + [evaluation.value.value];
        } else {
          values := values + [value];
        }
      }
      assert entries[..|entries|] == entries;
      ok := true;
    }
  }

  /** A parameter of a model. */
  class Parameter {
    var value: Option<Value>

    constructor (value: Option<Value>)
      ensures this.value == value
    {
      this.value := value;
    }

    /** _Parameter.coerce. A later evaluation of the parameter gives what it would have given. */
    method Coerce(evaluator: Evaluator, depth: nat) returns (ok: bool)
      modifies this, evaluator
      ensures value.None? <==> old(value).None?
      ensures ok <==> old(value).Some? ==> exists w :: Becomes(old(value).value, w, evaluator.env, depth)
      ensures !ok ==> value == old(value)
      ensures ok && value.Some? ==>
                if HasEvaluable(old(value).value, evaluator.env)
                    && AllFinal(old(value).value, evaluator.env, depth) then
                  Becomes(old(value).value, value.value, evaluator.env, depth)
                else value == old(value)
      ensures ok && value.Some? ==>
                forall later: Env, depth': nat ::
                      Stable(evaluator.env, later) && Evaluate(old(value).value, later, depth').Done? ==>
                  && Evaluate(value.value, later, depth').Done?
                  && Outcome(value.value, Evaluate(value.value, later, depth')) ==
                     Outcome(old(value).value, Evaluate(old(value).value, later, depth'))
    {
      ok := true;
      if value.Some? {
        var v := value.value;
        EvaluationMeans(v, evaluator.env, depth);
        var done, evaluation := evaluator.EvaluateValue(v, depth);
        ok := done;
        if done && evaluation.Some? && evaluation.value.final {
          value := Some(evaluation.value.value);
        }
        if done {
          forall later: Env, depth': nat | Stable(evaluator.env, later) && Evaluate(v, later, depth').Done?
            ensures Evaluate(value.value, later, depth').Done?
            ensures Outcome(value.value, Evaluate(value.value, later, depth')) == Outcome(v, Evaluate(v, later, depth'))
          {
            CoercionPreservesMeaning(v, evaluator.env, later, depth, depth');
          }
        }
      }
    }
  }
}
