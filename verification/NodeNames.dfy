/**
 Instantiating node templates: scaling (aria/modeling/service_template.py), unique node names, and the
 node loop of ServiceTemplate.instantiate (aria/orchestrator/topology/template_handler.py).
 */
module NodeNames {
  import opened Wrappers
  import D = Decimal

  // ----- Names

  /** The name of the node with that index of a template. */
  function NodeName(template: string, index: nat): string {
    template + "_" + D.Print(index)
  }

  /** The position of the last underscore, or -1. */
  function LastUnderscore(s: string): (i: int)
    ensures -1 <= i < |s|
    ensures i >= 0 ==> s[i] == '_'
    ensures forall j | i < j < |s| :: s[j] != '_'
  {
    if s == "" then -1
    else if s[|s| - 1] == '_' then |s| - 1
    else LastUnderscore(s[..|s| - 1])
  }

  /** The last piece of the name when it is split from the right at one underscore. */
  function Suffix(name: string): string {
    name[LastUnderscore(name) + 1..]
  }

  /** The index that `_next_index` reads off a node name. */
  function IndexOf(name: string): nat
    requires D.AllDigits(Suffix(name))
  {
    D.Parse(Suffix(name))
  }

  lemma NameParts(template: string, index: nat)
    ensures LastUnderscore(NodeName(template, index)) == |template|
    ensures Suffix(NodeName(template, index)) == D.Print(index)
  {
    var name, digits := NodeName(template, index), D.Print(index);
    assert name[|template|] == '_';
    forall j | |template| < j < |name|
      ensures name[j] != '_'
    {
      assert name[j] == digits[j - |template| - 1];
    }
  }

  /** The index read off a name is the one printed into it. */
  lemma IndexRecovered(template: string, index: nat)
    ensures D.AllDigits(Suffix(NodeName(template, index))) && IndexOf(NodeName(template, index)) == index
  {
    NameParts(template, index);
    D.ParsePrint(index);
  }

  /** Names are unique across templates and indices, whatever underscores and digits the template names have. */
  lemma NamesDistinct(t: string, i: nat, u: string, j: nat)
    requires NodeName(t, i) == NodeName(u, j)
    ensures t == u && i == j
  {
    NameParts(t, i);
    NameParts(u, j);
    assert t == NodeName(t, i)[..|t|] == NodeName(u, j)[..|u|] == u;
    IndexRecovered(t, i);
    IndexRecovered(u, j);
  }

  // ----- Scaling

  datatype Scaling = Scaling(minInstances: int, maxInstances: int, defaultInstances: int)

  /** The integer properties of a scaling capability or policy, where given. */
  datatype Properties = Properties(minInstances: Option<int>, maxInstances: Option<int>, defaultInstances: Option<int>)

  predicate GivenFirstAt(values: seq<Option<int>>, i: nat, value: int) {
    i < |values| && values[i] == Some(value) && forall j | 0 <= j < i :: values[j].None?
  }

  function FirstGiven(values: seq<Option<int>>, default: int): (r: int)
    ensures (exists i :: GivenFirstAt(values, i, r))
            || (r == default && forall i | 0 <= i < |values| :: values[i].None?)
  {
    assert values != [] && values[0].Some? ==> GivenFirstAt(values, 0, values[0].value);
    assert forall i: nat, r: int {:trigger GivenFirstAt(values[1..], i, r)} | values != [] && values[0].None? ::
        GivenFirstAt(values[1..], i, r) ==> GivenFirstAt(values, i + 1, r);
    if values == [] then default else if values[0].Some? then values[0].value else FirstGiven(values[1..], default)
  }

  /** The first source that gives a property decides it; capabilities come before policies. */
  function ScalingOf(sources: seq<Properties>): Scaling {
    Scaling(
      FirstGiven(seq(|sources|, i requires 0 <= i < |sources| => sources[i].minInstances), 0),
      FirstGiven(seq(|sources|, i requires 0 <= i < |sources| => sources[i].maxInstances), 1),
      FirstGiven(seq(|sources|, i requires 0 <= i < |sources| => sources[i].defaultInstances), 1))
  }

  /** The value of the first source that gives `min_instances`, or 0 if none does. */
  ghost predicate MinFrom(sources: seq<Properties>, value: int) {
    if exists i :: 0 <= i < |sources| && sources[i].minInstances.Some? then
      exists i :: 0 <= i < |sources| && sources[i].minInstances == Some(value)
             && forall j | 0 <= j < i :: sources[j].minInstances.None?
    else value == 0
  }

  /** The value of the first source that gives `max_instances`, or 1 if none does. */
  ghost predicate MaxFrom(sources: seq<Properties>, value: int) {
    if exists i :: 0 <= i < |sources| && sources[i].maxInstances.Some? then
      exists i :: 0 <= i < |sources| && sources[i].maxInstances == Some(value)
             && forall j | 0 <= j < i :: sources[j].maxInstances.None?
    else value == 1
  }

  /** The value of the first source that gives `default_instances`, or 1 if none does. */
  ghost predicate DefaultFrom(sources: seq<Properties>, value: int) {
    if exists i :: 0 <= i < |sources| && sources[i].defaultInstances.Some? then
      exists i :: 0 <= i < |sources| && sources[i].defaultInstances == Some(value)
             && forall j | 0 <= j < i :: sources[j].defaultInstances.None?
    else value == 1
  }

  ghost predicate ScalingFrom(sources: seq<Properties>, s: Scaling) {
    MinFrom(sources, s.minInstances) && MaxFrom(sources, s.maxInstances) && DefaultFrom(sources, s.defaultInstances)
  }

  /** The scaling of a template is that, and no other. */
  lemma ScalingOfMeans(sources: seq<Properties>, s: Scaling)
    ensures s == ScalingOf(sources) <==> ScalingFrom(sources, s)
  {
    MinMeans(sources, s.minInstances);
    MaxMeans(sources, s.maxInstances);
    DefaultMeans(sources, s.defaultInstances);
  }

  lemma MinMeans(sources: seq<Properties>, value: int)
    ensures value == ScalingOf(sources).minInstances <==> MinFrom(sources, value)
  {
    var values := seq(|sources|, i requires 0 <= i < |sources| => sources[i].minInstances);
    FirstGivenIff(values, 0, value);
    assert forall i | 0 <= i < |sources| :: values[i] == sources[i].minInstances;
  }

  lemma MaxMeans(sources: seq<Properties>, value: int)
    ensures value == ScalingOf(sources).maxInstances <==> MaxFrom(sources, value)
  {
    var values := seq(|sources|, i requires 0 <= i < |sources| => sources[i].maxInstances);
    FirstGivenIff(values, 1, value);
    assert forall i | 0 <= i < |sources| :: values[i] == sources[i].maxInstances;
  }

  lemma DefaultMeans(sources: seq<Properties>, value: int)
    ensures value == ScalingOf(sources).defaultInstances <==> DefaultFrom(sources, value)
  {
    var values := seq(|sources|, i requires 0 <= i < |sources| => sources[i].defaultInstances);
    FirstGivenIff(values, 1, value);
    assert forall i | 0 <= i < |sources| :: values[i] == sources[i].defaultInstances;
  }

  lemma FirstGivenIff(values: seq<Option<int>>, default: int, r: int)
    ensures r == FirstGiven(values, default) <==>
            if exists i :: 0 <= i < |values| && values[i].Some? then exists i :: GivenFirstAt(values, i, r)
            else r == default
  {
    var first := FirstGiven(values, default);
    if i, j :| GivenFirstAt(values, i, r) && GivenFirstAt(values, j, first) {
      assert i == j;
    }
  }

  /** The six tests of `_scaling`, any of which reports an issue. */
  predicate ScalingReported(s: Scaling) {
    || s.minInstances < 0
    || s.maxInstances < s.minInstances
    || s.maxInstances < 0
    || s.defaultInstances < 0
    || s.defaultInstances < s.minInstances
    || s.defaultInstances > s.maxInstances
  }

  /** Scaling is reported exactly when it is not in order; a negative number of nodes is always reported. */
  lemma ScalingReportedIff(s: Scaling)
    ensures ScalingReported(s) <==> !(0 <= s.minInstances <= s.defaultInstances <= s.maxInstances)
  {
  }

  /** Collects the scaling properties as the nested helpers of `scaling` do: a property once set stays. */
  method CollectScaling(sources: seq<Properties>) returns (s: Scaling)
    ensures s == ScalingOf(sources) && ScalingFrom(sources, s)
  {
    ScalingOfMeans(sources, ScalingOf(sources));
    var min: Option<int>, max: Option<int>, default: Option<int> := None, None, None;
    ghost var mins := seq(|sources|, i requires 0 <= i < |sources| => sources[i].minInstances);
    ghost var maxs := seq(|sources|, i requires 0 <= i < |sources| => sources[i].maxInstances);
    ghost var defaults := seq(|sources|, i requires 0 <= i < |sources| => sources[i].defaultInstances);
    for n := 0 to |sources|
      invariant FirstGiven(mins, 0) == if min.Some? then min.value else FirstGiven(mins[n..], 0)
      invariant FirstGiven(maxs, 1) == if max.Some? then max.value else FirstGiven(maxs[n..], 1)
      invariant FirstGiven(defaults, 1) == if default.Some? then default.value else FirstGiven(defaults[n..], 1)
    {
      assert mins[n..][1..] == mins[n + 1..] && maxs[n..][1..] == maxs[n + 1..]
             && defaults[n..][1..] == defaults[n + 1..];
      if min.None? {
        min := sources[n].minInstances;
      }
      if max.None? {
        max := sources[n].maxInstances;
      }
      if default.None? {
        default := sources[n].defaultInstances;
      }
    }
    s := Scaling(if min.Some? then min.value else 0, if max.Some? then max.value else 1,
                 if default.Some? then default.value else 1);
  }

  // ----- Instantiation

  datatype NodeTemplate = NodeTemplate(name: string, sources: seq<Properties>)

  /** The number of nodes a template gives a new service; Python's range of a negative number is empty. */
  function Instances(template: NodeTemplate): nat {
    var count := ScalingOf(template.sources).defaultInstances;
    if count < 0 then 0 else count
  }

  /** The template gives a new service that many nodes: the default number, or none if that is negative. */
  ghost predicate Yields(template: NodeTemplate, count: int) {
    exists s :: ScalingFrom(template.sources, s) && count == if s.defaultInstances < 0 then 0 else s.defaultInstances
  }

  /** Its scaling is out of order. */
  ghost predicate OutOfOrder(template: NodeTemplate) {
    exists s ::
      ScalingFrom(template.sources, s) && !(0 <= s.minInstances <= s.defaultInstances <= s.maxInstances)
  }

  lemma YieldsInstances(template: NodeTemplate, count: int)
    ensures Yields(template, count) <==> count == Instances(template)
    ensures OutOfOrder(template) <==> ScalingReported(ScalingOf(template.sources))
  {
    var scaling := ScalingOf(template.sources);
    ScalingOfMeans(template.sources, scaling);
    forall s | ScalingFrom(template.sources, s)
      ensures s == scaling
    {
      ScalingOfMeans(template.sources, s);
    }
  }

  /** Without any scaling properties there is one node, and nothing to report. */
  lemma UnscaledYieldsOne(template: NodeTemplate)
    requires forall i | 0 <= i < |template.sources| :: template.sources[i] == Properties(None, None, None)
    ensures Yields(template, 1) && !OutOfOrder(template)
  {
    assert ScalingFrom(template.sources, Scaling(0, 1, 1));
  }

  function TotalInstances(templates: seq<NodeTemplate>): nat {
    if templates == [] then 0 else TotalInstances(templates[..|templates| - 1]) + Instances(templates[|templates| - 1])
  }

  /** Every node has the template's name and some index. */
  ghost predicate NamedAfter(template: string, nodes: seq<string>) {
    forall i | 0 <= i < |nodes| :: exists index :: nodes[i] == NodeName(template, index)
  }

  /** Every node name ends with an index. */
  predicate Indexed(nodes: seq<string>) {
    forall i | 0 <= i < |nodes| :: D.AllDigits(Suffix(nodes[i]))
  }

  lemma NamedIndexed(template: string, nodes: seq<string>)
    requires NamedAfter(template, nodes)
    ensures Indexed(nodes) && forall i | 0 <= i < |nodes| :: nodes[i] == NodeName(template, IndexOf(nodes[i]))
  {
    forall i | 0 <= i < |nodes|
      ensures D.AllDigits(Suffix(nodes[i])) && nodes[i] == NodeName(template, IndexOf(nodes[i]))
    {
      var index :| nodes[i] == NodeName(template, index);
      IndexRecovered(template, index);
    }
  }

  /** The highest of the numbers, or 0. */
  method Highest(numbers: seq<nat>) returns (highest: nat)
    ensures forall i | 0 <= i < |numbers| :: numbers[i] <= highest
    ensures highest == 0 || highest in numbers
  {
    highest := 0;
    for n := 0 to |numbers|
      invariant forall i | 0 <= i < n :: numbers[i] <= highest
      invariant highest == 0 || highest in numbers
    {
      if numbers[n] > highest {
        highest := numbers[n];
      }
    }
  }

  /** `_next_index`: one more than the highest index so far, so that the next name is a new one. */
  method NextIndex(template: string, nodes: seq<string>) returns (index: nat)
    requires NamedAfter(template, nodes)
    ensures index > 0 && NodeName(template, index) !in nodes
    ensures forall k: nat | NodeName(template, k) in nodes :: k < index
    ensures index == 1 || NodeName(template, index - 1) in nodes
  {
    NamedIndexed(template, nodes);
    var indices := seq(|nodes|, i requires 0 <= i < |nodes| => IndexOf(nodes[i]));
    var highest := Highest(indices);
    index := highest + 1;
    forall k: nat | NodeName(template, k) in nodes
      ensures k <= highest
    {
      var i :| 0 <= i < |nodes| && nodes[i] == NodeName(template, k);
      IndexRecovered(template, k);
      assert indices[i] == k;
    }
  }

  /** A name that the template gave to a node after the nodes it had before. */
  ghost predicate IsNew(before: map<string, seq<string>>, nodes: map<string, seq<string>>, template: string,
          node: string) {
    template in before && template in nodes && node in nodes[template] && node !in before[template]
  }

  /** The nodes of each template, by template name; earlier services may have left some. */
  class ServiceTemplate {
    const templates: seq<NodeTemplate>
    var nodes: map<string, seq<string>>

    ghost predicate Valid()
      reads this
    {
      && (forall i, j | 0 <= i < j < |templates| :: templates[i].name != templates[j].name)
      && (forall i | 0 <= i < |templates| :: templates[i].name in nodes)
      && (forall t | t in nodes :: NamedAfter(t, nodes[t]))
    }

    constructor (templates: seq<NodeTemplate>)
      requires forall i, j | 0 <= i < j < |templates| :: templates[i].name != templates[j].name
      ensures this.templates == templates && Valid()
      ensures forall t | t in nodes :: nodes[t] == []
    {
      this.templates := templates;
      this.nodes := map i | 0 <= i < |templates| :: templates[i].name := [];
    }

    /** NodeTemplate.instantiate, as far as the name goes. */
    method InstantiateNode(template: string) returns (node: string)
      requires Valid() && template in nodes
      modifies this
      ensures Valid() && nodes == old(nodes)[template := old(nodes)[template] + [node]]
      ensures node !in old(nodes)[template] && exists index :: node == NodeName(template, index)
    {
      var index := NextIndex(template, nodes[template]);
      node := NodeName(template, index);
      nodes := nodes[template := nodes[template] + [node]];
    }

    /** The turn of one template: its new nodes join those of the service. */
    method InstantiateTemplate(template: NodeTemplate, service: map<string, string>,
            ghost before: map<string, seq<string>>)
      returns (service': map<string, string>, ghost added: seq<string>)
      requires Valid() && template.name in nodes && before.Keys == nodes.Keys
      requires Matches(before, nodes, service) && before[template.name] <= nodes[template.name]
      modifies this
      ensures Valid() && nodes == old(nodes)[template.name := old(nodes)[template.name] + added]
      ensures |added| == Instances(template) && Yields(template, |added|)
      ensures |service'| == |service| + |added| && Matches(before, nodes, service')
    {
      service', added := service, [];
      YieldsInstances(template, Instances(template));
      assert nodes[template.name] + [] == nodes[template.name];
      for k := 0 to Instances(template)
        invariant Valid() && |added| == k
        invariant nodes == old(nodes)[template.name := old(nodes)[template.name] + added]
        invariant |service'| == |service| + k && Matches(before, nodes, service')
      {
        ghost var nodes0 := nodes;
        var node := InstantiateNode(template.name);
        assert old(nodes)[template.name] + added + [node] == old(nodes)[template.name] + (added + [node]);
        MatchesGrows(before, nodes0, service', template.name, node);
        service', added := service'[node := template.name], added + [node];
      }
    }

    /**
     The node loop of ServiceTemplate.instantiate: the new service's nodes with their templates, and the
     templates with bad scaling. All names are new and distinct, and none is lost.
     */
    method InstantiateService() returns (service: map<string, string>, reported: set<string>)
      requires Valid()
      modifies this
      ensures Valid() && nodes.Keys == old(nodes.Keys)
      ensures |service| == TotalInstances(templates)
      ensures TurnsTaken(templates, old(nodes), nodes, |templates|)
      ensures Matches(old(nodes), nodes, service)
      ensures ReportedUpTo(templates, reported, |templates|)
      ensures AllYield(templates, old(nodes), nodes)
    {
      service, reported := map[], {};
      for n := 0 to |templates|
        invariant Valid() && nodes.Keys == old(nodes.Keys)
        invariant TurnsTaken(templates, old(nodes), nodes, n)
        invariant |service| == TotalInstances(templates[..n])
        invariant Matches(old(nodes), nodes, service)
        invariant ReportedUpTo(templates, reported, n)
      {
        assert templates[..n + 1][..n] == templates[..n];
        var scaling := CollectScaling(templates[n].sources);
        ghost var reported0 := reported;
        if ScalingReported(scaling) {
          reported := reported + {templates[n].name};
        }
        ReportedStep(templates, reported0, n, reported);
        ghost var nodes0, added := nodes, [];
        service, added := InstantiateTemplate(templates[n], service, old(nodes));
        TurnStep(templates, old(nodes), nodes0, n, added);
      }
      assert templates[..|templates|] == templates;
      TurnsYield(templates, old(nodes), nodes);
    }
  }

  /** Of the first n templates, those with bad scaling are reported, and no others. */
  ghost predicate ReportedUpTo(templates: seq<NodeTemplate>, reported: set<string>, n: nat)
    requires n <= |templates|
  {
    && (forall i | 0 <= i < n :: templates[i].name in reported <==> OutOfOrder(templates[i]))
    && (forall i | n <= i < |templates| :: templates[i].name !in reported)
  }

  lemma ReportedStep(templates: seq<NodeTemplate>, reported: set<string>, n: nat, reported': set<string>)
    requires forall i, j | 0 <= i < j < |templates| :: templates[i].name != templates[j].name
    requires n < |templates| && ReportedUpTo(templates, reported, n)
    requires reported' ==
             if ScalingReported(ScalingOf(templates[n].sources)) then reported + {templates[n].name} else reported
    ensures ReportedUpTo(templates, reported', n + 1)
  {
    YieldsInstances(templates[n], 0);
  }

  /** Every template has got as many new nodes as it yields. */
  ghost predicate AllYield(templates: seq<NodeTemplate>, before: map<string, seq<string>>,
          nodes: map<string, seq<string>>) {
    forall i | 0 <= i < |templates| ::
      && templates[i].name in before && templates[i].name in nodes
      && Yields(templates[i], |nodes[templates[i].name]| - |before[templates[i].name]|)
  }

  lemma TurnsYield(templates: seq<NodeTemplate>, before: map<string, seq<string>>, nodes: map<string, seq<string>>)
    requires TurnsTaken(templates, before, nodes, |templates|)
    ensures AllYield(templates, before, nodes)
  {
    forall i | 0 <= i < |templates|
      ensures Yields(templates[i], Instances(templates[i]))
    {
      YieldsInstances(templates[i], Instances(templates[i]));
    }
  }

  /** The service holds exactly the new names, each with its template. */
  ghost predicate Matches(before: map<string, seq<string>>, nodes: map<string, seq<string>>,
          service: map<string, string>) {
    forall node, t :: IsNew(before, nodes, t, node) <==> node in service && service[node] == t
  }

  /** The templates before number n have had their turn, the others have not. */
  ghost predicate TurnsTaken(templates: seq<NodeTemplate>, before: map<string, seq<string>>,
          nodes: map<string, seq<string>>, n: nat)
  {
    && n <= |templates| && before.Keys == nodes.Keys
    && (forall i | 0 <= i < |templates| :: templates[i].name in nodes)
    && (forall i | 0 <= i < n ::
          && before[templates[i].name] <= nodes[templates[i].name]
          && |nodes[templates[i].name]| == |before[templates[i].name]| + Instances(templates[i]))
    && (forall i | n <= i < |templates| :: nodes[templates[i].name] == before[templates[i].name])
  }

  lemma TurnStep(templates: seq<NodeTemplate>, before: map<string, seq<string>>, nodes: map<string, seq<string>>,
          n: nat, added: seq<string>)
    requires forall i, j | 0 <= i < j < |templates| :: templates[i].name != templates[j].name
    requires TurnsTaken(templates, before, nodes, n) && n < |templates| && |added| == Instances(templates[n])
    ensures TurnsTaken(templates, before, nodes[templates[n].name := nodes[templates[n].name] + added], n + 1)
  {
  }

  /** A name new to its template is new to the service: no other template can have given it. */
  lemma FreshName(before: map<string, seq<string>>, nodes: map<string, seq<string>>, service: map<string, string>,
          template: string, node: string)
    requires template in nodes && template in before && node !in nodes[template] && before.Keys == nodes.Keys
    requires before[template] <= nodes[template]
    requires forall t | t in nodes :: NamedAfter(t, nodes[t])
    requires exists index :: node == NodeName(template, index)
    requires Matches(before, nodes, service)
    ensures node !in service && node !in before[template]
  {
    if node in service {
      var t := service[node];
      assert IsNew(before, nodes, t, node);
      var i :| 0 <= i < |nodes[t]| && nodes[t][i] == node;
      var index :| nodes[t][i] == NodeName(t, index);
      var index' :| node == NodeName(template, index');
      NamesDistinct(t, index, template, index');
      assert false;
    }
  }

  lemma MatchesGrows(before: map<string, seq<string>>, nodes: map<string, seq<string>>, service: map<string, string>,
          template: string, node: string)
    requires template in nodes && template in before && node !in nodes[template] && before.Keys == nodes.Keys
    requires before[template] <= nodes[template]
    requires forall t | t in nodes :: NamedAfter(t, nodes[t])
    requires exists index :: node == NodeName(template, index)
    requires Matches(before, nodes, service)
    ensures node !in service
    ensures Matches(before, nodes[template := nodes[template] + [node]], service[node := template])
  {
    FreshName(before, nodes, service, template, node);
    var nodes' := nodes[template := nodes[template] + [node]];
    forall m, t
      ensures IsNew(before, nodes', t, m) <==> IsNew(before, nodes, t, m) || (m == node && t == template)
    {
      assert t == template && t in nodes ==> (m in nodes'[t] <==> m in nodes[t] || m == node);
    }
  }
}
