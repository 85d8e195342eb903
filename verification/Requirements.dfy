/**
 Requirement satisfaction of aria/orchestrator/topology/instance_handler.py, as functions of the graph.

 A site is a service template and the nodes instantiated from it so far, those of earlier services
 included, in order of creation. The graph over it is what satisfying requirements changes. Node and
 template numbers stand for the model objects; a requirement is a number within its node template.
 */
module Requirements {
  import opened Wrappers
  import opened Types

  datatype CapabilityTemplate = CapabilityTemplate(
    name: string, typeName: string, minOccurrences: Option<int>, maxOccurrences: Option<int>, validSources: seq<Type>)

  datatype RequirementTemplate = RequirementTemplate(
    name: string,
    targetTemplate: Option<nat>,
    targetNodeType: Option<Type>,
    targetCapabilityType: Option<Type>,
    targetCapabilityName: Option<string>,
    constraints: seq<Constraint>)

  datatype NodeTemplate = NodeTemplate(
    name: string, typeName: string, capabilities: seq<CapabilityTemplate>, requirements: seq<RequirementTemplate>,
    constraints: seq<Constraint>)

  /** A constraint by number; `Site.matches` says whether it accepts a source and a target template. */
  type Constraint = nat

  datatype Site = Site(templates: seq<NodeTemplate>, nodes: seq<nat>, matches: (Constraint, nat, nat) -> bool) {
    predicate Valid() {
      && (forall n | 0 <= n < |nodes| :: nodes[n] < |templates|)
      && (forall t | 0 <= t < |templates| :: TemplateValid(templates[t]))
    }

    predicate TemplateValid(t: NodeTemplate) {
      && (forall c, d | 0 <= c < d < |t.capabilities| :: t.capabilities[c].name != t.capabilities[d].name)
      && (forall r | 0 <= r < |t.requirements| :: t.requirements[r].targetTemplate.Some? ==>
          t.requirements[r].targetTemplate.value < |templates|)
    }

    function TemplateOf(n: nat): NodeTemplate
      requires Valid() && n < |nodes|
    {
      templates[nodes[n]]
    }
  }

  datatype CapabilityId = CapabilityId(node: nat, name: string)

  datatype Relationship = Relationship(source: nat, requirement: nat, target: nat, capability: Option<string>)

  datatype Issue =
    | NoTarget(requirement: string, node: nat)
    | ConstraintMismatch(requirement: string, template: nat, target: nat)
    | NoCapacity(requirement: string, node: nat, target: nat)
    | NoInstances(requirement: string, node: nat, target: nat)
    | TooFewRelationships(capability: string, node: nat)

  /** Occurrences of capability instances (0 where none is noted), relationships in order of creation, issues. */
  datatype Graph = Graph(occurrences: map<CapabilityId, int>, relationships: seq<Relationship>, issues: seq<Issue>)

  function Occurrences(g: Graph, node: nat, name: string): int {
    if CapabilityId(node, name) in g.occurrences then g.occurrences[CapabilityId(node, name)] else 0
  }

  /** Reporting an issue that was reported before does nothing. */
  function Report(g: Graph, issue: Issue): Graph {
    if issue in g.issues then g else g.(issues := g.issues + [issue])
  }

  function HasRoom(max: Option<int>, occurrences: int): bool {
    max.None? || occurrences != max.value
  }

  function HasEnough(min: Option<int>, occurrences: int): bool {
    min.None? || occurrences >= min.value
  }

  // ----- Finding the target

  predicate AllMatch(site: Site, constraints: seq<Constraint>, source: nat, target: nat) {
    forall c | c in constraints :: site.matches(c, source, target)
  }

  predicate AllDescend(types: seq<Type>, name: string) {
    forall t | t in types :: GetDescendant(t, name).Some?
  }

  predicate SatisfiesRequirement(site: Site, source: nat, req: RequirementTemplate, target: nat,
          cap: CapabilityTemplate)
    requires source < |site.templates|
  {
    && (req.targetCapabilityType.Some? ==> GetDescendant(req.targetCapabilityType.value, cap.typeName).Some?)
    && AllDescend(cap.validSources, site.templates[source].typeName)
    && AllMatch(site, req.constraints, source, target)
  }

  /** The first capability from position c on that satisfies the requirement. */
  function GetCapability(site: Site, source: nat, req: RequirementTemplate, target: nat,
          c: nat): (r: Option<CapabilityTemplate>)
    requires source < |site.templates| && target < |site.templates| && c <= |site.templates[target].capabilities|
    ensures r.Some? ==>
              r.value in site.templates[target].capabilities && SatisfiesRequirement(site, source, req, target, r.value)
    ensures r.None? ==> forall d | c <= d < |site.templates[target].capabilities| ::
                          !SatisfiesRequirement(site, source, req, target, site.templates[target].capabilities[d])
    decreases |site.templates[target].capabilities| - c
  {
    var capabilities := site.templates[target].capabilities;
    if c == |capabilities| then None
    else if SatisfiesRequirement(site, source, req, target, capabilities[c]) then Some(capabilities[c])
    else GetCapability(site, source, req, target, c + 1)
  }

  datatype Target = Missing | Found(template: nat, capability: Option<CapabilityTemplate>)

  /** The template fits a requirement that names only a node type or only a capability type. */
  predicate Fits(site: Site, source: nat, req: RequirementTemplate, t: nat)
    requires source < |site.templates| && t < |site.templates|
  {
    && (req.targetNodeType.Some? ==>
          GetDescendant(req.targetNodeType.value, site.templates[t].typeName).Some?
              && AllMatch(site, site.templates[source].constraints, source, t))
    && GetCapability(site, source, req, t, 0).Some?
  }

  /** The first fitting template from number t on. */
  function Search(site: Site, source: nat, req: RequirementTemplate, t: nat): (r: Target)
    requires source < |site.templates| && t <= |site.templates|
    ensures r.Found? ==> r.template < |site.templates| && r.capability.Some? && Fits(site, source, req, r.template)
                         && r.capability == GetCapability(site, source, req, r.template, 0)
                         && forall u | t <= u < r.template :: !Fits(site, source, req, u)
    ensures r.Missing? ==> forall u | t <= u < |site.templates| :: !Fits(site, source, req, u)
    decreases |site.templates| - t
  {
    if t == |site.templates| then Missing
    else if Fits(site, source, req, t) then Found(t, GetCapability(site, source, req, t, 0))
    else Search(site, source, req, t + 1)
  }

  function FindTarget(site: Site, source: nat, req: RequirementTemplate): Target
    requires source < |site.templates| && (req.targetTemplate.Some? ==> req.targetTemplate.value < |site.templates|)
  {
    if req.targetTemplate.Some? then
      var t := req.targetTemplate.value;
      if req.targetCapabilityType.None? && req.targetCapabilityName.None? then Found(t, None)
      else
        var cap := GetCapability(site, source, req, t, 0);
        if cap.None? then Missing else Found(t, cap)
    else if req.targetNodeType.None? && req.targetCapabilityType.None? then Missing
    else Search(site, source, req, 0)
  }

  // ----- What the target is, over positions

  /** Position c of template t holds a capability of the right type, for such a source, that meets all constraints. */
  ghost predicate Offers(site: Site, source: nat, req: RequirementTemplate, t: nat, c: nat)
    requires source < |site.templates|
  {
    && t < |site.templates| && c < |site.templates[t].capabilities|
    && var cap := site.templates[t].capabilities[c];
    && (req.targetCapabilityType.Some? ==> Descends(req.targetCapabilityType.value, cap.typeName))
    && (forall i | 0 <= i < |cap.validSources| :: Descends(cap.validSources[i], site.templates[source].typeName))
    && (forall i | 0 <= i < |req.constraints| :: site.matches(req.constraints[i], source, t))
  }

  /** The target meets every constraint that the source template has on its targets. */
  ghost predicate MeetsConstraints(site: Site, source: nat, target: nat)
    requires source < |site.templates|
  {
    forall i | 0 <= i < |site.templates[source].constraints| ::
      site.matches(site.templates[source].constraints[i], source, target)
  }

  /** If the requirement names a node type, the template is of that type and meets the source's constraints. */
  ghost predicate Qualifies(site: Site, source: nat, req: RequirementTemplate, t: nat)
    requires source < |site.templates| && t < |site.templates|
  {
    req.targetNodeType.Some? ==>
      Descends(req.targetNodeType.value, site.templates[t].typeName) && MeetsConstraints(site, source, t)
  }

  /** Position c is the first of template t that offers what is required. */
  ghost predicate FirstOffer(site: Site, source: nat, req: RequirementTemplate, t: nat, c: nat)
    requires source < |site.templates|
  {
    Offers(site, source, req, t, c) && forall d: nat | d < c :: !Offers(site, source, req, t, d)
  }

  /** No template before number t both qualifies and offers what is required. */
  ghost predicate NoneBefore(site: Site, source: nat, req: RequirementTemplate, t: nat)
    requires source < |site.templates| && t <= |site.templates|
  {
    forall u: nat, d: nat | u < t && Offers(site, source, req, u, d) :: !Qualifies(site, source, req, u)
  }

  /**
   What the target of a requirement must be. A named template is the target, with its first capability on
   offer if the requirement says anything about one. Otherwise it is the first capability on offer of the
   first template that qualifies and has one. There is no target only if there is no such capability.
   */
  ghost predicate IsTarget(site: Site, source: nat, req: RequirementTemplate, target: Target)
    requires source < |site.templates| && (req.targetTemplate.Some? ==> req.targetTemplate.value < |site.templates|)
  {
    match target
    case Found(t, None) =>
      req.targetTemplate == Some(t) && req.targetCapabilityType.None? && req.targetCapabilityName.None?
    case Found(t, Some(cap)) =>
      && t < |site.templates|
      && (exists c: nat :: FirstOffer(site, source, req, t, c) && site.templates[t].capabilities[c] == cap)
      && (if req.targetTemplate.Some? then
            && req.targetTemplate.value == t
            && (req.targetCapabilityType.Some? || req.targetCapabilityName.Some?)
          else
            && (req.targetNodeType.Some? || req.targetCapabilityType.Some?)
            && Qualifies(site, source, req, t) && NoneBefore(site, source, req, t))
    case Missing =>
      if req.targetTemplate.Some? then
        && (req.targetCapabilityType.Some? || req.targetCapabilityName.Some?)
        && forall c: nat :: !Offers(site, source, req, req.targetTemplate.value, c)
      else
        || (req.targetNodeType.None? && req.targetCapabilityType.None?)
        || NoneBefore(site, source, req, |site.templates|)
  }

  /** The tests on one capability, by chains of types. */
  lemma SatisfiesIffOffers(site: Site, source: nat, req: RequirementTemplate, t: nat, c: nat)
    requires source < |site.templates| && t < |site.templates| && c < |site.templates[t].capabilities|
    ensures SatisfiesRequirement(site, source, req, t, site.templates[t].capabilities[c]) <==>
            Offers(site, source, req, t, c)
  {
    var cap := site.templates[t].capabilities[c];
    var name := site.templates[source].typeName;
    if req.targetCapabilityType.Some? {
      DescendantByChain(req.targetCapabilityType.value, cap.typeName);
    }
    forall i | 0 <= i < |cap.validSources|
      ensures GetDescendant(cap.validSources[i], name).Some? <==> Descends(cap.validSources[i], name)
      ensures cap.validSources[i] in cap.validSources
    {
      DescendantByChain(cap.validSources[i], name);
    }
  }

  /** The capability found in a template, from position c on, is the first on offer. */
  lemma {:induction false} CapabilityMeans(site: Site, source: nat, req: RequirementTemplate, t: nat, c: nat)
    requires source < |site.templates| && t < |site.templates| && c <= |site.templates[t].capabilities|
    requires forall d: nat | d < c :: !Offers(site, source, req, t, d)
    ensures match GetCapability(site, source, req, t, c)
            case None => forall d: nat :: !Offers(site, source, req, t, d)
            case Some(cap) =>
              exists d: nat :: FirstOffer(site, source, req, t, d) && site.templates[t].capabilities[d] == cap
    decreases |site.templates[t].capabilities| - c
  {
    if c < |site.templates[t].capabilities| {
      SatisfiesIffOffers(site, source, req, t, c);
      if Offers(site, source, req, t, c) {
        assert FirstOffer(site, source, req, t, c);
      } else {
        CapabilityMeans(site, source, req, t, c + 1);
      }
    }
  }

  lemma ConstraintsMeans(site: Site, source: nat, target: nat)
    requires source < |site.templates|
    ensures AllMatch(site, site.templates[source].constraints, source, target) <==>
            MeetsConstraints(site, source, target)
  {
    var constraints := site.templates[source].constraints;
    assert forall i | 0 <= i < |constraints| :: constraints[i] in constraints;
  }

  lemma FitsMeans(site: Site, source: nat, req: RequirementTemplate, t: nat)
    requires source < |site.templates| && t < |site.templates|
    ensures Fits(site, source, req, t) <==>
            Qualifies(site, source, req, t) && exists c: nat :: Offers(site, source, req, t, c)
  {
    CapabilityMeans(site, source, req, t, 0);
    ConstraintsMeans(site, source, t);
    if req.targetNodeType.Some? {
      DescendantByChain(req.targetNodeType.value, site.templates[t].typeName);
    }
  }

  /** The target that is found is the one that is meant, and no other one is meant. */
  lemma TargetMeans(site: Site, source: nat, req: RequirementTemplate, target: Target)
    requires source < |site.templates| && (req.targetTemplate.Some? ==> req.targetTemplate.value < |site.templates|)
    ensures target == FindTarget(site, source, req) <==> IsTarget(site, source, req, target)
  {
    TargetIsMeant(site, source, req);
    if IsTarget(site, source, req, target) {
      OneIsMeant(site, source, req, target, FindTarget(site, source, req));
    }
  }

  lemma TargetIsMeant(site: Site, source: nat, req: RequirementTemplate)
    requires source < |site.templates| && (req.targetTemplate.Some? ==> req.targetTemplate.value < |site.templates|)
    ensures IsTarget(site, source, req, FindTarget(site, source, req))
  {
    if req.targetTemplate.Some? {
      CapabilityMeans(site, source, req, req.targetTemplate.value, 0);
    } else {
      forall u | 0 <= u < |site.templates|
        ensures Fits(site, source, req, u) <==>
                Qualifies(site, source, req, u) && exists c: nat :: Offers(site, source, req, u, c)
      {
        FitsMeans(site, source, req, u);
      }
      var found := Search(site, source, req, 0);
      if found.Found? {
        CapabilityMeans(site, source, req, found.template, 0);
      }
    }
  }

  lemma OneIsMeant(site: Site, source: nat, req: RequirementTemplate, a: Target, b: Target)
    requires source < |site.templates| && (req.targetTemplate.Some? ==> req.targetTemplate.value < |site.templates|)
    requires IsTarget(site, source, req, a) && IsTarget(site, source, req, b)
    ensures a == b
  {
    if a.Found? && a.capability.Some? {
      var c: nat :| FirstOffer(site, source, req, a.template, c)
                    && site.templates[a.template].capabilities[c] == a.capability.value;
      if b.Found? && b.capability.Some? {
        var d: nat :| FirstOffer(site, source, req, b.template, d)
                      && site.templates[b.template].capabilities[d] == b.capability.value;
        assert a.template == b.template;
        assert c == d;
      }
    }
  }

  /** A named target template that does not meet the constraints is reported, and used all the same. */
  function ReportMismatch(site: Site, g: Graph, source: nat, req: RequirementTemplate): Graph
    requires source < |site.templates|
  {
    if req.targetTemplate.Some? && !AllMatch(site, site.templates[source].constraints, source, req.targetTemplate.value)
    then Report(g, ConstraintMismatch(req.name, source, req.targetTemplate.value))
    else g
  }

  // ----- Relating to a target node

  /** The first instance of the template, from node i on. */
  function FirstInstance(site: Site, t: nat, i: nat): (r: Option<nat>)
    ensures r.Some? ==>
              && i <= r.value < |site.nodes| && site.nodes[r.value] == t
              && forall j | i <= j < r.value :: site.nodes[j] != t
    ensures r.None? ==> forall j | i <= j < |site.nodes| :: site.nodes[j] != t
    decreases |site.nodes| - i
  {
    if i >= |site.nodes| then None else if site.nodes[i] == t then Some(i) else FirstInstance(site, t, i + 1)
  }

  predicate RoomAt(site: Site, g: Graph, t: nat, cap: CapabilityTemplate, i: nat)
    requires i < |site.nodes|
  {
    site.nodes[i] == t && HasRoom(cap.maxOccurrences, Occurrences(g, i, cap.name))
  }

  /** The first instance of the template, from node i on, whose capability has room. */
  function FirstWithRoom(site: Site, g: Graph, t: nat, cap: CapabilityTemplate, i: nat): (r: Option<nat>)
    ensures r.Some? ==> i <= r.value < |site.nodes| && RoomAt(site, g, t, cap, r.value)
                        && forall j | i <= j < r.value :: !RoomAt(site, g, t, cap, j)
    ensures r.None? ==> forall j | i <= j < |site.nodes| :: !RoomAt(site, g, t, cap, j)
    decreases |site.nodes| - i
  {
    if i >= |site.nodes| then None
    else if RoomAt(site, g, t, cap, i) then Some(i)
    else FirstWithRoom(site, g, t, cap, i + 1)
  }

  function Relate(g: Graph, node: nat, name: string): Graph {
    g.(occurrences := g.occurrences[CapabilityId(node, name) := Occurrences(g, node, name) + 1])
  }

  function AddRelationship(g: Graph, r: Relationship): Graph {
    g.(relationships := g.relationships + [r])
  }

  datatype Satisfied = Satisfied(graph: Graph, flag: bool)

  function SatisfyCapability(site: Site, g: Graph, n: nat, r: nat, t: nat, cap: Option<CapabilityTemplate>): Satisfied
    requires site.Valid() && n < |site.nodes| && r < |site.TemplateOf(n).requirements|
  {
    var name := site.TemplateOf(n).requirements[r].name;
    if FirstInstance(site, t, 0).None? then Satisfied(Report(g, NoInstances(name, n, t)), false)
    else if cap.None? then
      Satisfied(AddRelationship(g, Relationship(n, r, FirstInstance(site, t, 0).value, None)), true)
    else
      var found := FirstWithRoom(site, g, t, cap.value, 0);
      if found.Some? then
        Satisfied(AddRelationship(Relate(g, found.value, cap.value.name),
                                  Relationship(n, r, found.value, Some(cap.value.name))), true)
      else Satisfied(Report(g, NoCapacity(name, n, t)), false)
  }

  predicate IsSatisfied(g: Graph, n: nat, r: nat) {
    exists i :: 0 <= i < |g.relationships| && g.relationships[i].source == n && g.relationships[i].requirement == r
  }

  /** One round of the loop over the requirements; the flag says what becomes of `satisfied`. */
  function SatisfyRequirement(site: Site, g: Graph, n: nat, r: nat, flag: bool): Satisfied
    requires site.Valid() && n < |site.nodes| && r < |site.TemplateOf(n).requirements|
  {
    var req := site.TemplateOf(n).requirements[r];
    if IsSatisfied(g, n, r) then Satisfied(g, flag)
    else
      var g' := ReportMismatch(site, g, site.nodes[n], req);
      assert site.TemplateValid(site.TemplateOf(n));
      match FindTarget(site, site.nodes[n], req)
      case Found(t, cap) => SatisfyCapability(site, g', n, r, t, cap)
      case Missing => Satisfied(Report(g', NoTarget(req.name, n)), false)
  }

  function SatisfyNode(site: Site, g: Graph, n: nat, r: nat, flag: bool): Satisfied
    requires site.Valid() && n < |site.nodes| && r <= |site.TemplateOf(n).requirements|
    decreases |site.TemplateOf(n).requirements| - r
  {
    if r == |site.TemplateOf(n).requirements| then Satisfied(g, flag)
    else
      var s := SatisfyRequirement(site, g, n, r, flag);
      SatisfyNode(site, s.graph, n, r + 1, s.flag)
  }

  /** `all` over the nodes of the service, from position k on: it stops at the first node that returns False. */
  function SatisfyService(site: Site, g: Graph, service: seq<nat>, k: nat): Satisfied
    requires site.Valid() && k <= |service| && forall i | 0 <= i < |service| :: service[i] < |site.nodes|
    decreases |service| - k
  {
    if k == |service| then Satisfied(g, true)
    else
      var s := SatisfyNode(site, g, service[k], 0, true);
      if s.flag then SatisfyService(site, s.graph, service, k + 1) else s
  }

  // ----- Validating capabilities

  function ValidateNode(site: Site, g: Graph, n: nat, c: nat): Graph
    requires site.Valid() && n < |site.nodes| && c <= |site.TemplateOf(n).capabilities|
    decreases |site.TemplateOf(n).capabilities| - c
  {
    if c == |site.TemplateOf(n).capabilities| then g
    else
      var cap := site.TemplateOf(n).capabilities[c];
      var g' := if HasEnough(cap.minOccurrences, Occurrences(g, n, cap.name)) then g
          else Report(g, TooFewRelationships(cap.name, n));
      ValidateNode(site, g', n, c + 1)
  }

  function ValidateService(site: Site, g: Graph, service: seq<nat>, k: nat): Graph
    requires site.Valid() && k <= |service| && forall i | 0 <= i < |service| :: service[i] < |site.nodes|
    decreases |service| - k
  {
    if k == |service| then g else ValidateService(site, ValidateNode(site, g, service[k], 0), service, k + 1)
  }
}
