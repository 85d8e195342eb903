/** What satisfying requirements keeps, and what it means that no issue was reported. */
module RequirementProofs {
  import opened Wrappers
  import opened Types
  import opened Requirements

  /** How many relationships target the capability of a node. */
  function Targeting(relationships: seq<Relationship>, node: nat, name: string): nat {
    if relationships == [] then 0
    else
      var last := relationships[|relationships| - 1];
      Targeting(relationships[..|relationships| - 1], node, name)
      + if last.target == node && last.capability == Some(name) then 1 else 0
  }

  /** How many relationships a node has for one of its requirements. */
  function Fulfilling(relationships: seq<Relationship>, n: nat, r: nat): nat {
    if relationships == [] then 0
    else
      var last := relationships[|relationships| - 1];
      Fulfilling(relationships[..|relationships| - 1], n, r)
          + if last.source == n && last.requirement == r then 1 else 0
  }

  lemma CountsAppend(relationships: seq<Relationship>, rel: Relationship)
    ensures forall node, name :: Targeting(relationships + [rel], node, name) ==
              Targeting(relationships, node, name) + if rel.target == node && rel.capability == Some(name) then 1 else 0
    ensures forall n, r :: Fulfilling(relationships + [rel], n, r) ==
              Fulfilling(relationships, n, r) + if rel.source == n && rel.requirement == r then 1 else 0
  {
  }

  lemma {:induction false} FulfillingZero(relationships: seq<Relationship>, n: nat, r: nat)
    ensures Fulfilling(relationships, n, r) == 0 <==>
            forall i | 0 <= i < |relationships| :: !(relationships[i].source == n && relationships[i].requirement == r)
  {
    if relationships != [] {
      var k := |relationships| - 1;
      FulfillingZero(relationships[..k], n, r);
      assert forall i | 0 <= i < k :: relationships[..k][i] == relationships[i];
    }
  }

  /** Occurrences count the relationships that target a capability. */
  ghost predicate Conserved(g: Graph) {
    forall node: nat, name :: Occurrences(g, node, name) == Targeting(g.relationships, node, name)
  }

  /** No capability with a maximum of 0 or more exceeds it. */
  ghost predicate WithinMax(site: Site, g: Graph)
    requires site.Valid()
  {
    forall n, c | 0 <= n < |site.nodes| && 0 <= c < |site.TemplateOf(n).capabilities| ::
      var cap := site.TemplateOf(n).capabilities[c];
      cap.maxOccurrences.Some? && cap.maxOccurrences.value >= 0 ==>
            Occurrences(g, n, cap.name) <= cap.maxOccurrences.value
  }

  /** What a relationship must be for its requirement, whatever the search that made it. */
  ghost predicate RelationshipOk(site: Site, rel: Relationship) {
    && site.Valid() && rel.source < |site.nodes| && rel.requirement < |site.TemplateOf(rel.source).requirements|
       && rel.target < |site.nodes|
    && var req, source, target := site.TemplateOf(rel.source).requirements[rel.requirement], site.nodes[rel.source],
       site.nodes[rel.target];
    && (req.targetTemplate.Some? ==> req.targetTemplate.value == target)
    && (req.targetTemplate.None? && req.targetNodeType.Some? ==>
          && Descends(req.targetNodeType.value, site.templates[target].typeName)
          && MeetsConstraints(site, source, target))
    && (match rel.capability
        case None => req.targetTemplate.Some? && req.targetCapabilityType.None? && req.targetCapabilityName.None?
        case Some(name) =>
          exists c: nat ::
                Offers(site, source, req, target, c) && site.templates[target].capabilities[c].name == name)
  }

  /** A named target also meets the constraints of the source template. */
  ghost predicate ConstraintsOk(site: Site, rel: Relationship)
    requires RelationshipOk(site, rel)
  {
    site.TemplateOf(rel.source).requirements[rel.requirement].targetTemplate.Some? ==>
      MeetsConstraints(site, site.nodes[rel.source], site.nodes[rel.target])
  }

  /** The capability of node i is at its maximum. */
  predicate FullAt(g: Graph, cap: CapabilityTemplate, i: nat) {
    cap.maxOccurrences == Some(Occurrences(g, i, cap.name))
  }

  /** The template has instances, and the capability is at its maximum at each of them. */
  ghost predicate AllFull(site: Site, g: Graph, t: nat, c: nat) {
    && t < |site.templates| && c < |site.templates[t].capabilities|
    && (exists i :: 0 <= i < |site.nodes| && site.nodes[i] == t)
    && forall i: nat | i < |site.nodes| && site.nodes[i] == t :: FullAt(g, site.templates[t].capabilities[c], i)
  }

  /** A reason to report the issue while requirements are satisfied; it stays one as the graph grows. */
  ghost predicate Justified(site: Site, g: Graph, issue: Issue) {
    match issue
    case NoTarget(name, n) => exists r :: HasNoTarget(site, n, r, name)
    case ConstraintMismatch(name, source, target) =>
      && source < |site.templates| && !MeetsConstraints(site, source, target)
      && exists r :: NamesTarget(site.templates[source], r, name, target)
    case NoInstances(name, n, t) => forall i | 0 <= i < |site.nodes| :: site.nodes[i] != t
    case NoCapacity(name, n, t) => exists c :: AllFull(site, g, t, c)
    case TooFewRelationships(_, _) => false
  }

  /** The requirement has that name, and no template is a target for it. */
  ghost predicate HasNoTarget(site: Site, n: nat, r: nat, name: string) {
    && site.Valid() && n < |site.nodes| && r < |site.TemplateOf(n).requirements|
    && var req := site.TemplateOf(n).requirements[r];
    && req.name == name && site.TemplateValid(site.TemplateOf(n)) && IsTarget(site, site.nodes[n], req, Missing)
  }

  predicate NamesTarget(template: NodeTemplate, r: nat, name: string, target: nat) {
    && r < |template.requirements| && template.requirements[r].name == name
    && template.requirements[r].targetTemplate == Some(target)
  }

  ghost predicate OldOrJustified(site: Site, g: Graph, g': Graph, issue: Issue) {
    issue in g'.issues ==> issue in g.issues || Justified(site, g', issue)
  }

  /** What every step, and hence every run, does to a graph. */
  ghost predicate Keeps(site: Site, g: Graph, g': Graph)
    requires site.Valid()
  {
    && g.relationships <= g'.relationships && g.issues <= g'.issues
    && (Conserved(g) ==> Conserved(g'))
    && (WithinMax(site, g) ==> WithinMax(site, g'))
    && (forall i | |g.relationships| <= i < |g'.relationships| :: RelationshipOk(site, g'.relationships[i]))
    && (g'.issues == [] ==>
        forall i | |g.relationships| <= i < |g'.relationships| :: ConstraintsOk(site, g'.relationships[i]))
    && (forall issue :: OldOrJustified(site, g, g', issue))
    && (forall t, c :: AllFull(site, g, t, c) ==> AllFull(site, g', t, c))
    && (forall n: nat, r: nat :: Fulfilling(g.relationships, n, r) <= 1 ==> Fulfilling(g'.relationships, n, r) <= 1)
  }

  lemma KeepsTransitive(site: Site, g: Graph, g': Graph, g'': Graph)
    requires site.Valid() && Keeps(site, g, g') && Keeps(site, g', g'')
    ensures Keeps(site, g, g'')
  {
    forall issue: Issue
      ensures OldOrJustified(site, g, g'', issue)
    {
      assert OldOrJustified(site, g, g', issue) && OldOrJustified(site, g', g'', issue);
    }
  }

  lemma KeepsSelf(site: Site, g: Graph)
    requires site.Valid()
    ensures Keeps(site, g, g)
  {
  }

  lemma NoIssuesBefore(site: Site, g: Graph, g': Graph)
    requires site.Valid() && Keeps(site, g, g') && g'.issues == []
    ensures g.issues == [] && g.relationships <= g'.relationships
  {
  }

  lemma ReportKeeps(site: Site, g: Graph, issue: Issue)
    requires site.Valid() && Justified(site, g, issue)
    ensures Keeps(site, g, Report(g, issue)) && Report(g, issue).issues != []
    ensures Report(g, issue).relationships == g.relationships && Report(g, issue).occurrences == g.occurrences
  {
    forall t: nat, c: nat | AllFull(site, g, t, c)
      ensures AllFull(site, Report(g, issue), t, c)
    {
      assert forall i: nat | FullAt(g, site.templates[t].capabilities[c], i) ::
          FullAt(Report(g, issue), site.templates[t].capabilities[c], i);
    }
  }

  /** Adding a relationship for an unfulfilled requirement, to a capability with room if to any. */
  lemma AddKeeps(site: Site, g: Graph, g': Graph, rel: Relationship)
    requires site.Valid() && !IsSatisfied(g, rel.source, rel.requirement)
    requires RelationshipOk(site, rel) && (g.issues == [] ==> ConstraintsOk(site, rel))
    requires g' == AddRelationship(if rel.capability.Some? then Relate(g, rel.target, rel.capability.value) else g, rel)
    requires rel.capability.Some? ==>
               forall cap | cap in site.TemplateOf(rel.target).capabilities && cap.name == rel.capability.value ::
                 HasRoom(cap.maxOccurrences, Occurrences(g, rel.target, cap.name))
    ensures Keeps(site, g, g') && IsSatisfied(g', rel.source, rel.requirement)
  {
    CountsAppend(g.relationships, rel);
    FulfillingZero(g.relationships, rel.source, rel.requirement);
    assert g'.relationships[|g.relationships|] == rel;
    OneMoreFits(site, g, g', rel);
  }

  /** One more occurrence where there is room: no maximum is exceeded, and what is full is left alone. */
  lemma OneMoreFits(site: Site, g: Graph, g': Graph, rel: Relationship)
    requires site.Valid() && rel.target < |site.nodes|
    requires g'.occurrences == if rel.capability.Some? then Relate(g, rel.target, rel.capability.value).occurrences
                               else g.occurrences
    requires rel.capability.Some? ==>
               forall cap | cap in site.TemplateOf(rel.target).capabilities && cap.name == rel.capability.value ::
                 HasRoom(cap.maxOccurrences, Occurrences(g, rel.target, cap.name))
    ensures WithinMax(site, g) ==> WithinMax(site, g')
    ensures forall t, c :: AllFull(site, g, t, c) ==> AllFull(site, g', t, c)
  {
    forall n, c | WithinMax(site, g) && 0 <= n < |site.nodes| && 0 <= c < |site.TemplateOf(n).capabilities|
      ensures var cap := site.TemplateOf(n).capabilities[c];
              cap.maxOccurrences.Some? && cap.maxOccurrences.value >= 0 ==>
                    Occurrences(g', n, cap.name) <= cap.maxOccurrences.value
    {
      var cap := site.TemplateOf(n).capabilities[c];
      assert cap in site.TemplateOf(n).capabilities;
    }
    forall t: nat, c: nat | AllFull(site, g, t, c)
      ensures AllFull(site, g', t, c)
    {
      var cap := site.templates[t].capabilities[c];
      assert cap in site.templates[t].capabilities;
      assert forall i: nat | FullAt(g, cap, i) && i < |site.nodes| && site.nodes[i] == t :: FullAt(g', cap, i);
    }
  }

  /** What one round of the loop over the requirements does. */
  lemma RequirementKeeps(site: Site, g: Graph, n: nat, r: nat, flag: bool)
    requires site.Valid() && n < |site.nodes| && r < |site.TemplateOf(n).requirements|
    ensures var s := SatisfyRequirement(site, g, n, r, flag);
            && Keeps(site, g, s.graph)
            && (s.graph.issues == [] ==> IsSatisfied(s.graph, n, r) && (flag ==> s.flag))
            && (!s.flag ==> s.graph.issues != [] || !flag)
  {
    var req, source := site.TemplateOf(n).requirements[r], site.nodes[n];
    assert site.TemplateValid(site.TemplateOf(n));
    if !IsSatisfied(g, n, r) {
      var g1 := ReportMismatch(site, g, source, req);
      TargetMeans(site, source, req, FindTarget(site, source, req));
      if g1 != g {
        ConstraintsMeans(site, source, req.targetTemplate.value);
        assert NamesTarget(site.templates[source], r, req.name, req.targetTemplate.value);
        ReportKeeps(site, g, ConstraintMismatch(req.name, source, req.targetTemplate.value));
      }
      match FindTarget(site, source, req) {
        case Missing =>
          assert HasNoTarget(site, n, r, req.name);
          ReportKeeps(site, g1, NoTarget(req.name, n));
          KeepsTransitive(site, g, g1, Report(g1, NoTarget(req.name, n)));
        case Found(t, cap) =>
          CapabilityKeeps(site, g1, n, r, t, cap);
          KeepsTransitive(site, g, g1, SatisfyCapability(site, g1, n, r, t, cap).graph);
      }
    }
  }

  lemma CapabilityKeeps(site: Site, g: Graph, n: nat, r: nat, t: nat, cap: Option<CapabilityTemplate>)
    requires site.Valid() && n < |site.nodes| && r < |site.TemplateOf(n).requirements| && !IsSatisfied(g, n, r)
    requires site.TemplateOf(n).requirements[r].targetTemplate.Some? ==>
               site.TemplateOf(n).requirements[r].targetTemplate.value < |site.templates|
    requires FindTarget(site, site.nodes[n], site.TemplateOf(n).requirements[r]) == Found(t, cap)
    requires g.issues == [] ==> ReportMismatch(site, g, site.nodes[n], site.TemplateOf(n).requirements[r]) == g
    ensures var s := SatisfyCapability(site, g, n, r, t, cap);
            Keeps(site, g, s.graph) && (if s.flag then IsSatisfied(s.graph, n, r) else s.graph.issues != [])
  {
    var req, s := site.TemplateOf(n).requirements[r], SatisfyCapability(site, g, n, r, t, cap);
    TargetMeans(site, site.nodes[n], req, Found(t, cap));
    if FirstInstance(site, t, 0).None? {
      ReportKeeps(site, g, NoInstances(req.name, n, t));
    } else if !s.flag {
      var c: nat :| FirstOffer(site, site.nodes[n], req, t, c) && site.templates[t].capabilities[c] == cap.value;
      forall i: nat | i < |site.nodes| && site.nodes[i] == t
        ensures FullAt(g, cap.value, i)
      {
        assert !RoomAt(site, g, t, cap.value, i);
      }
      assert AllFull(site, g, t, c);
      ReportKeeps(site, g, NoCapacity(req.name, n, t));
    } else {
      if req.targetTemplate.Some? {
        ConstraintsMeans(site, site.nodes[n], t);
      }
      var rel := s.graph.relationships[|g.relationships|];
      var target := rel.target;
      assert site.nodes[target] == t;
      assert site.TemplateValid(site.templates[t]);
      if cap.Some? {
        var c: nat :| FirstOffer(site, site.nodes[n], req, t, c) && site.templates[t].capabilities[c] == cap.value;
        assert Offers(site, site.nodes[n], req, t, c);
      }
      assert RelationshipOk(site, rel);
      AddKeeps(site, g, s.graph, rel);
    }
  }

  /** What satisfying the requirements of a node, from number r on, comes to. */
  ghost predicate NodeKept(site: Site, before: Satisfied, after: Satisfied, n: nat, r: nat)
    requires site.Valid() && n < |site.nodes|
  {
    && Keeps(site, before.graph, after.graph)
    && (after.graph.issues == [] && before.flag ==> after.flag)
    && (after.graph.issues == [] ==>
        forall q | r <= q < |site.TemplateOf(n).requirements| :: IsSatisfied(after.graph, n, q))
  }

  lemma NodeKeptStep(site: Site, before: Satisfied, s: Satisfied, after: Satisfied, n: nat, r: nat)
    requires site.Valid() && n < |site.nodes| && Keeps(site, before.graph, s.graph)
    requires s.graph.issues == [] ==> IsSatisfied(s.graph, n, r) && (before.flag ==> s.flag)
    requires NodeKept(site, s, after, n, r + 1)
    ensures NodeKept(site, before, after, n, r)
  {
    KeepsTransitive(site, before.graph, s.graph, after.graph);
    if after.graph.issues == [] {
      NoIssuesBefore(site, s.graph, after.graph);
      StaysSatisfied(s.graph, after.graph, n, r);
    }
  }

  lemma {:induction false} NodeKeeps(site: Site, g: Graph, n: nat, r: nat, flag: bool)
    requires site.Valid() && n < |site.nodes| && r <= |site.TemplateOf(n).requirements|
    ensures NodeKept(site, Satisfied(g, flag), SatisfyNode(site, g, n, r, flag), n, r)
    decreases |site.TemplateOf(n).requirements| - r
  {
    if r < |site.TemplateOf(n).requirements| {
      var s := SatisfyRequirement(site, g, n, r, flag);
      RequirementKeeps(site, g, n, r, flag);
      NodeKeeps(site, s.graph, n, r + 1, s.flag);
      NodeKeptStep(site, Satisfied(g, flag), s, SatisfyNode(site, s.graph, n, r + 1, s.flag), n, r);
    } else {
      KeepsSelf(site, g);
    }
  }

  lemma StaysSatisfied(g: Graph, g': Graph, n: nat, r: nat)
    requires IsSatisfied(g, n, r) && g.relationships <= g'.relationships
    ensures IsSatisfied(g', n, r)
  {
  }

  /** Every requirement of every node of the service, from position k on, has a relationship. */
  ghost predicate AllSatisfied(site: Site, g: Graph, service: seq<nat>, k: nat)
    requires site.Valid() && forall i | 0 <= i < |service| :: service[i] < |site.nodes|
  {
    forall i, r | k <= i < |service| && 0 <= r < |site.TemplateOf(service[i]).requirements| ::
          IsSatisfied(g, service[i], r)
  }

  /**
   Satisfying the requirements of a service, however it ends, keeps every conservation law. If it ends
   without an issue, no node was skipped.
   */
  lemma {:induction false} ServiceKeeps(site: Site, g: Graph, service: seq<nat>, k: nat)
    requires site.Valid() && k <= |service| && forall i | 0 <= i < |service| :: service[i] < |site.nodes|
    ensures var s := SatisfyService(site, g, service, k);
            && Keeps(site, g, s.graph)
            && (s.graph.issues == [] ==> s.flag && AllSatisfied(site, s.graph, service, k))
    decreases |service| - k
  {
    if k < |service| {
      var s := SatisfyNode(site, g, service[k], 0, true);
      NodeKeeps(site, g, service[k], 0, true);
      if s.flag {
        ServiceKeeps(site, s.graph, service, k + 1);
        var s' := SatisfyService(site, s.graph, service, k + 1);
        KeepsTransitive(site, g, s.graph, s'.graph);
        if s'.graph.issues == [] {
          forall r | 0 <= r < |site.TemplateOf(service[k]).requirements|
            ensures IsSatisfied(s'.graph, service[k], r)
          {
            StaysSatisfied(s.graph, s'.graph, service[k], r);
          }
        }
      }
    } else {
      KeepsSelf(site, g);
    }
  }

  // ----- Order

  ghost predicate IsRound(site: Site, before: Satisfied, after: Satisfied, n: nat, r: nat)
    requires site.Valid() && n < |site.nodes|
  {
    r < |site.TemplateOf(n).requirements| && after == SatisfyRequirement(site, before.graph, n, r, before.flag)
  }

  /** Stages of a node: round number i is for requirement number r + i, on what the round before left. */
  ghost predicate NodeStages(site: Site, stages: seq<Satisfied>, n: nat, r: nat, first: Satisfied, last: Satisfied) {
    && site.Valid() && n < |site.nodes| && r + |stages| == |site.TemplateOf(n).requirements| + 1
    && stages != [] && stages[0] == first && stages[|stages| - 1] == last
    && forall i | 0 <= i < |stages| - 1 :: IsRound(site, stages[i], stages[i + 1], n, r + i)
  }

  lemma NodeStagesCons(site: Site, first: Satisfied, second: Satisfied, rest: seq<Satisfied>, n: nat, r: nat,
          last: Satisfied)
    requires NodeStages(site, rest, n, r + 1, second, last) && IsRound(site, first, second, n, r)
    ensures NodeStages(site, [first] + rest, n, r, first, last)
  {
    var stages := [first] + rest;
    forall i | 0 <= i < |stages| - 1
      ensures IsRound(site, stages[i], stages[i + 1], n, r + i)
    {
      assert i > 0 ==> IsRound(site, rest[i - 1], rest[i - 1 + 1], n, r + 1 + (i - 1));
    }
  }

  /** The requirements of a node have their rounds in order, and the flag is that of the last round. */
  lemma {:induction false} NodeInOrder(site: Site, g: Graph, n: nat, r: nat, flag: bool)
    returns (stages: seq<Satisfied>)
    requires site.Valid() && n < |site.nodes| && r <= |site.TemplateOf(n).requirements|
    ensures NodeStages(site, stages, n, r, Satisfied(g, flag), SatisfyNode(site, g, n, r, flag))
    decreases |site.TemplateOf(n).requirements| - r
  {
    if r < |site.TemplateOf(n).requirements| {
      var s := SatisfyRequirement(site, g, n, r, flag);
      var rest := NodeInOrder(site, s.graph, n, r + 1, s.flag);
      NodeStagesCons(site, Satisfied(g, flag), s, rest, n, r, SatisfyNode(site, s.graph, n, r + 1, s.flag));
      stages := [Satisfied(g, flag)] + rest;
    } else {
      stages := [Satisfied(g, flag)];
    }
  }

  /** Stages of a service: node number k + i starts from what the node before left, which returned True. */
  ghost predicate ServiceStages(site: Site, stages: seq<Satisfied>, service: seq<nat>, k: nat)
    requires site.Valid() && forall i | 0 <= i < |service| :: service[i] < |site.nodes|
  {
    && k + |stages| <= |service| + 1
    && forall i | 0 <= i < |stages| - 1 ::
         stages[i].flag && stages[i + 1] == SatisfyNode(site, stages[i].graph, service[k + i], 0, true)
  }

  /** The nodes of a service have their turns in order, up to the first one that returns False. */
  lemma {:induction false} ServiceInOrder(site: Site, g: Graph, service: seq<nat>, k: nat)
    returns (stages: seq<Satisfied>)
    requires site.Valid() && k <= |service| && forall i | 0 <= i < |service| :: service[i] < |site.nodes|
    ensures ServiceStages(site, stages, service, k) && stages != [] && stages[0] == Satisfied(g, true)
    ensures SatisfyService(site, g, service, k) == stages[|stages| - 1]
    ensures k + |stages| == |service| + 1 || !stages[|stages| - 1].flag
    decreases |service| - k
  {
    stages := [Satisfied(g, true)];
    if k < |service| {
      var s := SatisfyNode(site, g, service[k], 0, true);
      if s.flag {
        var rest := ServiceInOrder(site, s.graph, service, k + 1);
        stages := stages + rest;
        forall i | 0 <= i < |stages| - 1
          ensures stages[i].flag && stages[i + 1] == SatisfyNode(site, stages[i].graph, service[k + i], 0, true)
        {
          assert i > 0 ==> rest[i - 1 + 1] == SatisfyNode(site, rest[i - 1].graph, service[k + 1 + (i - 1)], 0, true);
        }
      } else {
        stages := stages + [s];
      }
    }
  }

  // ----- A second pass

  lemma {:induction false} NodeAgain(site: Site, g: Graph, n: nat, r: nat, flag: bool)
    requires site.Valid() && n < |site.nodes| && r <= |site.TemplateOf(n).requirements|
    requires forall q | r <= q < |site.TemplateOf(n).requirements| :: IsSatisfied(g, n, q)
    ensures SatisfyNode(site, g, n, r, flag) == Satisfied(g, flag)
    decreases |site.TemplateOf(n).requirements| - r
  {
    if r < |site.TemplateOf(n).requirements| {
      NodeAgain(site, g, n, r + 1, flag);
    }
  }

  /** A second pass over satisfied requirements changes nothing. */
  lemma {:induction false} ServiceAgain(site: Site, g: Graph, service: seq<nat>, k: nat)
    requires site.Valid() && k <= |service| && forall i | 0 <= i < |service| :: service[i] < |site.nodes|
    requires AllSatisfied(site, g, service, k)
    ensures SatisfyService(site, g, service, k) == Satisfied(g, true)
    decreases |service| - k
  {
    if k < |service| {
      NodeAgain(site, g, service[k], 0, true);
      ServiceAgain(site, g, service, k + 1);
    }
  }

  // ----- Validation

  /** The issue says that capability c of node n has fewer occurrences than its minimum, and that is so. */
  ghost predicate FallsShort(site: Site, g: Graph, n: nat, c: nat, issue: Issue)
    requires site.Valid() && n < |site.nodes|
  {
    && c < |site.TemplateOf(n).capabilities|
    && var cap := site.TemplateOf(n).capabilities[c];
    && issue == TooFewRelationships(cap.name, n)
    && cap.minOccurrences.Some? && Occurrences(g, n, cap.name) < cap.minOccurrences.value
  }

  /** The issues reported are those of the capabilities, from position c on, that fall short. */
  lemma {:induction false} ValidateNodeMeans(site: Site, g: Graph, n: nat, c: nat)
    requires site.Valid() && n < |site.nodes| && c <= |site.TemplateOf(n).capabilities|
    ensures var g' := ValidateNode(site, g, n, c);
            && g'.relationships == g.relationships && g'.occurrences == g.occurrences && g.issues <= g'.issues
            && forall issue :: issue in g'.issues <==>
                  issue in g.issues || exists d: nat :: c <= d && FallsShort(site, g, n, d, issue)
    decreases |site.TemplateOf(n).capabilities| - c
  {
    if c < |site.TemplateOf(n).capabilities| {
      var cap := site.TemplateOf(n).capabilities[c];
      var g' := if HasEnough(cap.minOccurrences, Occurrences(g, n, cap.name)) then g
          else Report(g, TooFewRelationships(cap.name, n));
      assert forall issue :: issue in g'.issues <==> issue in g.issues || FallsShort(site, g, n, c, issue);
      assert forall d: nat, issue :: FallsShort(site, g', n, d, issue) <==> FallsShort(site, g, n, d, issue);
      ValidateNodeMeans(site, g', n, c + 1);
    }
  }

  /** Some capability of the service, at position k or later of its nodes, falls short and is meant by the issue. */
  ghost predicate SomeFallsShort(site: Site, g: Graph, service: seq<nat>, k: nat, issue: Issue)
    requires site.Valid() && forall i | 0 <= i < |service| :: service[i] < |site.nodes|
  {
    exists i: nat, c: nat :: k <= i < |service| && FallsShort(site, g, service[i], c, issue)
  }

  /** Validation reports exactly the capabilities that fall short of their minimum, and changes nothing else. */
  lemma {:induction false} ValidateServiceMeans(site: Site, g: Graph, service: seq<nat>, k: nat)
    requires site.Valid() && k <= |service| && forall i | 0 <= i < |service| :: service[i] < |site.nodes|
    ensures var g' := ValidateService(site, g, service, k);
            && g'.relationships == g.relationships && g'.occurrences == g.occurrences && g.issues <= g'.issues
            && (forall issue :: issue in g'.issues <==>
                  issue in g.issues || SomeFallsShort(site, g, service, k, issue))
    decreases |service| - k
  {
    if k < |service| {
      var g' := ValidateNode(site, g, service[k], 0);
      ValidateNodeMeans(site, g, service[k], 0);
      assert forall n: nat, c: nat, issue | n < |site.nodes| ::
          FallsShort(site, g', n, c, issue) <==> FallsShort(site, g, n, c, issue);
      ValidateServiceMeans(site, g', service, k + 1);
    }
  }

  /** Every capability of every node of the service with a minimum m is the target of m relationships or more. */
  ghost predicate MinimaMet(site: Site, relationships: seq<Relationship>, service: seq<nat>)
    requires site.Valid() && forall i | 0 <= i < |service| :: service[i] < |site.nodes|
  {
    forall i, c | 0 <= i < |service| && 0 <= c < |site.TemplateOf(service[i]).capabilities| ::
      var cap := site.TemplateOf(service[i]).capabilities[c];
      cap.minOccurrences.Some? ==> cap.minOccurrences.value <= Targeting(relationships, service[i], cap.name)
  }

  // ----- End to end

  /** No node of the service has a relationship yet, and no issue has been reported. */
  ghost predicate FreshService(g: Graph, service: seq<nat>) {
    g.issues == [] && forall i | 0 <= i < |g.relationships| :: g.relationships[i].source !in service
  }

  /**
   If a new service goes through satisfaction and validation without an issue, every node has exactly
   one fitting relationship per requirement, and every capability is within its bounds.
   */
  lemma NoIssuesMeansWellFormed(site: Site, g: Graph, service: seq<nat>)
    requires site.Valid() && forall i | 0 <= i < |service| :: service[i] < |site.nodes|
    requires FreshService(g, service) && Conserved(g) && WithinMax(site, g)
    requires ValidateService(site, SatisfyService(site, g, service, 0).graph, service, 0).issues == []
    ensures var g' := SatisfyService(site, g, service, 0).graph;
            && (forall i, r | 0 <= i < |service| && 0 <= r < |site.TemplateOf(service[i]).requirements| ::
                Fulfilling(g'.relationships, service[i], r) == 1)
            && (forall i | |g.relationships| <= i < |g'.relationships| ::
                  RelationshipOk(site, g'.relationships[i]) && ConstraintsOk(site, g'.relationships[i]))
            && Conserved(g') && WithinMax(site, g') && MinimaMet(site, g'.relationships, service)
            && SatisfyService(site, g', service, 0) == Satisfied(g', true)
  {
    var g' := SatisfyService(site, g, service, 0).graph;
    ServiceKeeps(site, g, service, 0);
    ValidateServiceMeans(site, g', service, 0);
    forall i, r | 0 <= i < |service| && 0 <= r < |site.TemplateOf(service[i]).requirements|
      ensures Fulfilling(g'.relationships, service[i], r) == 1
    {
      FulfillingZero(g.relationships, service[i], r);
      FulfillingZero(g'.relationships, service[i], r);
      assert IsSatisfied(g', service[i], r);
    }
    AcceptedMeetsMinima(site, g', service);
    ServiceAgain(site, g', service, 0);
  }

  /** If occurrences count relationships, validation finds no issue exactly when every minimum is met. */
  lemma AcceptedMeetsMinima(site: Site, g: Graph, service: seq<nat>)
    requires site.Valid() && forall i | 0 <= i < |service| :: service[i] < |site.nodes|
    requires Conserved(g)
    ensures ValidateService(site, g, service, 0).issues == [] <==>
            g.issues == [] && MinimaMet(site, g.relationships, service)
  {
    var issues := ValidateService(site, g, service, 0).issues;
    ValidateServiceMeans(site, g, service, 0);
    forall i, c | 0 <= i < |service| && 0 <= c < |site.TemplateOf(service[i]).capabilities|
      ensures var cap := site.TemplateOf(service[i]).capabilities[c];
              cap.minOccurrences.Some?
                && Targeting(g.relationships, service[i], cap.name) < cap.minOccurrences.value ==>
                issues != []
    {
      var cap := site.TemplateOf(service[i]).capabilities[c];
      assert Occurrences(g, service[i], cap.name) == Targeting(g.relationships, service[i], cap.name);
      assert FallsShort(site, g, service[i], c, TooFewRelationships(cap.name, service[i])) ==>
          TooFewRelationships(cap.name, service[i]) in issues;
    }
    if issues != [] && g.issues == [] {
      assert issues[0] in issues;
      var i: nat, c: nat :| i < |service| && FallsShort(site, g, service[i], c, issues[0]);
      var cap := site.TemplateOf(service[i]).capabilities[c];
      assert Occurrences(g, service[i], cap.name) == Targeting(g.relationships, service[i], cap.name);
    }
  }

  /** What is reported in the end, g'' being g' after validation. */
  lemma ReportedWhenShort(site: Site, g: Graph, g': Graph, service: seq<nat>, g'': Graph)
    requires site.Valid() && forall i | 0 <= i < |service| :: service[i] < |site.nodes|
    requires g.issues == [] && Keeps(site, g, g') && Conserved(g')
    requires g''.relationships == g'.relationships && g''.occurrences == g'.occurrences
    requires forall issue :: issue in g''.issues <==> issue in g'.issues || SomeFallsShort(site, g', service, 0, issue)
    ensures forall i, c | 0 <= i < |service| && 0 <= c < |site.TemplateOf(service[i]).capabilities| ::
              var cap := site.TemplateOf(service[i]).capabilities[c];
              TooFewRelationships(cap.name, service[i]) in g''.issues <==>
                cap.minOccurrences.Some?
                && Targeting(g''.relationships, service[i], cap.name) < cap.minOccurrences.value
    ensures forall issue | issue in g''.issues ::
              Justified(site, g'', issue) || SomeFallsShort(site, g'', service, 0, issue)
  {
    forall i, c | 0 <= i < |service| && 0 <= c < |site.TemplateOf(service[i]).capabilities|
      ensures var cap := site.TemplateOf(service[i]).capabilities[c];
              TooFewRelationships(cap.name, service[i]) in g''.issues <==>
                cap.minOccurrences.Some?
                && Targeting(g''.relationships, service[i], cap.name) < cap.minOccurrences.value
    {
      ShortByName(site, g', service, service[i], c);
      var issue := TooFewRelationships(site.TemplateOf(service[i]).capabilities[c].name, service[i]);
      assert OldOrJustified(site, g, g', issue);
      assert SomeFallsShort(site, g', service, 0, issue) <==> FallsShort(site, g', service[i], c, issue);
    }
    forall issue | issue in g''.issues
      ensures Justified(site, g'', issue) || SomeFallsShort(site, g'', service, 0, issue)
    {
      assert OldOrJustified(site, g, g', issue);
      SameReasons(site, g', g'', service, issue);
    }
  }

  lemma ShortByName(site: Site, g: Graph, service: seq<nat>, n: nat, c: nat)
    requires site.Valid() && (forall i | 0 <= i < |service| :: service[i] < |site.nodes|) && n in service
    requires n < |site.nodes| && c < |site.TemplateOf(n).capabilities|
    ensures var issue := TooFewRelationships(site.TemplateOf(n).capabilities[c].name, n);
            SomeFallsShort(site, g, service, 0, issue) <==> FallsShort(site, g, n, c, issue)
  {
    var issue := TooFewRelationships(site.TemplateOf(n).capabilities[c].name, n);
    assert site.TemplateValid(site.TemplateOf(n));
    var i: nat :| i < |service| && service[i] == n;
    assert FallsShort(site, g, service[i], c, issue) <==> FallsShort(site, g, n, c, issue);
    if SomeFallsShort(site, g, service, 0, issue) {
      var j: nat, d: nat :| j < |service| && FallsShort(site, g, service[j], d, issue);
      assert d == c;
    }
  }

  lemma SameReasons(site: Site, g: Graph, g': Graph, service: seq<nat>, issue: Issue)
    requires site.Valid() && forall i | 0 <= i < |service| :: service[i] < |site.nodes|
    requires g'.occurrences == g.occurrences
    ensures Justified(site, g, issue) ==> Justified(site, g', issue)
    ensures SomeFallsShort(site, g, service, 0, issue) ==> SomeFallsShort(site, g', service, 0, issue)
  {
    assert forall cap, i :: FullAt(g, cap, i) ==> FullAt(g', cap, i);
    assert forall t, c :: AllFull(site, g, t, c) ==> AllFull(site, g', t, c);
    assert forall n: nat, c: nat | n < |site.nodes| ::
        FallsShort(site, g, n, c, issue) ==> FallsShort(site, g', n, c, issue);
  }

  /** To begin with, nothing targets any capability. */
  lemma NothingYet(site: Site)
    requires site.Valid()
    ensures Conserved(Graph(map[], [], [])) && WithinMax(site, Graph(map[], [], []))
  {
  }

  // ----- First fit and capacity

  /** g' is g with one relationship more, to node i, the first instance that was not full. */
  ghost predicate GoesToFirst(site: Site, g: Graph, g': Graph, n: nat, r: nat, t: nat, cap: CapabilityTemplate,
          i: nat) {
    && i < |site.nodes| && site.nodes[i] == t && !FullAt(g, cap, i)
    && (forall j: nat | j < i && site.nodes[j] == t :: FullAt(g, cap, j))
    && g'.relationships == g.relationships + [Relationship(n, r, i, Some(cap.name))]
    && forall node: nat, name ::
         Occurrences(g', node, name) == Occurrences(g, node, name) + if node == i && name == cap.name then 1 else 0
  }

  /**
   A request for a capability goes to the first instance with room; it fails only when all are full, and then
   changes nothing.
   */
  lemma FirstFit(site: Site, g: Graph, n: nat, r: nat, t: nat, cap: CapabilityTemplate)
    requires site.Valid() && n < |site.nodes| && r < |site.TemplateOf(n).requirements|
    ensures var s := SatisfyCapability(site, g, n, r, t, Some(cap));
            if s.flag then s.graph.issues == g.issues && exists i :: GoesToFirst(site, g, s.graph, n, r, t, cap, i)
            else
              && s.graph.relationships == g.relationships && s.graph.occurrences == g.occurrences
              && forall j: nat | j < |site.nodes| && site.nodes[j] == t :: FullAt(g, cap, j)
  {
    var s, found := SatisfyCapability(site, g, n, r, t, Some(cap)), FirstWithRoom(site, g, t, cap, 0);
    forall j: nat | j < (if found.Some? then found.value else |site.nodes|) && site.nodes[j] == t
      ensures FullAt(g, cap, j)
    {
      assert !RoomAt(site, g, t, cap, j);
    }
    if s.flag {
      assert GoesToFirst(site, g, s.graph, n, r, t, cap, found.value);
    }
  }

  /** The issue that ends a round without a relationship, if it ends so. */
  ghost predicate Fails(site: Site, g: Graph, n: nat, name: string, target: Target, issue: Issue) {
    match target
    case Missing => issue == NoTarget(name, n)
    case Found(t, cap) =>
      || (issue == NoInstances(name, n, t) && forall i | 0 <= i < |site.nodes| :: site.nodes[i] != t)
      || (issue == NoCapacity(name, n, t) && cap.Some? && (exists i :: 0 <= i < |site.nodes| && site.nodes[i] == t)
          && forall j: nat | j < |site.nodes| && site.nodes[j] == t :: FullAt(g, cap.value, j))
  }

  /** The issue that a named target does not meet the constraints of the source template. */
  ghost predicate Mismatches(site: Site, source: nat, req: RequirementTemplate, issue: Issue)
    requires source < |site.templates|
  {
    && req.targetTemplate.Some? && !MeetsConstraints(site, source, req.targetTemplate.value)
    && issue == ConstraintMismatch(req.name, source, req.targetTemplate.value)
  }

  /** g' is g with one relationship more, to node i, the first instance of the template; there is no capability. */
  ghost predicate GoesToInstance(site: Site, g: Graph, g': Graph, n: nat, r: nat, t: nat, i: nat) {
    && i < |site.nodes| && site.nodes[i] == t && (forall j: nat | j < i :: site.nodes[j] != t)
    && g'.relationships == g.relationships + [Relationship(n, r, i, None)] && g'.occurrences == g.occurrences
  }

  /** The new relationship goes where it should: to the first instance, or the first with room. */
  ghost predicate Relates(site: Site, g: Graph, g': Graph, n: nat, r: nat, target: Target) {
    match target
    case Found(t, None) => exists i :: GoesToInstance(site, g, g', n, r, t, i)
    case Found(t, Some(cap)) => exists i :: GoesToFirst(site, g, g', n, r, t, cap, i)
    case Missing => false
  }

  lemma TargetedRound(site: Site, g: Graph, n: nat, r: nat, t: nat, cap: Option<CapabilityTemplate>)
    requires site.Valid() && n < |site.nodes| && r < |site.TemplateOf(n).requirements|
    ensures var s, name := SatisfyCapability(site, g, n, r, t, cap), site.TemplateOf(n).requirements[r].name;
            && (forall issue :: issue in s.graph.issues <==>
                  issue in g.issues || Fails(site, g, n, name, Found(t, cap), issue))
            && (if s.flag then
                  Relates(site, g, s.graph, n, r, Found(t, cap)) && !FailsSomehow(site, g, n, name, Found(t, cap))
                else
                  && s.graph.relationships == g.relationships && s.graph.occurrences == g.occurrences
                  && FailsSomehow(site, g, n, name, Found(t, cap)))
  {
    var s, name := SatisfyCapability(site, g, n, r, t, cap), site.TemplateOf(n).requirements[r].name;
    var first := FirstInstance(site, t, 0);
    if first.None? {
      assert Fails(site, g, n, name, Found(t, cap), NoInstances(name, n, t));
    } else if cap.None? {
      assert GoesToInstance(site, g, s.graph, n, r, t, first.value);
    } else {
      FirstFit(site, g, n, r, t, cap.value);
      assert !s.flag ==> Fails(site, g, n, name, Found(t, cap), NoCapacity(name, n, t));
    }
  }

  ghost predicate FailsSomehow(site: Site, g: Graph, n: nat, name: string, target: Target) {
    exists issue :: Fails(site, g, n, name, target, issue)
  }

  /**
   One round for a requirement without a relationship: the issues it reports, when it fails, and the
   relationship it adds if it does not.
   */
  lemma RoundMeans(site: Site, g: Graph, n: nat, r: nat, flag: bool, target: Target)
    requires site.Valid() && n < |site.nodes| && r < |site.TemplateOf(n).requirements|
    requires site.TemplateValid(site.TemplateOf(n)) && !IsSatisfied(g, n, r)
    requires IsTarget(site, site.nodes[n], site.TemplateOf(n).requirements[r], target)
    ensures var s, req := SatisfyRequirement(site, g, n, r, flag), site.TemplateOf(n).requirements[r];
            && (forall issue :: issue in s.graph.issues <==>
                  issue in g.issues || Mismatches(site, site.nodes[n], req, issue)
                      || Fails(site, g, n, req.name, target, issue))
            && (if s.flag then
                  Relates(site, g, s.graph, n, r, target) && !FailsSomehow(site, g, n, req.name, target)
                else
                  && s.graph.relationships == g.relationships && s.graph.occurrences == g.occurrences
                  && FailsSomehow(site, g, n, req.name, target))
  {
    var req, source := site.TemplateOf(n).requirements[r], site.nodes[n];
    TargetMeans(site, source, req, target);
    if req.targetTemplate.Some? {
      ConstraintsMeans(site, source, req.targetTemplate.value);
    }
    var g1 := ReportMismatch(site, g, source, req);
    assert forall issue :: issue in g1.issues <==> issue in g.issues || Mismatches(site, source, req, issue);
    SameFailures(site, g, g1, n, req.name, target);
    match target {
      case Missing => assert Fails(site, g, n, req.name, target, NoTarget(req.name, n));
      case Found(t, cap) =>
        var s := SatisfyCapability(site, g1, n, r, t, cap);
        TargetedRound(site, g1, n, r, t, cap);
        if s.flag {
          SameRelates(site, g, g1, s.graph, n, r, target);
        }
    }
  }

  /** What was reported before makes no difference to a round. */
  lemma SameFailures(site: Site, g: Graph, g1: Graph, n: nat, name: string, target: Target)
    requires g1.occurrences == g.occurrences
    ensures forall issue :: Fails(site, g1, n, name, target, issue) <==> Fails(site, g, n, name, target, issue)
  {
    assert forall cap, i :: FullAt(g1, cap, i) <==> FullAt(g, cap, i);
  }

  lemma SameRelates(site: Site, g: Graph, g1: Graph, g': Graph, n: nat, r: nat, target: Target)
    requires g1.occurrences == g.occurrences && g1.relationships == g.relationships
    requires Relates(site, g1, g', n, r, target)
    ensures Relates(site, g, g', n, r, target)
  {
    assert forall cap, i :: FullAt(g1, cap, i) <==> FullAt(g, cap, i);
    match target {
      case Found(t, None) =>
        var i :| GoesToInstance(site, g1, g', n, r, t, i);
        assert GoesToInstance(site, g, g', n, r, t, i);
      case Found(t, Some(cap)) =>
        var i :| GoesToFirst(site, g1, g', n, r, t, cap, i);
        assert GoesToFirst(site, g, g', n, r, t, cap, i);
    }
  }

  /** The room left in a capability over the instances of a template, from node i on. */
  function Room(site: Site, g: Graph, t: nat, cap: CapabilityTemplate, i: nat): int
    requires cap.maxOccurrences.Some?
    decreases |site.nodes| - i
  {
    if i >= |site.nodes| then 0
    else
      (if site.nodes[i] == t then cap.maxOccurrences.value - Occurrences(g, i, cap.name) else 0)
      + Room(site, g, t, cap, i + 1)
  }

  /** A requirement of a node. */
  datatype Request = Request(node: nat, requirement: nat)

  /** The request finds this capability of this node template as its target. */
  predicate AsksFor(site: Site, q: Request, t: nat, cap: CapabilityTemplate)
    requires site.Valid()
  {
    && q.node < |site.nodes| && q.requirement < |site.TemplateOf(q.node).requirements|
    && (assert site.TemplateValid(site.TemplateOf(q.node));
        FindTarget(site, site.nodes[q.node], site.TemplateOf(q.node).requirements[q.requirement]) ==
            Found(t, Some(cap)))
  }

  predicate AllAskFor(site: Site, requests: seq<Request>, t: nat, cap: CapabilityTemplate)
    requires site.Valid()
  {
    forall k | 0 <= k < |requests| :: AsksFor(site, requests[k], t, cap)
  }

  /** Requests of any nodes, from number k on, satisfied one after the other. */
  function SatisfyRequests(site: Site, g: Graph, requests: seq<Request>, k: nat, t: nat, cap: CapabilityTemplate): Graph
    requires site.Valid() && AllAskFor(site, requests, t, cap) && k <= |requests|
    decreases |requests| - k
  {
    if k == |requests| then g
    else
      assert AsksFor(site, requests[k], t, cap);
      SatisfyRequests(site, SatisfyRequirement(site, g, requests[k].node, requests[k].requirement, true).graph,
                      requests, k + 1, t, cap)
  }

  /** No instance exceeds the maximum, which is not negative. */
  ghost predicate Bounded(site: Site, g: Graph, t: nat, cap: CapabilityTemplate) {
    cap.maxOccurrences.Some?
        && forall i: nat | i < |site.nodes| && site.nodes[i] == t ::
             Occurrences(g, i, cap.name) <= cap.maxOccurrences.value
  }

  lemma {:induction false} RoomByNode(site: Site, g: Graph, t: nat, cap: CapabilityTemplate, i: nat)
    requires Bounded(site, g, t, cap)
    ensures Room(site, g, t, cap, i) >= 0
    ensures Room(site, g, t, cap, i) == 0 <==> FirstWithRoom(site, g, t, cap, i).None?
    decreases |site.nodes| - i
  {
    if i < |site.nodes| {
      RoomByNode(site, g, t, cap, i + 1);
    }
  }

  lemma {:induction false} RelateTakesRoom(site: Site, g: Graph, t: nat, cap: CapabilityTemplate, target: nat, i: nat)
    requires cap.maxOccurrences.Some? && target < |site.nodes| && site.nodes[target] == t
    ensures Room(site, Relate(g, target, cap.name), t, cap, i) == Room(site, g, t, cap, i)
            - if i <= target then 1 else 0
    decreases |site.nodes| - i
  {
    if i < |site.nodes| {
      RelateTakesRoom(site, g, t, cap, target, i + 1);
    }
  }

  lemma {:induction false} RoomSame(site: Site, g: Graph, g': Graph, t: nat, cap: CapabilityTemplate, i: nat)
    requires cap.maxOccurrences.Some? && g'.occurrences == g.occurrences
    ensures Room(site, g', t, cap, i) == Room(site, g, t, cap, i)
    decreases |site.nodes| - i
  {
    if i < |site.nodes| {
      RoomSame(site, g, g', t, cap, i + 1);
    }
  }

  /** Satisfying one request takes a place if there is one. */
  lemma RequestTakesRoom(site: Site, g: Graph, q: Request, t: nat, cap: CapabilityTemplate)
    requires site.Valid() && AsksFor(site, q, t, cap) && Bounded(site, g, t, cap)
             && !IsSatisfied(g, q.node, q.requirement)
    ensures var g' := SatisfyRequirement(site, g, q.node, q.requirement, true).graph;
            && Bounded(site, g', t, cap)
            && (if Room(site, g, t, cap, 0) == 0 then
                  g'.relationships == g.relationships && Room(site, g', t, cap, 0) == 0
                else
                  && |g'.relationships| == |g.relationships| + 1 && g.relationships <= g'.relationships
                  && g'.relationships[|g.relationships|].source == q.node
                  && g'.relationships[|g.relationships|].requirement == q.requirement
                  && Room(site, g', t, cap, 0) == Room(site, g, t, cap, 0) - 1)
  {
    var g1 := ReportMismatch(site, g, site.nodes[q.node], site.TemplateOf(q.node).requirements[q.requirement]);
    var g' := SatisfyCapability(site, g1, q.node, q.requirement, t, Some(cap)).graph;
    var found := FirstWithRoom(site, g1, t, cap, 0);
    RoomByNode(site, g, t, cap, 0);
    RoomByNode(site, g1, t, cap, 0);
    RoomSame(site, g, g1, t, cap, 0);
    if found.Some? {
      RelateTakesRoom(site, g1, t, cap, found.value, 0);
      RoomSame(site, Relate(g1, found.value, cap.name), g', t, cap, 0);
    } else {
      RoomSame(site, g1, g', t, cap, 0);
    }
  }

  /** What the requests before number k came to: as many relationships as there was room for, for the first of them. */
  ghost predicate RoomShared(site: Site, g: Graph, g': Graph, requests: seq<Request>, k: nat, t: nat,
          cap: CapabilityTemplate)
    requires k <= |requests| && cap.maxOccurrences.Some?
  {
    var room := Room(site, g, t, cap, 0);
    && g.relationships <= g'.relationships && Bounded(site, g', t, cap)
    && |g'.relationships| - |g.relationships| == (if k <= room then k else room)
    && Room(site, g', t, cap, 0) == (if k <= room then room - k else 0)
    && forall i | |g.relationships| <= i < |g'.relationships| ::
         && i - |g.relationships| < |requests|
         && g'.relationships[i].source == requests[i - |g.relationships|].node
         && g'.relationships[i].requirement == requests[i - |g.relationships|].requirement
  }

  lemma {:induction false} RequestsShareRoom(site: Site, g: Graph, before: Graph, requests: seq<Request>, k: nat,
          t: nat, cap: CapabilityTemplate)
    requires site.Valid() && AllAskFor(site, requests, t, cap) && k <= |requests|
    requires forall i, j | 0 <= i < j < |requests| :: requests[i] != requests[j]
    requires forall i | 0 <= i < |requests| :: !IsSatisfied(g, requests[i].node, requests[i].requirement)
    requires cap.maxOccurrences.Some? && RoomShared(site, g, before, requests, k, t, cap)
             && Room(site, g, t, cap, 0) >= 0
    ensures RoomShared(site, g, SatisfyRequests(site, before, requests, k, t, cap), requests, |requests|, t, cap)
    decreases |requests| - k
  {
    if k < |requests| {
      assert AsksFor(site, requests[k], t, cap);
      var next := SatisfyRequirement(site, before, requests[k].node, requests[k].requirement, true).graph;
      RequestsShareNext(site, g, before, next, requests, k, t, cap);
      RequestsShareRoom(site, g, next, requests, k + 1, t, cap);
    }
  }

  /** One more request, from the graph that those before it came to. */
  lemma RequestsShareNext(site: Site, g: Graph, before: Graph, g': Graph, requests: seq<Request>, k: nat, t: nat,
          cap: CapabilityTemplate)
    requires site.Valid() && k < |requests| && AsksFor(site, requests[k], t, cap)
    requires g' == SatisfyRequirement(site, before, requests[k].node, requests[k].requirement, true).graph
    requires forall i, j | 0 <= i < j < |requests| :: requests[i] != requests[j]
    requires !IsSatisfied(g, requests[k].node, requests[k].requirement)
    requires cap.maxOccurrences.Some? && RoomShared(site, g, before, requests, k, t, cap)
             && Room(site, g, t, cap, 0) >= 0
    ensures RoomShared(site, g, g', requests, k + 1, t, cap)
  {
    SharedSatisfied(site, g, before, requests, k, t, cap, k);
    RequestTakesRoom(site, before, requests[k], t, cap);
    SharedNext(site, g, before, g', requests, k, t, cap);
  }

  /** Which requests have a relationship then: as many of the first as there are new relationships. */
  lemma SharedSatisfied(site: Site, g: Graph, g': Graph, requests: seq<Request>, k: nat, t: nat,
          cap: CapabilityTemplate, m: nat)
    requires k <= |requests| && m < |requests| && cap.maxOccurrences.Some?
             && RoomShared(site, g, g', requests, k, t, cap)
    requires forall i, j | 0 <= i < j < |requests| :: requests[i] != requests[j]
    requires !IsSatisfied(g, requests[m].node, requests[m].requirement)
    ensures IsSatisfied(g', requests[m].node, requests[m].requirement) <==> m < |g'.relationships| - |g.relationships|
  {
    var n, q := |g.relationships|, requests[m];
    assert forall i | 0 <= i < n :: g'.relationships[i] == g.relationships[i];
    forall i | 0 <= i < |g'.relationships| && g'.relationships[i].source == q.node
        && g'.relationships[i].requirement == q.requirement
      ensures i == n + m
    {
      assert i >= n;
      assert requests[i - n] == q;
    }
    if m < |g'.relationships| - n {
      assert g'.relationships[n + m].source == q.node;
    }
  }

  lemma SharedNext(site: Site, g: Graph, before: Graph, g': Graph, requests: seq<Request>, k: nat, t: nat,
          cap: CapabilityTemplate)
    requires k < |requests| && cap.maxOccurrences.Some? && RoomShared(site, g, before, requests, k, t, cap)
    requires Room(site, g, t, cap, 0) >= 0 && Bounded(site, g', t, cap)
    requires if Room(site, before, t, cap, 0) == 0 then
               g'.relationships == before.relationships && Room(site, g', t, cap, 0) == 0
             else
               && |g'.relationships| == |before.relationships| + 1 && before.relationships <= g'.relationships
               && g'.relationships[|before.relationships|].source == requests[k].node
               && g'.relationships[|before.relationships|].requirement == requests[k].requirement
               && Room(site, g', t, cap, 0) == Room(site, before, t, cap, 0) - 1
    ensures RoomShared(site, g, g', requests, k + 1, t, cap)
  {
  }

  /**
   Requests of different nodes and requirements for one capability: they yield as many relationships as
   there is room for, and no more than there are requests; those that come first are the ones satisfied.
   */
  lemma RequestsFillRoom(site: Site, g: Graph, requests: seq<Request>, t: nat, cap: CapabilityTemplate)
    requires site.Valid() && AllAskFor(site, requests, t, cap) && Bounded(site, g, t, cap)
    requires forall i, j | 0 <= i < j < |requests| :: requests[i] != requests[j]
    requires forall i | 0 <= i < |requests| :: !IsSatisfied(g, requests[i].node, requests[i].requirement)
    ensures var g', room := SatisfyRequests(site, g, requests, 0, t, cap), Room(site, g, t, cap, 0);
            && |g'.relationships| - |g.relationships| == (if |requests| <= room then |requests| else room)
            && forall k | 0 <= k < |requests| :: IsSatisfied(g', requests[k].node, requests[k].requirement) <==>
                 k < room
  {
    var g', room := SatisfyRequests(site, g, requests, 0, t, cap), Room(site, g, t, cap, 0);
    RoomByNode(site, g, t, cap, 0);
    RequestsShareRoom(site, g, g, requests, 0, t, cap);
    forall k | 0 <= k < |requests|
      ensures IsSatisfied(g', requests[k].node, requests[k].requirement) <==> k < room
    {
      SharedSatisfied(site, g, g', requests, |requests|, t, cap, k);
    }
  }

  /** Without a maximum, or with a negative one, a capability of an instantiated template never refuses. */
  lemma UnboundedNeverFull(site: Site, g: Graph, n: nat, r: nat, t: nat, cap: CapabilityTemplate)
    requires site.Valid() && n < |site.nodes| && r < |site.TemplateOf(n).requirements|
    requires exists i :: 0 <= i < |site.nodes| && site.nodes[i] == t
    requires Conserved(g) && (cap.maxOccurrences.Some? ==> cap.maxOccurrences.value < 0)
    ensures SatisfyCapability(site, g, n, r, t, Some(cap)).flag
  {
    var i :| 0 <= i < |site.nodes| && site.nodes[i] == t;
    assert Occurrences(g, i, cap.name) == Targeting(g.relationships, i, cap.name);
    assert RoomAt(site, g, t, cap, i);
  }
}
