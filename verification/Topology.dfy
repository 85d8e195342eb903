/**
 The handlers of aria/orchestrator/topology/instance_handler.py that satisfy requirements and validate
 capabilities: they update the graph in place, as Requirements.dfy specifies.
 */
module Topology {
  import opened Wrappers
  import opened Types
  import opened Requirements
  import opened RequirementProofs

  class TopologyHandler {
    const site: Site
    var occurrences: map<CapabilityId, int>
    var relationships: seq<Relationship>
    var issues: seq<Issue>

    ghost function Contents(): Graph
      reads this
    {
      Graph(occurrences, relationships, issues)
    }

    constructor (site: Site, g: Graph)
      ensures this.site == site && Contents() == g
    {
      this.site := site;
      occurrences, relationships, issues := g.occurrences, g.relationships, g.issues;
    }

    method ReportIssue(issue: Issue)
      modifies this`issues
      ensures Contents() == Report(old(Contents()), issue)
    {
      if issue !in issues {
        issues := issues + [issue];
      }
    }

    /** CapabilityBase.relate of aria/modeling/service_instance.py, for an instance of `cap` at a node. */
    method RelateTo(node: nat, cap: CapabilityTemplate) returns (related: bool)
      modifies this`occurrences
      ensures related == HasRoom(cap.maxOccurrences, Occurrences(old(Contents()), node, cap.name))
      ensures Contents() == if related then Relate(old(Contents()), node, cap.name) else old(Contents())
    {
      var id := CapabilityId(node, cap.name);
      var now := if id in occurrences then occurrences[id] else 0;
      if cap.maxOccurrences.Some? && now == cap.maxOccurrences.value {
        return false;
      }
      occurrences := occurrences[id := now + 1];
      return true;
    }

    method FindCapability(source: nat, req: RequirementTemplate,
            target: nat) returns (found: Option<CapabilityTemplate>)
      requires source < |site.templates| && target < |site.templates|
      ensures found == GetCapability(site, source, req, target, 0)
    {
      var capabilities := site.templates[target].capabilities;
      var c := 0;
      while c < |capabilities|
        invariant c <= |capabilities|
        invariant GetCapability(site, source, req, target, 0) == GetCapability(site, source, req, target, c)
      {
        if SatisfiesRequirement(site, source, req, target, capabilities[c]) {
          return Some(capabilities[c]);
        }
        c := c + 1;
      }
      return None;
    }

    method FindTargetFor(source: nat, req: RequirementTemplate) returns (target: Target)
      requires source < |site.templates| && (req.targetTemplate.Some? ==> req.targetTemplate.value < |site.templates|)
      modifies this`issues
      ensures target == FindTarget(site, source, req) && IsTarget(site, source, req, target)
      ensures Contents() == ReportMismatch(site, old(Contents()), source, req)
      ensures forall issue :: issue in issues <==> issue in old(issues) || Mismatches(site, source, req, issue)
    {
      TargetMeans(site, source, req, FindTarget(site, source, req));
      if req.targetTemplate.Some? {
        ConstraintsMeans(site, source, req.targetTemplate.value);
      }
      if req.targetTemplate.Some? {
        var t := req.targetTemplate.value;
        if !AllMatch(site, site.templates[source].constraints, source, t) {
          ReportIssue(ConstraintMismatch(req.name, source, t));
        }
        if req.targetCapabilityType.Some? || req.targetCapabilityName.Some? {
          var cap := FindCapability(source, req, t);
          return if cap.None? then Missing else Found(t, cap);
        }
        return Found(t, None);
      }
      if req.targetNodeType.Some? || req.targetCapabilityType.Some? {
        var t := 0;
        while t < |site.templates|
          invariant t <= |site.templates| && issues == old(issues)
          invariant Search(site, source, req, 0) == Search(site, source, req, t)
        {
          if req.targetNodeType.None?
             || (GetDescendant(req.targetNodeType.value, site.templates[t].typeName).Some?
                 && AllMatch(site, site.templates[source].constraints, source, t)) {
            var cap := FindCapability(source, req, t);
            if cap.Some? {
              return Found(t, cap);
            }
          }
          t := t + 1;
        }
      }
      return Missing;
    }

    /** Relates to the first instance of the template whose capability has room. */
    method RelateToFirst(t: nat, cap: CapabilityTemplate) returns (found: Option<nat>)
      modifies this`occurrences
      ensures found == FirstWithRoom(site, old(Contents()), t, cap, 0)
      ensures Contents() == if found.Some? then Relate(old(Contents()), found.value, cap.name) else old(Contents())
    {
      var i := 0;
      while i < |site.nodes|
        invariant Contents() == old(Contents())
        invariant FirstWithRoom(site, Contents(), t, cap, 0) == FirstWithRoom(site, Contents(), t, cap, i)
      {
        if site.nodes[i] == t {
          var related := RelateTo(i, cap);
          if related {
            return Some(i);
          }
        }
        i := i + 1;
      }
      return None;
    }

    method SatisfyWithCapability(n: nat, r: nat, t: nat, cap: Option<CapabilityTemplate>) returns (flag: bool)
      requires site.Valid() && n < |site.nodes| && r < |site.TemplateOf(n).requirements|
      modifies this
      ensures Satisfied(Contents(), flag) == SatisfyCapability(site, old(Contents()), n, r, t, cap)
    {
      var name := site.TemplateOf(n).requirements[r].name;
      var first := FirstInstance(site, t, 0);
      if first.None? {
        ReportIssue(NoInstances(name, n, t));
        return false;
      }
      if cap.None? {
        relationships := relationships + [Relationship(n, r, first.value, None)];
        return true;
      }
      var found := RelateToFirst(t, cap.value);
      if found.None? {
        ReportIssue(NoCapacity(name, n, t));
        return false;
      }
      relationships := relationships + [Relationship(n, r, found.value, Some(cap.value.name))];
      return true;
    }

    method HasRelationship(n: nat, r: nat) returns (found: bool)
      ensures found == IsSatisfied(Contents(), n, r)
    {
      for i := 0 to |relationships|
        invariant forall j | 0 <= j < i :: !(relationships[j].source == n && relationships[j].requirement == r)
      {
        if relationships[i].source == n && relationships[i].requirement == r {
          return true;
        }
      }
      return false;
    }

    /** Node.satisfy_requirements. */
    method SatisfyNodeRequirements(n: nat) returns (satisfied: bool)
      requires site.Valid() && n < |site.nodes|
      modifies this
      ensures Satisfied(Contents(), satisfied) == SatisfyNode(site, old(Contents()), n, 0, true)
    {
      var template := site.TemplateOf(n);
      assert site.TemplateValid(template);
      satisfied := true;
      var r := 0;
      while r < |template.requirements|
        invariant r <= |template.requirements|
        invariant SatisfyNode(site, Contents(), n, r, satisfied) == SatisfyNode(site, old(Contents()), n, 0, true)
      {
        var done := HasRelationship(n, r);
        if !done {
          var target := FindTargetFor(site.nodes[n], template.requirements[r]);
          match target {
            case Found(t, cap) => satisfied := SatisfyWithCapability(n, r, t, cap);
            case Missing =>
              ReportIssue(NoTarget(template.requirements[r].name, n));
              satisfied := false;
          }
        }
        r := r + 1;
      }
    }

    /** Service.satisfy_requirements. */
    method SatisfyServiceRequirements(service: seq<nat>) returns (satisfied: bool)
      requires site.Valid() && forall i | 0 <= i < |service| :: service[i] < |site.nodes|
      modifies this
      ensures Satisfied(Contents(), satisfied) == SatisfyService(site, old(Contents()), service, 0)
    {
      var k := 0;
      while k < |service|
        invariant k <= |service|
        invariant SatisfyService(site, Contents(), service, k) == SatisfyService(site, old(Contents()), service, 0)
      {
        satisfied := SatisfyNodeRequirements(service[k]);
        if !satisfied {
          return;
        }
        k := k + 1;
      }
      return true;
    }

    /** Node.validate_capabilities; it returns False in any case. */
    method ValidateNodeCapabilities(n: nat) returns (satisfied: bool)
      requires site.Valid() && n < |site.nodes|
      modifies this`issues
      ensures Contents() == ValidateNode(site, old(Contents()), n, 0) && !satisfied
      ensures forall issue :: issue in issues <==>
                issue in old(issues) || exists c: nat :: FallsShort(site, old(Contents()), n, c, issue)
    {
      satisfied := false;
      var capabilities := site.TemplateOf(n).capabilities;
      var c := 0;
      while c < |capabilities|
        invariant c <= |capabilities|
        invariant ValidateNode(site, Contents(), n, c) == ValidateNode(site, old(Contents()), n, 0)
      {
        var id := CapabilityId(n, capabilities[c].name);
        if !HasEnough(capabilities[c].minOccurrences, if id in occurrences then occurrences[id] else 0) {
          ReportIssue(TooFewRelationships(capabilities[c].name, n));
        }
        c := c + 1;
      }
      ValidateNodeMeans(site, old(Contents()), n, 0);
    }

    /** Service.validate_capabilities. */
    method ValidateServiceCapabilities(service: seq<nat>) returns (satisfied: bool)
      requires site.Valid() && forall i | 0 <= i < |service| :: service[i] < |site.nodes|
      modifies this`issues
      ensures Contents() == ValidateService(site, old(Contents()), service, 0)
      ensures forall issue :: issue in issues <==>
                issue in old(issues) || SomeFallsShort(site, old(Contents()), service, 0, issue)
      ensures satisfied <==> service == []
    {
      satisfied := true;
      var k := 0;
      while k < |service|
        invariant k <= |service| && (satisfied <==> k == 0)
        invariant ValidateService(site, Contents(), service, k) == ValidateService(site, old(Contents()), service, 0)
      {
        var ok := ValidateNodeCapabilities(service[k]);
        if !ok {
          satisfied := false;
        }
        k := k + 1;
      }
      ValidateServiceMeans(site, old(Contents()), service, 0);
    }

    /**
     The two phases as Core.create_service runs them (aria/core.py); the service is accepted if no issue
     was reported. An accepted service has exactly one fitting relationship per requirement, all
     capabilities within their bounds, and a second pass changes nothing.
     */
    method SatisfyAndValidate(service: seq<nat>) returns (accepted: bool)
      requires site.Valid() && forall i | 0 <= i < |service| :: service[i] < |site.nodes|
      requires FreshService(Contents(), service) && Conserved(Contents()) && WithinMax(site, Contents())
      modifies this
      ensures accepted <==> issues == []
      ensures accepted ==>
                && (forall i, r | 0 <= i < |service| && 0 <= r < |site.TemplateOf(service[i]).requirements| ::
                    Fulfilling(relationships, service[i], r) == 1)
                && old(relationships) <= relationships
                && (forall i | |old(relationships)| <= i < |relationships| ::
                    RelationshipOk(site, relationships[i]) && ConstraintsOk(site, relationships[i]))
                && MinimaMet(site, relationships, service)
                && SatisfyService(site, Contents(), service, 0) == Satisfied(Contents(), true)
      ensures Conserved(Contents()) && WithinMax(site, Contents())
      ensures forall i, c | 0 <= i < |service| && 0 <= c < |site.TemplateOf(service[i]).capabilities| ::
                var cap := site.TemplateOf(service[i]).capabilities[c];
                TooFewRelationships(cap.name, service[i]) in issues <==>
                  cap.minOccurrences.Some? && Targeting(relationships, service[i], cap.name) < cap.minOccurrences.value
      ensures forall issue | issue in issues ::
                Justified(site, Contents(), issue) || SomeFallsShort(site, Contents(), service, 0, issue)
    {
      ghost var g := Contents();
      var _ := SatisfyServiceRequirements(service);
      ghost var g' := Contents();
      var _ := ValidateServiceCapabilities(service);
      accepted := issues == [];
      ServiceKeeps(site, g, service, 0);
      ValidateServiceMeans(site, g', service, 0);
      ReportedWhenShort(site, g, g', service, Contents());
      if accepted {
        NoIssuesMeansWellFormed(site, g, service);
        assert Contents() == g';
      }
    }
  }
}
