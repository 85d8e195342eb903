/**
 Finding the host of each node (aria/orchestrator/topology/topology.py).

 The search recurses over relationships without remembering where it has been, so on a cycle of
 nodes without the host role it can exhaust the stack. The model gives it a depth and says what it
 finds when the depth suffices, and when it does.
 */
module HostSearch {
  import opened Counting
  import opened Wrappers

  /** A relationship seen from one of its ends: the role of the target capability's type, and the other node. */
  datatype Link = Link(role: Option<string>, node: nat)

  /** By node: the role of its type, and its relationships in order. */
  datatype Graph = Graph(roles: seq<Option<string>>, outbound: seq<seq<Link>>, inbound: seq<seq<Link>>) {
    predicate Valid() {
      && |outbound| == |inbound| == |roles|
      && (forall n | 0 <= n < |roles| :: InRange(outbound[n]) && InRange(inbound[n]))
    }

    predicate InRange(links: seq<Link>) {
      forall i | 0 <= i < |links| :: links[i].node < |roles|
    }

    predicate IsHost(n: nat)
      requires n < |roles|
    {
      roles[n] == Some("host")
    }
  }

  /** The nodes at the other end of the links with that role, in order. */
  function Ends(links: seq<Link>, role: string): (r: seq<nat>)
    ensures forall n :: n in r <==> exists i :: 0 <= i < |links| && links[i] == Link(Some(role), n)
  {
    if links == [] then []
    else
      var rest := Ends(links[1..], role);
      assert forall i | 1 <= i < |links| :: links[i] == links[1..][i - 1];
      if links[0].role == Some(role) then [links[0].node] + rest else rest
  }

  /** The order of the links is kept. */
  lemma {:induction false} EndsAppend(a: seq<Link>, b: seq<Link>, role: string)
    ensures Ends(a + b, role) == Ends(a, role) + Ends(b, role)
  {
    if a == [] {
      assert a + b == b;
    } else {
      assert (a + b)[1..] == a[1..] + b;
      EndsAppend(a[1..], b, role);
    }
  }

  /** An entry of the list comes from a link, and the entries before it are those of the links before that one. */
  lemma {:induction false} EndsPosition(links: seq<Link>, role: string, k: nat) returns (i: nat)
    requires k < |Ends(links, role)|
    ensures i < |links| && links[i] == Link(Some(role), Ends(links, role)[k])
    ensures Ends(links[..i], role) == Ends(links, role)[..k]
    decreases |links|
  {
    var n := |links| - 1;
    var before := links[..n];
    assert links == before + [links[n]];
    EndsAppend(before, [links[n]], role);
    assert Ends([links[n]], role) == if links[n].role == Some(role) then [links[n].node] else [];
    if k < |Ends(before, role)| {
      i := EndsPosition(before, role, k);
      assert links[..i] == before[..i];
    } else {
      i := n;
    }
  }

  /** And back: a link with that role is an entry of the list, at the place that the links before it leave. */
  lemma EndsSplit(links: seq<Link>, role: string, i: nat)
    requires i < |links| && links[i].role == Some(role)
    ensures var k := |Ends(links[..i], role)|;
            k < |Ends(links, role)| && Ends(links, role)[k] == links[i].node
            && Ends(links, role)[..k] == Ends(links[..i], role)
  {
    assert links == links[..i] + links[i..];
    EndsAppend(links[..i], links[i..], role);
  }

  /** A link by which the search may go on: to the target of a host relationship, or the source of a feature one. */
  ghost predicate Linked(g: Graph, n: nat, m: nat)
    requires g.Valid() && n < |g.roles|
  {
    || (exists i :: 0 <= i < |g.outbound[n]| && g.outbound[n][i] == Link(Some("host"), m))
    || (exists i :: 0 <= i < |g.inbound[n]| && g.inbound[n][i] == Link(Some("feature"), m))
  }

  /** Where the search goes on from a node: targets of host relationships, then sources of feature relationships. */
  function Steps(g: Graph, n: nat): (r: seq<nat>)
    requires g.Valid() && n < |g.roles|
    ensures forall i | 0 <= i < |r| :: r[i] < |g.roles|
    ensures r == Ends(g.outbound[n], "host") + Ends(g.inbound[n], "feature")
    ensures forall m: nat :: m in r <==> Linked(g, n, m)
  {
    assert g.InRange(g.outbound[n]) && g.InRange(g.inbound[n]);
    var outs, ins := Ends(g.outbound[n], "host"), Ends(g.inbound[n], "feature");
    assert forall i | 0 <= i < |outs| :: outs[i] in outs;
    assert forall i | 0 <= i < |ins| :: ins[i] in ins;
    outs + ins
  }

  datatype Search = Host(node: nat) | NoHost | TooDeep

  function FindHost(g: Graph, n: nat, depth: nat): Search
    requires g.Valid() && n < |g.roles|
    decreases depth, 1, 0
  {
    if g.IsHost(n) then Host(n)
    else if depth == 0 then TooDeep
    else FindFirst(g, Steps(g, n), depth - 1)
  }

  function FindFirst(g: Graph, nodes: seq<nat>, depth: nat): Search
    requires g.Valid() && forall i | 0 <= i < |nodes| :: nodes[i] < |g.roles|
    decreases depth, 2, |nodes|
  {
    if nodes == [] then NoHost
    else
      var first := FindHost(g, nodes[0], depth);
      if first.NoHost? then FindFirst(g, nodes[1..], depth) else first
  }

  /** The nodes in depth-first order, down to a depth; a host is not followed further. */
  function Preorder(g: Graph, n: nat, depth: nat): seq<nat>
    requires g.Valid() && n < |g.roles|
    decreases depth, 1, 0
  {
    [n] + if g.IsHost(n) || depth == 0 then [] else PreorderAll(g, Steps(g, n), depth - 1)
  }

  function PreorderAll(g: Graph, nodes: seq<nat>, depth: nat): seq<nat>
    requires g.Valid() && forall i | 0 <= i < |nodes| :: nodes[i] < |g.roles|
    decreases depth, 2, |nodes|
  {
    if nodes == [] then [] else Preorder(g, nodes[0], depth) + PreorderAll(g, nodes[1..], depth)
  }

  /** The first host of a list of nodes is h, or there is none. */
  predicate FirstHostOf(g: Graph, nodes: seq<nat>, found: Search) {
    match found
    case Host(h) => exists i :: 0 <= i < |nodes| && nodes[i] == h && FirstAt(g, nodes, i)
    case NoHost => forall i | 0 <= i < |nodes| :: nodes[i] < |g.roles| && !g.IsHost(nodes[i])
    case TooDeep => true
  }

  predicate FirstAt(g: Graph, nodes: seq<nat>, i: nat)
    requires i < |nodes|
  {
    && nodes[i] < |g.roles| && g.IsHost(nodes[i])
    && forall j | 0 <= j < i :: nodes[j] < |g.roles| && !g.IsHost(nodes[j])
  }

  lemma FirstHostAppend(g: Graph, a: seq<nat>, b: seq<nat>, found: Search)
    requires FirstHostOf(g, a, NoHost) && FirstHostOf(g, b, found)
    ensures FirstHostOf(g, a + b, found)
  {
    if found.Host? {
      var i :| 0 <= i < |b| && b[i] == found.node && FirstAt(g, b, i);
      assert (a + b)[|a| + i] == found.node && FirstAt(g, a + b, |a| + i);
    }
  }

  lemma FirstHostExtends(g: Graph, a: seq<nat>, b: seq<nat>, found: Search)
    requires FirstHostOf(g, a, found) && found.Host?
    ensures FirstHostOf(g, a + b, found)
  {
    var i :| 0 <= i < |a| && a[i] == found.node && FirstAt(g, a, i);
    assert (a + b)[i] == found.node && FirstAt(g, a + b, i);
  }

  /** If the depth suffices, the search returns the first host in depth-first order, or there is none. */
  lemma {:induction false} FindsFirstHost(g: Graph, n: nat, depth: nat)
    requires g.Valid() && n < |g.roles|
    ensures FirstHostOf(g, Preorder(g, n, depth), FindHost(g, n, depth))
    decreases depth, 1, 0
  {
    if g.IsHost(n) {
      assert Preorder(g, n, depth)[0] == n && FirstAt(g, Preorder(g, n, depth), 0);
    } else if depth > 0 {
      FindsFirstHostOfAll(g, Steps(g, n), depth - 1);
      FirstHostAppend(g, [n], PreorderAll(g, Steps(g, n), depth - 1), FindHost(g, n, depth));
    }
  }

  lemma {:induction false} FindsFirstHostOfAll(g: Graph, nodes: seq<nat>, depth: nat)
    requires g.Valid() && forall i | 0 <= i < |nodes| :: nodes[i] < |g.roles|
    ensures FirstHostOf(g, PreorderAll(g, nodes, depth), FindFirst(g, nodes, depth))
    decreases depth, 2, |nodes|
  {
    if nodes != [] {
      FindsFirstHost(g, nodes[0], depth);
      FindsFirstHostOfAll(g, nodes[1..], depth);
      var first, a, b := FindHost(g, nodes[0], depth), Preorder(g, nodes[0], depth), PreorderAll(g, nodes[1..], depth);
      if first.NoHost? {
        FirstHostAppend(g, a, b, FindFirst(g, nodes[1..], depth));
      } else if first.Host? {
        FirstHostExtends(g, a, b, first);
      }
    }
  }

  // ----- Reachability

  /** A path of links by which the search may go on. */
  ghost predicate IsPath(g: Graph, path: seq<nat>)
    requires g.Valid()
  {
    && path != [] && (forall i | 0 <= i < |path| :: path[i] < |g.roles|)
    && forall i | 0 <= i < |path| - 1 :: Linked(g, path[i], path[i + 1])
  }

  ghost predicate Reaches(g: Graph, n: nat, h: nat)
    requires g.Valid()
  {
    exists path :: IsPath(g, path) && path[0] == n && path[|path| - 1] == h
  }

  lemma PathTail(g: Graph, path: seq<nat>)
    requires g.Valid() && IsPath(g, path) && |path| > 1
    ensures IsPath(g, path[1..]) && Linked(g, path[0], path[1])
  {
  }

  lemma PathCons(g: Graph, n: nat, path: seq<nat>)
    requires g.Valid() && n < |g.roles| && IsPath(g, path) && Linked(g, n, path[0])
    ensures IsPath(g, [n] + path)
  {
  }

  lemma {:induction false} FoundReachable(g: Graph, n: nat, depth: nat) returns (path: seq<nat>)
    requires g.Valid() && n < |g.roles| && FindHost(g, n, depth).Host?
    ensures var h := FindHost(g, n, depth).node;
            IsPath(g, path) && path[0] == n && path[|path| - 1] == h && g.IsHost(h)
    decreases depth, 1, 0
  {
    if g.IsHost(n) {
      path := [n];
    } else {
      var i, rest := FoundAmong(g, Steps(g, n), depth - 1);
      PathCons(g, n, rest);
      path := [n] + rest;
    }
  }

  lemma {:induction false} FoundAmong(g: Graph, nodes: seq<nat>, depth: nat) returns (i: nat, path: seq<nat>)
    requires g.Valid() && (forall i | 0 <= i < |nodes| :: nodes[i] < |g.roles|) && FindFirst(g, nodes, depth).Host?
    ensures var h := FindFirst(g, nodes, depth).node;
            i < |nodes| && IsPath(g, path) && path[0] == nodes[i] && path[|path| - 1] == h && g.IsHost(h)
    decreases depth, 2, |nodes|
  {
    if FindHost(g, nodes[0], depth).Host? {
      path := FoundReachable(g, nodes[0], depth);
      i := 0;
    } else {
      i, path := FoundAmong(g, nodes[1..], depth);
      i := i + 1;
    }
  }

  /** A search that ends without a host has passed every node that can be reached. */
  lemma {:induction false} NotFoundUnreachable(g: Graph, n: nat, depth: nat, path: seq<nat>)
    requires g.Valid() && n < |g.roles| && FindHost(g, n, depth).NoHost?
    requires IsPath(g, path) && path[0] == n
    ensures !g.IsHost(path[|path| - 1])
    decreases |path|
  {
    if |path| > 1 {
      PathTail(g, path);
      NoneAmong(g, Steps(g, n), depth - 1, path[1]);
      NotFoundUnreachable(g, path[1], depth - 1, path[1..]);
    }
  }

  lemma {:induction false} NoneAmong(g: Graph, nodes: seq<nat>, depth: nat, n: nat)
    requires g.Valid() && (forall i | 0 <= i < |nodes| :: nodes[i] < |g.roles|) && n in nodes
    requires FindFirst(g, nodes, depth).NoHost?
    ensures FindHost(g, n, depth).NoHost?
    decreases |nodes|
  {
    if n != nodes[0] {
      NoneAmong(g, nodes[1..], depth, n);
    }
  }

  /** What a search that ends says: it finds a reachable host, its own host in turn, or there is none to reach. */
  lemma HostIffReachable(g: Graph, n: nat, depth: nat)
    requires g.Valid() && n < |g.roles| && !FindHost(g, n, depth).TooDeep?
    ensures FindHost(g, n, depth).NoHost? <==> forall h | 0 <= h < |g.roles| && g.IsHost(h) :: !Reaches(g, n, h)
    ensures FindHost(g, n, depth).Host? ==>
              var h := FindHost(g, n, depth).node;
              h < |g.roles| && g.IsHost(h) && Reaches(g, n, h) && forall d: nat :: FindHost(g, h, d) == Host(h)
  {
    if FindHost(g, n, depth).Host? {
      var path := FoundReachable(g, n, depth);
      assert Reaches(g, n, FindHost(g, n, depth).node);
    } else {
      forall h | 0 <= h < |g.roles| && g.IsHost(h)
        ensures !Reaches(g, n, h)
      {
        forall path | IsPath(g, path) && path[0] == n
          ensures path[|path| - 1] != h
        {
          NotFoundUnreachable(g, n, depth, path);
        }
      }
    }
  }

  // ----- Termination

  /** A chain of search steps through nodes without the host role. */
  ghost predicate HostlessChain(g: Graph, path: seq<nat>, n: nat)
    requires g.Valid()
  {
    IsPath(g, path) && path[0] == n && forall i | 0 <= i < |path| :: !g.IsHost(path[i])
  }

  /** No host can be reached from the node. */
  ghost predicate HostFree(g: Graph, n: nat)
    requires g.Valid()
  {
    forall h | 0 <= h < |g.roles| && g.IsHost(h) :: !Reaches(g, n, h)
  }

  /** The search at a node comes to outbound link i, to node `to`: no host relationship before leads to a host. */
  ghost predicate ByOutbound(g: Graph, from: nat, to: nat, i: nat)
    requires g.Valid() && from < |g.roles|
  {
    var links := g.outbound[from];
    i < |links| && links[i] == Link(Some("host"), to) && NoneLeadsToHost(g, links[..i], "host")
  }

  /** Or to inbound link i: no host relationship leads to a host, and no feature relationship before does. */
  ghost predicate ByInbound(g: Graph, from: nat, to: nat, i: nat)
    requires g.Valid() && from < |g.roles|
  {
    var links := g.inbound[from];
    && NoneLeadsToHost(g, g.outbound[from], "host")
    && i < |links| && links[i] == Link(Some("feature"), to) && NoneLeadsToHost(g, links[..i], "feature")
  }

  ghost predicate NoneLeadsToHost(g: Graph, links: seq<Link>, role: string)
    requires g.Valid()
  {
    forall i | 0 <= i < |links| && links[i].role == Some(role) :: HostFree(g, links[i].node)
  }

  /** The search at a node comes to this next node. */
  ghost predicate Searched(g: Graph, from: nat, to: nat)
    requires g.Valid() && from < |g.roles|
  {
    exists i :: ByOutbound(g, from, to, i) || ByInbound(g, from, to, i)
  }

  ghost predicate SearchedAt(g: Graph, nodes: seq<nat>, to: nat, i: nat)
    requires g.Valid()
  {
    i < |nodes| && nodes[i] == to && forall j | 0 <= j < i :: HostFree(g, nodes[j])
  }

  ghost predicate AllHostFree(g: Graph, nodes: seq<nat>)
    requires g.Valid()
  {
    forall j | 0 <= j < |nodes| :: HostFree(g, nodes[j])
  }

  lemma NoneLeadsByEnds(g: Graph, links: seq<Link>, role: string)
    requires g.Valid()
    ensures NoneLeadsToHost(g, links, role) <==> AllHostFree(g, Ends(links, role))
  {
    var ends := Ends(links, role);
    forall i | 0 <= i < |links| && links[i].role == Some(role)
      ensures links[i].node in ends
    {
      assert links[i] == Link(Some(role), links[i].node);
    }
    forall j | 0 <= j < |ends|
      ensures exists i :: 0 <= i < |links| && links[i] == Link(Some(role), ends[j])
    {
      assert ends[j] in ends;
    }
  }

  lemma SearchedAtMeans(g: Graph, nodes: seq<nat>, to: nat, k: nat)
    requires g.Valid()
    ensures SearchedAt(g, nodes, to, k) <==> k < |nodes| && nodes[k] == to && AllHostFree(g, nodes[..k])
  {
    if k < |nodes| {
      assert forall j | 0 <= j < k :: nodes[..k][j] == nodes[j];
    }
  }

  lemma SearchedAtBehind(g: Graph, a: seq<nat>, b: seq<nat>, to: nat, k: nat)
    requires g.Valid()
    ensures SearchedAt(g, a + b, to, |a| + k) <==> AllHostFree(g, a) && SearchedAt(g, b, to, k)
  {
    if SearchedAt(g, a + b, to, |a| + k) {
      forall j | 0 <= j < |a|
        ensures HostFree(g, a[j])
      {
        assert HostFree(g, (a + b)[j]);
      }
      forall j | 0 <= j < k
        ensures HostFree(g, b[j])
      {
        assert HostFree(g, (a + b)[|a| + j]);
      }
    }
  }

  /** The links in order are the steps in order. */
  lemma SearchedIff(g: Graph, from: nat, to: nat)
    requires g.Valid() && from < |g.roles|
    ensures Searched(g, from, to) <==> exists k :: SearchedAt(g, Steps(g, from), to, k)
  {
    if k :| SearchedAt(g, Steps(g, from), to, k) {
      StepIsSearched(g, from, to, k);
    }
    if i :| ByOutbound(g, from, to, i) {
      OutboundIsStep(g, from, to, i);
    } else if i :| ByInbound(g, from, to, i) {
      InboundIsStep(g, from, to, i);
    }
  }

  lemma StepIsSearched(g: Graph, from: nat, to: nat, k: nat)
    requires g.Valid() && from < |g.roles| && SearchedAt(g, Steps(g, from), to, k)
    ensures Searched(g, from, to)
  {
    var outs, ins, steps := Ends(g.outbound[from], "host"), Ends(g.inbound[from], "feature"), Steps(g, from);
    if k < |outs| {
      var i := EndsPosition(g.outbound[from], "host", k);
      SearchedAtMeans(g, steps, to, k);
      assert steps[..k] == outs[..k];
      NoneLeadsByEnds(g, g.outbound[from][..i], "host");
      assert ByOutbound(g, from, to, i);
    } else {
      var m := k - |outs|;
      SearchedAtBehind(g, outs, ins, to, m);
      var i := EndsPosition(g.inbound[from], "feature", m);
      SearchedAtMeans(g, ins, to, m);
      NoneLeadsByEnds(g, g.outbound[from], "host");
      NoneLeadsByEnds(g, g.inbound[from][..i], "feature");
      assert ByInbound(g, from, to, i);
    }
  }

  lemma OutboundIsStep(g: Graph, from: nat, to: nat, i: nat)
    requires g.Valid() && from < |g.roles| && ByOutbound(g, from, to, i)
    ensures exists k :: SearchedAt(g, Steps(g, from), to, k)
  {
    var before, steps := Ends(g.outbound[from][..i], "host"), Steps(g, from);
    EndsSplit(g.outbound[from], "host", i);
    NoneLeadsByEnds(g, g.outbound[from][..i], "host");
    assert steps[..|before|] == before;
    SearchedAtMeans(g, steps, to, |before|);
  }

  lemma InboundIsStep(g: Graph, from: nat, to: nat, i: nat)
    requires g.Valid() && from < |g.roles| && ByInbound(g, from, to, i)
    ensures exists k :: SearchedAt(g, Steps(g, from), to, k)
  {
    var outs, ins := Ends(g.outbound[from], "host"), Ends(g.inbound[from], "feature");
    var k := |Ends(g.inbound[from][..i], "feature")|;
    EndsSplit(g.inbound[from], "feature", i);
    NoneLeadsByEnds(g, g.outbound[from], "host");
    NoneLeadsByEnds(g, g.inbound[from][..i], "feature");
    SearchedAtMeans(g, ins, to, k);
    SearchedAtBehind(g, outs, ins, to, k);
    assert SearchedAt(g, Steps(g, from), to, |outs| + k);
  }

  /** A chain of nodes without the host role that the search goes along. */
  ghost predicate SearchedChain(g: Graph, path: seq<nat>, n: nat)
    requires g.Valid()
  {
    HostlessChain(g, path, n) && forall i | 0 <= i < |path| - 1 :: Searched(g, path[i], path[i + 1])
  }

  ghost predicate ComesBack(path: seq<nat>) {
    !NoRepeats(path)
  }

  lemma SearchedCons(g: Graph, n: nat, path: seq<nat>)
    requires g.Valid() && n < |g.roles| && !g.IsHost(n) && path != [] && SearchedChain(g, path, path[0])
    requires Searched(g, n, path[0])
    ensures SearchedChain(g, [n] + path, n)
  {
    PathCons(g, n, path);
    var longer := [n] + path;
    forall i | 0 <= i < |longer| - 1
      ensures Searched(g, longer[i], longer[i + 1])
    {
      assert i > 0 ==> Searched(g, path[i - 1], path[i]);
    }
  }

  lemma {:induction false} DeepChain(g: Graph, n: nat, depth: nat) returns (path: seq<nat>)
    requires g.Valid() && n < |g.roles| && FindHost(g, n, depth).TooDeep?
    ensures SearchedChain(g, path, n) && |path| == depth + 1
    decreases depth
  {
    path := [n];
    if depth > 0 {
      var nodes := Steps(g, n);
      var i := FirstTooDeep(g, nodes, depth - 1);
      var rest := DeepChain(g, nodes[i], depth - 1);
      assert SearchedAt(g, nodes, nodes[i], i);
      SearchedIff(g, n, nodes[i]);
      SearchedCons(g, n, rest);
      path := [n] + rest;
    }
  }

  /** The node at which the search of a list runs out of depth; those before it lead to no host. */
  lemma {:induction false} FirstTooDeep(g: Graph, nodes: seq<nat>, depth: nat) returns (i: nat)
    requires g.Valid() && (forall i | 0 <= i < |nodes| :: nodes[i] < |g.roles|) && FindFirst(g, nodes, depth).TooDeep?
    ensures i < |nodes| && FindHost(g, nodes[i], depth).TooDeep?
    ensures forall j | 0 <= j < i :: HostFree(g, nodes[j])
    decreases |nodes|
  {
    i := 0;
    if !FindHost(g, nodes[0], depth).TooDeep? {
      NoneFoundHostFree(g, nodes[0], depth);
      var rest := nodes[1..];
      assert forall j | 0 <= j < |rest| :: rest[j] == nodes[j + 1];
      i := FirstTooDeep(g, rest, depth);
      i := i + 1;
      forall j | 0 <= j < i
        ensures HostFree(g, nodes[j])
      {
        assert j > 0 ==> HostFree(g, rest[j - 1]);
      }
    }
  }

  lemma NoneFoundHostFree(g: Graph, n: nat, depth: nat)
    requires g.Valid() && n < |g.roles| && FindHost(g, n, depth).NoHost?
    ensures HostFree(g, n)
  {
    HostIffReachable(g, n, depth);
  }

  /** And back: a node that exhausts the depth does so for the list, if those before it lead to no host. */
  lemma {:induction false} ListTooDeep(g: Graph, nodes: seq<nat>, i: nat, depth: nat)
    requires g.Valid() && (forall i | 0 <= i < |nodes| :: nodes[i] < |g.roles|) && i < |nodes|
    requires FindHost(g, nodes[i], depth).TooDeep? && forall j | 0 <= j < i :: HostFree(g, nodes[j])
    ensures FindFirst(g, nodes, depth).TooDeep?
    decreases i
  {
    if i > 0 {
      HostFreeFindsNone(g, nodes[0], depth);
      var rest := nodes[1..];
      assert forall j | 0 <= j < |rest| :: rest[j] == nodes[j + 1];
      ListTooDeep(g, rest, i - 1, depth);
    }
  }

  lemma HostFreeFindsNone(g: Graph, n: nat, depth: nat)
    requires g.Valid() && n < |g.roles| && HostFree(g, n)
    ensures !FindHost(g, n, depth).Host?
  {
    if FindHost(g, n, depth).Host? {
      var path := FoundReachable(g, n, depth);
      assert Reaches(g, n, FindHost(g, n, depth).node);
    }
  }

  /** Along a searched chain that comes back to a node, no depth suffices. */
  lemma {:induction false} ReturningChainTooDeep(g: Graph, path: seq<nat>, a: nat, b: nat, i: nat, depth: nat)
    requires g.Valid() && path != [] && SearchedChain(g, path, path[0])
    requires a < b < |path| && path[a] == path[b] && i <= b
    ensures FindHost(g, path[i], depth).TooDeep?
    decreases depth
  {
    if depth > 0 {
      var k := if i == b then a else i;
      assert Searched(g, path[k], path[k + 1]);
      SearchedIff(g, path[k], path[k + 1]);
      var m :| SearchedAt(g, Steps(g, path[k]), path[k + 1], m);
      ReturningChainTooDeep(g, path, a, b, k + 1, depth - 1);
      ListTooDeep(g, Steps(g, path[k]), m, depth - 1);
    }
  }

  ghost predicate NeverEnds(g: Graph, n: nat)
    requires g.Valid() && n < |g.roles|
  {
    forall depth: nat :: FindHost(g, n, depth).TooDeep?
  }

  /**
   When the search never ends: exactly when it goes along a chain of nodes without the host role that
   comes back to a node. Then, and only then, a depth of the number of nodes does not suffice.
   */
  lemma NeverEndsIff(g: Graph, n: nat)
    requires g.Valid() && n < |g.roles|
    ensures NeverEnds(g, n) <==> exists path :: SearchedChain(g, path, n) && ComesBack(path)
    ensures NeverEnds(g, n) <==> FindHost(g, n, |g.roles|).TooDeep?
  {
    if FindHost(g, n, |g.roles|).TooDeep? {
      var path := DeepChain(g, n, |g.roles|);
      BelowCount(|g.roles|);
      if !ComesBack(path) {
        NoRepeatsBound(path, Below(|g.roles|));
      }
      assert SearchedChain(g, path, n) && ComesBack(path);
    } else {
      assert !NeverEnds(g, n);
    }
    if path :| SearchedChain(g, path, n) && ComesBack(path) {
      var a, b :| 0 <= a < b < |path| && path[a] == path[b];
      forall depth: nat
        ensures FindHost(g, n, depth).TooDeep?
      {
        ReturningChainTooDeep(g, path, a, b, 0, depth);
      }
    }
  }

  // ----- The host, by the links

  /** A path of searched links through nodes without the host role to the host h. */
  ghost predicate LeadsToHost(g: Graph, path: seq<nat>, n: nat, h: nat)
    requires g.Valid()
  {
    && IsPath(g, path) && path[0] == n && path[|path| - 1] == h && g.IsHost(h)
    && forall i | 0 <= i < |path| - 1 :: !g.IsHost(path[i]) && Searched(g, path[i], path[i + 1])
  }

  /**
   The host of a node, when the search ends, over the links: a host is its own host. For any other node it
   is the host of the first outbound host relationship whose target leads to a host; if there is none, of
   the first inbound feature relationship whose source does. If there is none either, there is no host.
   */
  lemma HostByLinks(g: Graph, n: nat, depth: nat, h: nat)
    requires g.Valid() && n < |g.roles| && !FindHost(g, n, depth).TooDeep?
    ensures FindHost(g, n, depth) == Host(h) <==> exists path :: LeadsToHost(g, path, n, h)
  {
    if FindHost(g, n, depth) == Host(h) {
      var path := FoundChain(g, n, depth);
    }
    if path :| LeadsToHost(g, path, n, h) {
      ChainFinds(g, path, depth, h);
    }
  }

  lemma {:induction false} FoundChain(g: Graph, n: nat, depth: nat) returns (path: seq<nat>)
    requires g.Valid() && n < |g.roles| && FindHost(g, n, depth).Host?
    ensures LeadsToHost(g, path, n, FindHost(g, n, depth).node)
    decreases depth
  {
    path := [n];
    if !g.IsHost(n) {
      var nodes := Steps(g, n);
      var i := FirstFound(g, nodes, depth - 1);
      var rest := FoundChain(g, nodes[i], depth - 1);
      assert SearchedAt(g, nodes, nodes[i], i);
      SearchedIff(g, n, nodes[i]);
      LeadsToHostCons(g, n, rest, FindHost(g, n, depth).node);
      path := [n] + rest;
    }
  }

  lemma LeadsToHostCons(g: Graph, n: nat, rest: seq<nat>, h: nat)
    requires g.Valid() && n < |g.roles| && !g.IsHost(n) && rest != [] && LeadsToHost(g, rest, rest[0], h)
    requires Searched(g, n, rest[0])
    ensures LeadsToHost(g, [n] + rest, n, h)
  {
    PathCons(g, n, rest);
    var longer := [n] + rest;
    forall i | 0 <= i < |longer| - 1
      ensures !g.IsHost(longer[i]) && Searched(g, longer[i], longer[i + 1])
    {
      assert i > 0 ==> !g.IsHost(rest[i - 1]) && Searched(g, rest[i - 1], rest[i - 1 + 1]);
    }
  }

  /** The node of a list that the host comes from; those before it lead to no host. */
  lemma {:induction false} FirstFound(g: Graph, nodes: seq<nat>, depth: nat) returns (i: nat)
    requires g.Valid() && (forall i | 0 <= i < |nodes| :: nodes[i] < |g.roles|) && FindFirst(g, nodes, depth).Host?
    ensures i < |nodes| && FindHost(g, nodes[i], depth) == FindFirst(g, nodes, depth)
    ensures forall j | 0 <= j < i :: HostFree(g, nodes[j])
    decreases |nodes|
  {
    i := 0;
    if FindHost(g, nodes[0], depth).NoHost? {
      NoneFoundHostFree(g, nodes[0], depth);
      var rest := nodes[1..];
      assert forall j | 0 <= j < |rest| :: rest[j] == nodes[j + 1];
      i := FirstFound(g, rest, depth);
      i := i + 1;
      forall j | 0 <= j < i
        ensures HostFree(g, nodes[j])
      {
        assert j > 0 ==> HostFree(g, rest[j - 1]);
      }
    }
  }

  lemma {:induction false} ChainFinds(g: Graph, path: seq<nat>, depth: nat, h: nat)
    requires g.Valid() && path != [] && LeadsToHost(g, path, path[0], h) && !FindHost(g, path[0], depth).TooDeep?
    ensures FindHost(g, path[0], depth) == Host(h)
    decreases |path|
  {
    if |path| > 1 {
      assert !g.IsHost(path[0]) && Searched(g, path[0], path[0 + 1]);
      SearchedIff(g, path[0], path[1]);
      var k :| SearchedAt(g, Steps(g, path[0]), path[1], k);
      PathTail(g, path);
      var rest := path[1..];
      forall i | 0 <= i < |rest| - 1
        ensures !g.IsHost(rest[i]) && Searched(g, rest[i], rest[i + 1])
      {
        assert !g.IsHost(path[i + 1]) && Searched(g, path[i + 1], path[i + 1 + 1]);
      }
      ListSearched(g, Steps(g, path[0]), k, depth - 1);
      ChainFinds(g, rest, depth - 1, h);
    }
  }

  /** If those before a node lead to no host, the search of a list comes to it. */
  lemma {:induction false} ListSearched(g: Graph, nodes: seq<nat>, k: nat, depth: nat)
    requires g.Valid() && (forall i | 0 <= i < |nodes| :: nodes[i] < |g.roles|) && k < |nodes|
    requires !FindFirst(g, nodes, depth).TooDeep? && forall j | 0 <= j < k :: HostFree(g, nodes[j])
    ensures !FindHost(g, nodes[k], depth).TooDeep?
    ensures FindHost(g, nodes[k], depth).Host? ==> FindFirst(g, nodes, depth) == FindHost(g, nodes[k], depth)
    decreases k
  {
    if k > 0 {
      HostFreeFindsNone(g, nodes[0], depth);
      var rest := nodes[1..];
      assert forall j | 0 <= j < |rest| :: rest[j] == nodes[j + 1];
      ListSearched(g, rest, k - 1, depth);
    }
  }

  /** If chains of nodes without the host role are bounded, so is the search. */
  lemma BoundedChainsTerminate(g: Graph, n: nat, bound: nat)
    requires g.Valid() && n < |g.roles|
    requires forall path :: HostlessChain(g, path, n) ==> |path| <= bound
    ensures !FindHost(g, n, bound).TooDeep?
  {
    if FindHost(g, n, bound).TooDeep? {
      var path := DeepChain(g, n, bound);
      assert false;
    }
  }

  /** If no chain of nodes without the host role comes back to a node, a depth of the number of nodes suffices. */
  lemma AcyclicSearchEnds(g: Graph, n: nat)
    requires g.Valid() && n < |g.roles|
    requires forall path: seq<nat> :: HostlessChain(g, path, n) ==> NoRepeats(path)
    ensures !FindHost(g, n, |g.roles|).TooDeep?
  {
    BelowCount(|g.roles|);
    forall path: seq<nat> | HostlessChain(g, path, n)
      ensures |path| <= |g.roles|
    {
      NoRepeatsBound(path, Below(|g.roles|));
    }
    BoundedChainsTerminate(g, n, |g.roles|);
  }

  /** More depth does not change what a search that ends returns. */
  lemma {:induction false} DepthIrrelevant(g: Graph, n: nat, depth: nat, more: nat)
    requires g.Valid() && n < |g.roles| && depth <= more && !FindHost(g, n, depth).TooDeep?
    ensures FindHost(g, n, more) == FindHost(g, n, depth)
    decreases depth, 1, 0
  {
    if !g.IsHost(n) {
      DepthIrrelevantAmong(g, Steps(g, n), depth - 1, more - 1);
    }
  }

  lemma {:induction false} DepthIrrelevantAmong(g: Graph, nodes: seq<nat>, depth: nat, more: nat)
    requires g.Valid() && (forall i | 0 <= i < |nodes| :: nodes[i] < |g.roles|) && depth <= more
             && !FindFirst(g, nodes, depth).TooDeep?
    ensures FindFirst(g, nodes, more) == FindFirst(g, nodes, depth)
    decreases depth, 2, |nodes|
  {
    if nodes != [] {
      DepthIrrelevant(g, nodes[0], depth, more);
      if FindHost(g, nodes[0], depth).NoHost? {
        DepthIrrelevantAmong(g, nodes[1..], depth, more);
      }
    }
  }

  /** Two nodes without the host role, each hosted on the other: no depth suffices. */
  lemma {:induction false} CycleNeverEnds(g: Graph, depth: nat)
    requires g == Graph([None, None], [[Link(Some("host"), 1)], [Link(Some("host"), 0)]], [[], []])
    ensures FindHost(g, 0, depth).TooDeep? && FindHost(g, 1, depth).TooDeep?
  {
    assert g.InRange(g.outbound[0]) && g.InRange(g.outbound[1]) && g.InRange([]);
    assert Steps(g, 0) == [1] && Steps(g, 1) == [0];
    if depth > 0 {
      CycleNeverEnds(g, depth - 1);
    }
  }

  /** The same cycle, but the first node is hosted on a host before that: the search ends. */
  lemma CycleBehindHostEnds(g: Graph)
    requires g == Graph([None, None, Some("host")],
                        [[Link(Some("host"), 2), Link(Some("host"), 1)], [Link(Some("host"), 0)], []], [[], [], []])
    ensures FindHost(g, 0, 1) == Host(2) && Steps(g, 0) == [2, 1] && Steps(g, 1) == [0]
  {
    assert g.InRange(g.outbound[0]) && g.InRange(g.outbound[1]) && g.InRange([]);
    var links := g.outbound[0];
    assert links[1..] == [Link(Some("host"), 1)];
    assert Ends(links[1..], "host") == [1];
    assert Ends(links, "host") == [2, 1];
    assert g.inbound[0] == [] && Steps(g, 0) == [2, 1] + [];
  }

  /** The hosts of the nodes of a service, assigned one node after the other. */
  class Hosts {
    var host: map<nat, Option<nat>>

    constructor ()
      ensures host == map[]
    {
      host := map[];
    }

    /** Assigns hosts as long as the search ends; false stands for the stack being exhausted. */
    method AssignHosts(g: Graph, service: seq<nat>, depth: nat) returns (ok: bool)
      requires g.Valid() && forall i | 0 <= i < |service| :: service[i] < |g.roles|
      modifies this
      ensures ok <==> forall i | 0 <= i < |service| :: !FindHost(g, service[i], depth).TooDeep?
      ensures ok ==> forall n | n in service ::
                n in host
                && (host[n].Some? ==>
                    host[n].value < |g.roles| && g.IsHost(host[n].value) && Reaches(g, n, host[n].value))
                && (host[n].None? <==> forall h | 0 <= h < |g.roles| && g.IsHost(h) :: !Reaches(g, n, h))
                && forall h: nat :: host[n] == Some(h) <==> exists path :: LeadsToHost(g, path, n, h)
      ensures ok ==> forall n, m | n in service && m in service && host[n] == Some(m) :: host[m] == Some(m)
    {
      for i := 0 to |service|
        invariant forall j | 0 <= j < i ::
          && !FindHost(g, service[j], depth).TooDeep? && service[j] in host
          && host[service[j]] == match FindHost(g, service[j], depth) case Host(h) => Some(h) case _ => None
      {
        match FindHost(g, service[i], depth) {
          case Host(h) => host := host[service[i] := Some(h)];
          case NoHost => host := host[service[i] := None];
          case TooDeep => return false;
        }
      }
      forall n | n in service
        ensures n < |g.roles| && !FindHost(g, n, depth).TooDeep? && n in host
        ensures host[n].Some? ==> host[n].value < |g.roles| && g.IsHost(host[n].value) && Reaches(g, n, host[n].value)
        ensures host[n].None? <==> forall h | 0 <= h < |g.roles| && g.IsHost(h) :: !Reaches(g, n, h)
        ensures forall h: nat :: host[n] == Some(h) <==> exists path :: LeadsToHost(g, path, n, h)
      {
        HostIffReachable(g, n, depth);
        forall h: nat
          ensures host[n] == Some(h) <==> exists path :: LeadsToHost(g, path, n, h)
        {
          HostByLinks(g, n, depth, h);
        }
      }
      return true;
    }
  }
}
