// The block graph of block.c without permissions: nodes, the edges (BdrvChild)
// between them, and reachability along edges.
module BlockTopology {
  import opened Options

  type NodeId = nat
  type EdgeId = nat

  // What a driver offers for permission updates: no driver at all, a leaf driver
  // with its own check callback, a leaf driver without, or one that derives the
  // permissions of its children.
  datatype Driver = NoDriver | Protocol | Plain | Format

  datatype Node = Node(children: seq<EdgeId>, parents: seq<EdgeId>, driver: Driver,
                       writable: bool, forceShare: bool)

  // An edge belongs to a node, or to a user outside the graph.
  datatype Link = Link(owner: Option<NodeId>, bs: NodeId, stayAtNode: bool, frozen: bool)

  datatype Topology = Topology(nodes: map<NodeId, Node>, links: map<EdgeId, Link>)

  // A rank that falls along every edge shows that there is no cycle.
  ghost predicate Ranked(g: Topology, rank: NodeId -> nat) {
    forall e {:trigger rank(g.links[e].bs)} :: e in g.links && g.links[e].owner.Some? ==> rank(g.links[e].bs) < rank(g.links[e].owner.value)
  }

  ghost predicate Distinct(s: seq<EdgeId>) {
    forall i, j :: 0 <= i < j < |s| ==> s[i] != s[j]
  }

  // Lists and links agree.
  ghost predicate Linked(g: Topology) {
    && (forall e {:trigger LinkOk(g, e)} :: e in g.links ==> LinkOk(g, e))
    && (forall n {:trigger NodeOk(g, n)} :: n in g.nodes ==> NodeOk(g, n))
  }

  ghost predicate LinkOk(g: Topology, e: EdgeId)
    requires e in g.links
  {
    var l := g.links[e];
    && l.bs in g.nodes && e in g.nodes[l.bs].parents
    && (l.owner.Some? ==> l.owner.value in g.nodes && e in g.nodes[l.owner.value].children)
  }

  ghost predicate NodeOk(g: Topology, n: NodeId)
    requires n in g.nodes
  {
    var x := g.nodes[n];
    && Distinct(x.children) && Distinct(x.parents)
    && (forall e :: e in x.children ==> e in g.links && g.links[e].owner == Some(n))
    && (forall e :: e in x.parents ==> e in g.links && g.links[e].bs == n)
    && (!x.driver.Format? ==> x.children == [])
  }

  // The edges `path` lead from a to b.
  ghost predicate Path(g: Topology, a: NodeId, path: seq<EdgeId>, b: NodeId)
    decreases |path|
  {
    if path == [] then a == b
    else path[0] in g.links && g.links[path[0]].owner == Some(a) && Path(g, g.links[path[0]].bs, path[1..], b)
  }

  ghost predicate Reach(g: Topology, a: NodeId, b: NodeId) {
    exists path :: Path(g, a, path, b)
  }

  // Edge e belongs to a node that can be reached from a.
  ghost predicate Below(g: Topology, a: NodeId, e: EdgeId) {
    e in g.links && g.links[e].owner.Some? && Reach(g, a, g.links[e].owner.value)
  }

  lemma ReachSelf(g: Topology, a: NodeId)
    ensures Reach(g, a, a)
  {
    assert Path(g, a, [], a);
  }

  lemma {:induction false} PathAppend(g: Topology, a: NodeId, p: seq<EdgeId>, b: NodeId, q: seq<EdgeId>, c: NodeId)
    requires Path(g, a, p, b) && Path(g, b, q, c)
    ensures Path(g, a, p + q, c)
    decreases |p|
  {
    if p == [] {
      assert p + q == q;
    } else {
      PathAppend(g, g.links[p[0]].bs, p[1..], b, q, c);
      assert (p + q)[1..] == p[1..] + q;
    }
  }

  lemma ReachTrans(g: Topology, a: NodeId, b: NodeId, c: NodeId)
    requires Reach(g, a, b) && Reach(g, b, c)
    ensures Reach(g, a, c)
  {
    var p :| Path(g, a, p, b);
    var q :| Path(g, b, q, c);
    PathAppend(g, a, p, b, q, c);
  }

  lemma ReachChild(g: Topology, e: EdgeId)
    requires e in g.links && g.links[e].owner.Some?
    ensures Reach(g, g.links[e].owner.value, g.links[e].bs)
  {
    assert Path(g, g.links[e].bs, [], g.links[e].bs);
    assert [e][1..] == [];
    assert Path(g, g.links[e].owner.value, [e], g.links[e].bs);
  }

  // A step away from a, every path goes through a child of a.
  lemma ReachStep(g: Topology, a: NodeId, b: NodeId)
    requires Reach(g, a, b) && a != b
    ensures exists e :: e in g.links && g.links[e].owner == Some(a) && Reach(g, g.links[e].bs, b)
  {
    var p :| Path(g, a, p, b);
    assert p != [];
    assert Path(g, g.links[p[0]].bs, p[1..], b);
  }

  lemma {:induction false} PathRank(g: Topology, rank: NodeId -> nat, a: NodeId, p: seq<EdgeId>, b: NodeId)
    requires Ranked(g, rank) && Path(g, a, p, b)
    ensures rank(b) + |p| <= rank(a)
    decreases |p|
  {
    if p != [] {
      PathRank(g, rank, g.links[p[0]].bs, p[1..], b);
    }
  }

  lemma ReachRank(g: Topology, rank: NodeId -> nat, a: NodeId, b: NodeId)
    requires Ranked(g, rank) && Reach(g, a, b)
    ensures rank(b) <= rank(a) && (a != b ==> rank(b) < rank(a))
  {
    var p :| Path(g, a, p, b);
    PathRank(g, rank, a, p, b);
  }

  // What lies below a child of a lies below a; the rest is the child's own edge or
  // that of another child.
  lemma BelowChild(g: Topology, a: NodeId, c: EdgeId, e: EdgeId)
    requires c in g.links && g.links[c].owner == Some(a) && Below(g, g.links[c].bs, e)
    ensures Below(g, a, e)
  {
    ReachChild(g, c);
    ReachTrans(g, a, g.links[c].bs, g.links[e].owner.value);
  }

  lemma BelowSplit(g: Topology, a: NodeId, e: EdgeId)
    requires Below(g, a, e)
    ensures || g.links[e].owner == Some(a)
            || exists c :: c in g.links && g.links[c].owner == Some(a) && Below(g, g.links[c].bs, e)
  {
    var b := g.links[e].owner.value;
    if a != b {
      ReachStep(g, a, b);
    }
  }

  // The edge of a child is not below that child.
  lemma NotBelowSelf(g: Topology, rank: NodeId -> nat, a: NodeId, c: EdgeId, e: EdgeId)
    requires Ranked(g, rank) && c in g.links && e in g.links
    requires g.links[c].owner == Some(a) && g.links[e].owner == Some(a)
    ensures !Below(g, g.links[c].bs, e)
  {
    if Below(g, g.links[c].bs, e) {
      ReachRank(g, rank, g.links[c].bs, a);
    }
  }

  // Every node that can be reached from a, other than a, is entered by one edge only of
  // those below a.
  ghost predicate OnePath(g: Topology, a: NodeId) {
    forall e, f {:trigger Below(g, a, e), Below(g, a, f)} ::
      Below(g, a, e) && Below(g, a, f) && g.links[e].bs == g.links[f].bs ==> e == f
  }

  lemma OnePathChild(g: Topology, a: NodeId, c: EdgeId)
    requires OnePath(g, a) && c in g.links && g.links[c].owner == Some(a)
    ensures OnePath(g, g.links[c].bs)
  {
    forall e, f | Below(g, g.links[c].bs, e) && Below(g, g.links[c].bs, f) && g.links[e].bs == g.links[f].bs
      ensures e == f
    {
      BelowChild(g, a, c, e);
      BelowChild(g, a, c, f);
    }
  }

  // What can be reached is entered by an edge below.
  lemma {:induction false} LastEdge(g: Topology, a: NodeId, path: seq<EdgeId>, b: NodeId) returns (f: EdgeId)
    requires Path(g, a, path, b) && a != b
    ensures Below(g, a, f) && g.links[f].bs == b
    decreases |path|
  {
    f := path[0];
    var next := g.links[f].bs;
    ReachSelf(g, a);
    if next != b {
      f := LastEdge(g, next, path[1..], b);
      BelowChild(g, a, path[0], f);
    }
  }

  // References to n beyond those of its parent edges.
  ghost function Spare(refs: map<NodeId, int>, g: Topology, n: NodeId): int
    requires n in refs && n in g.nodes
  {
    refs[n] - |g.nodes[n].parents|
  }

  // Every parent edge holds a reference.
  ghost predicate Referenced(g: Topology, refs: map<NodeId, int>) {
    && refs.Keys == g.nodes.Keys
    && forall n {:trigger Spare(refs, g, n)} :: n in refs ==> 0 <= Spare(refs, g, n)
  }
}
