// Making the users of one block node use another one instead: which edges move, what
// the graph looks like afterwards, and what a refused replacement leaves behind.
module BlockReplacement {
  import opened Options
  import opened BlockTopology
  import opened BlockPermissions
  import opened BlockLayers

  // ------------------------------------------------------------ which edges move

  // Everything n's children lead to has been found, and c is not one of them.
  ghost predicate Explored(g: Topology, found: set<NodeId>, c: EdgeId, n: NodeId) {
    forall e {:trigger g.links[e]} :: e in g.links && g.links[e].owner == Some(n) ==> g.links[e].bs in found && e != c
  }

  lemma {:induction false} FoundAll(g: Topology, found: set<NodeId>, c: EdgeId, a: NodeId, path: seq<EdgeId>, b: NodeId)
    requires Path(g, a, path, b) && a in found
    requires forall n {:trigger Explored(g, found, c, n)} :: n in found ==> Explored(g, found, c, n)
    ensures b in found && Explored(g, found, c, b)
    decreases |path|
  {
    assert Explored(g, found, c, a);
    if path != [] {
      FoundAll(g, found, c, g.links[path[0]].bs, path[1..], b);
    }
  }

  // The breadth-first search of should_update_child finds exactly whether c lies below `to`.
  method ShouldUpdateChild(g: Topology, c: EdgeId, to: NodeId) returns (r: bool)
    requires Linked(g) && c in g.links && to in g.nodes
    ensures r <==> !g.links[c].stayAtNode && !Below(g, to, c)
  {
    if g.links[c].stayAtNode {
      return false;
    }
    r := true;
    var found, queue := {to}, [to];
    ReachSelf(g, to);
    while queue != []
      invariant to in found && found <= g.nodes.Keys
      invariant forall x :: x in queue ==> x in found
      invariant forall x :: x in found ==> Reach(g, to, x)
      invariant r ==> forall x {:trigger Explored(g, found, c, x)} :: x in found && x !in queue ==> Explored(g, found, c, x)
      invariant !r ==> Below(g, to, c)
      decreases g.nodes.Keys - found, |queue|
    {
      ghost var found0, queue0 := found, queue;
      var v := queue[0];
      queue := queue[1..];
      var hit;
      hit, found, queue := Visit(g, c, to, v, found, queue);
      if hit {
        r := false;
      }
      forall x | r && x in found && x !in queue
        ensures Explored(g, found, c, x)
      {
        assert x == v || (x in found0 && x !in queue0);
        assert x != v ==> Explored(g, found0, c, x);
      }
    }
    if r && Below(g, to, c) {
      var owner := g.links[c].owner.value;
      var path :| Path(g, to, path, owner);
      FoundAll(g, found, c, to, path, owner);
    }
  }

  // The inner loop: the children of v.
  method Visit(g: Topology, c: EdgeId, ghost to: NodeId, v: NodeId, found0: set<NodeId>, queue0: seq<NodeId>)
    returns (hit: bool, found: set<NodeId>, queue: seq<NodeId>)
    requires Linked(g) && c in g.links && v in found0 && found0 <= g.nodes.Keys
    requires forall x :: x in queue0 ==> x in found0
    requires forall x :: x in found0 ==> Reach(g, to, x)
    ensures found0 <= found <= g.nodes.Keys && queue0 <= queue
    ensures found == found0 ==> queue == queue0
    ensures forall x :: x in queue ==> x in found
    ensures forall x :: x in found && x !in found0 ==> x in queue
    ensures forall x :: x in found ==> Reach(g, to, x)
    ensures hit ==> Below(g, to, c)
    ensures !hit ==> Explored(g, found, c, v)
  {
    found, queue := found0, queue0;
    var children := g.nodes[v].children;
    assert NodeOk(g, v);
    for i := 0 to |children|
      invariant found0 <= found <= g.nodes.Keys && queue0 <= queue
      invariant found == found0 ==> queue == queue0
      invariant forall x :: x in queue ==> x in found
      invariant forall x :: x in found && x !in found0 ==> x in queue
      invariant forall x :: x in found ==> Reach(g, to, x)
      invariant forall j :: 0 <= j < i ==> g.links[children[j]].bs in found && children[j] != c
    {
      var c2 := children[i];
      if c2 == c {
        return true, found, queue;
      }
      var bs := g.links[c2].bs;
      if bs in found {
        continue;
      }
      assert LinkOk(g, c2);
      ReachChild(g, c2);
      ReachTrans(g, to, v, bs);
      queue := queue + [bs];
      found := found + {bs};
    }
    hit := false;
    forall e | e in g.links && g.links[e].owner == Some(v)
      ensures g.links[e].bs in found && e != c
    {
      assert LinkOk(g, e);
    }
  }

  // ------------------------------------------------------------- moving edges

  // QLIST_REMOVE
  function Without(s: seq<EdgeId>, c: EdgeId): seq<EdgeId> {
    if s == [] then [] else if s[0] == c then s[1..] else [s[0]] + Without(s[1..], c)
  }

  lemma DistinctCons(x: EdgeId, s: seq<EdgeId>)
    ensures Distinct([x] + s) <==> x !in s && Distinct(s)
  {
    var t := [x] + s;
    assert forall i :: 0 <= i < |s| ==> t[i + 1] == s[i];
    if Distinct(t) {
      forall i, j | 0 <= i < j < |s|
        ensures s[i] != s[j]
      {
        assert t[i + 1] != t[j + 1];
      }
      forall i | 0 <= i < |s|
        ensures s[i] != x
      {
        assert t[0] != t[i + 1];
      }
    }
  }

  lemma {:induction false} WithoutIs(s: seq<EdgeId>, c: EdgeId)
    requires Distinct(s)
    ensures forall e :: e in Without(s, c) <==> e in s && e != c
    ensures Distinct(Without(s, c))
    ensures |Without(s, c)| == |s| - if c in s then 1 else 0
  {
    if s != [] {
      assert s == [s[0]] + s[1..];
      DistinctCons(s[0], s[1..]);
      WithoutIs(s[1..], c);
      DistinctCons(s[0], Without(s[1..], c));
    }
  }

  // bdrv_replace_child_noperm
  function MoveEdge(g: Topology, c: EdgeId, to: NodeId): Topology
    requires c in g.links && g.links[c].bs in g.nodes && to in g.nodes
  {
    var bs := g.links[c].bs;
    var nodes := g.nodes[bs := g.nodes[bs].(parents := Without(g.nodes[bs].parents, c))];
    Topology(nodes[to := nodes[to].(parents := [c] + nodes[to].parents)], g.links[c := g.links[c].(bs := to)])
  }

  // g' is g with the edges in cs pointing at `to`; nothing else but parent lists differs.
  ghost predicate Moved(g: Topology, g': Topology, cs: seq<EdgeId>, to: NodeId) {
    && g'.links.Keys == g.links.Keys && g'.nodes.Keys == g.nodes.Keys
    && (forall e :: e in g.links ==> g'.links[e] == if e in cs then g.links[e].(bs := to) else g.links[e])
    && (forall n :: n in g.nodes ==> g'.nodes[n] == g.nodes[n].(parents := g'.nodes[n].parents))
  }

  // bdrv_ref and bdrv_unref
  function Ref(refs: map<NodeId, int>, n: NodeId): map<NodeId, int>
    requires n in refs
  {
    refs[n := refs[n] + 1]
  }

  function Unref(refs: map<NodeId, int>, n: NodeId): map<NodeId, int>
    requires n in refs && refs[n] > 0
  {
    refs[n := refs[n] - 1]
  }

  ghost predicate Balanced(g: Topology, refs: map<NodeId, int>, g': Topology, refs': map<NodeId, int>) {
    && refs.Keys == g.nodes.Keys == g'.nodes.Keys == refs'.Keys
    && forall n {:trigger Spare(refs', g', n)} :: n in refs' ==> Spare(refs', g', n) == Spare(refs, g, n)
  }

  // The parent list of every node is right after one edge has moved.
  lemma MoveParents(g: Topology, c: EdgeId, to: NodeId, n: NodeId)
    requires Linked(g) && c in g.links && g.links[c].bs in g.nodes && to in g.nodes && n in g.nodes
    ensures var g' := MoveEdge(g, c, to);
      && g'.nodes[n] == g.nodes[n].(parents := g'.nodes[n].parents)
      && Distinct(g'.nodes[n].parents)
      && |g'.nodes[n].parents| == |g.nodes[n].parents| - (if n == g.links[c].bs then 1 else 0) + (if n == to then 1 else 0)
    ensures forall e :: e in MoveEdge(g, c, to).nodes[n].parents <==> e in g.links && MoveEdge(g, c, to).links[e].bs == n
  {
    var bs := g.links[c].bs;
    assert LinkOk(g, c) && NodeOk(g, n);
    ParentsListed(g, n);
    WithoutIs(g.nodes[n].parents, c);
    var ps := if n == bs then Without(g.nodes[n].parents, c) else g.nodes[n].parents;
    assert MoveEdge(g, c, to).nodes[n].parents == if n == to then [c] + ps else ps;
    assert c !in ps;
    DistinctCons(c, ps);
    forall e
      ensures e in ps <==> e in g.links && g.links[e].bs == n && e != c
    {
      assert e in g.links && g.links[e].bs == n ==> LinkOk(g, e);
    }
  }

  lemma MoveOne(g: Topology, c: EdgeId, to: NodeId)
    requires Linked(g) && c in g.links && g.links[c].bs in g.nodes && to in g.nodes
    ensures Linked(MoveEdge(g, c, to)) && Moved(g, MoveEdge(g, c, to), [c], to)
  {
    var g' := MoveEdge(g, c, to);
    assert g'.links.Keys == g.links.Keys && g'.nodes.Keys == g.nodes.Keys;
    forall n | n in g'.nodes
      ensures NodeOk(g', n) && g'.nodes[n] == g.nodes[n].(parents := g'.nodes[n].parents)
    {
      assert NodeOk(g, n);
      MoveParents(g, c, to, n);
    }
    forall e | e in g'.links
      ensures LinkOk(g', e)
    {
      assert LinkOk(g, e);
      MoveParents(g, c, to, g'.links[e].bs);
    }
  }

  lemma MovedJoin(g: Topology, g1: Topology, g2: Topology, cs: seq<EdgeId>, c: EdgeId, to: NodeId)
    requires Moved(g, g1, cs, to) && Moved(g1, g2, [c], to)
    ensures Moved(g, g2, cs + [c], to)
  {
  }

  // What goes below `to` is the same in both graphs, provided no moved edge was there.
  lemma {:induction false} MovedPath(g: Topology, g': Topology, cs: seq<EdgeId>, to: NodeId, a: NodeId, path: seq<EdgeId>, b: NodeId)
    requires Moved(g, g', cs, to) && Reach(g, to, a)
    requires forall c {:trigger Below(g, to, c)} :: c in cs ==> !Below(g, to, c)
    ensures Path(g, a, path, b) <==> Path(g', a, path, b)
    decreases |path|
  {
    if path != [] && path[0] in g.links && g.links[path[0]].owner == Some(a) {
      assert Below(g, to, path[0]);
      ReachChild(g, path[0]);
      ReachTrans(g, to, a, g.links[path[0]].bs);
      MovedPath(g, g', cs, to, g.links[path[0]].bs, path[1..], b);
    }
  }

  lemma MovedReach(g: Topology, g': Topology, cs: seq<EdgeId>, to: NodeId)
    requires Moved(g, g', cs, to)
    requires forall c {:trigger Below(g, to, c)} :: c in cs ==> !Below(g, to, c)
    ensures forall x :: Reach(g', to, x) <==> Reach(g, to, x)
    ensures forall e :: Below(g', to, e) <==> Below(g, to, e)
  {
    ReachSelf(g, to);
    forall x
      ensures Reach(g', to, x) <==> Reach(g, to, x)
    {
      if path :| Path(g, to, path, x) {
        MovedPath(g, g', cs, to, to, path, x);
      }
      if path :| Path(g', to, path, x) {
        MovedPath(g, g', cs, to, to, path, x);
      }
    }
  }

  // A rank for the graph after the move: what is not below `to` goes above it.
  ghost function NewRank(g: Topology, rank: NodeId -> nat, to: NodeId): NodeId -> nat {
    n => if Reach(g, to, n) then rank(n) else rank(n) + rank(to) + 1
  }

  // The move creates no cycle.
  lemma MovedRanked(g: Topology, g': Topology, rank: NodeId -> nat, cs: seq<EdgeId>, to: NodeId)
    requires Moved(g, g', cs, to) && Ranked(g, rank)
    requires forall c {:trigger Below(g, to, c)} :: c in cs ==> !Below(g, to, c)
    ensures Ranked(g', NewRank(g, rank, to))
  {
    var r := NewRank(g, rank, to);
    forall e | e in g'.links && g'.links[e].owner.Some?
      ensures r(g'.links[e].bs) < r(g'.links[e].owner.value)
    {
      var a, b := g.links[e].owner.value, g.links[e].bs;
      assert rank(g.links[e].bs) < rank(a);
      ReachSelf(g, to);
      if e in cs {
        assert !Below(g, to, e);
      } else if Reach(g, to, a) {
        ReachChild(g, e);
        ReachTrans(g, to, a, b);
      } else if Reach(g, to, b) {
        ReachRank(g, rank, to, b);
      }
    }
  }

  // ------------------------------------------------------- permissions after the move

  // Edge by edge, what the moved users need together fits beside the users of `to`.
  lemma MovedCompatible(g: Topology, g': Topology, m: Grants, cs: seq<EdgeId>, from: NodeId, to: NodeId, grant: Grant)
    requires m.Keys == g.links.Keys && Moved(g, g', cs, to) && to in g.nodes
    requires forall c :: c in cs ==> c in g.links && g.links[c].bs == from
    requires forall c :: c in cs ==> m[c].grant.perm <= grant.perm && grant.shared <= m[c].grant.shared
    requires AllCompatible(g, m, (set c | c in cs)) && Accepts(g, m, to, grant, (set c | c in cs))
    requires forall e, f :: e in cs && f in cs && e != f ==> m[e].grant.perm <= m[f].grant.shared
    requires forall e :: e in cs ==> WriteUnchanged in m[e].grant.shared
    ensures AllCompatible(g', m, {})
  {
    var base := set c | c in cs;
    forall e, f | Peers(g', {}, e, f)
      ensures m[e].grant.perm <= m[f].grant.shared
    {
      if e !in cs && f !in cs {
        assert Peers(g, base, e, f);
      } else {
        assert e !in cs ==> IsParent(g, to, base, e);
        assert f !in cs ==> IsParent(g, to, base, f);
      }
    }
    forall e | e in g'.links
      ensures UserOk(g', m, e)
    {
      assert e !in cs ==> UserOk(g, m, e);
    }
  }

  // The parents of a node other than `to` are those that did not move.
  lemma MovedCumulative(g: Topology, g': Topology, m: Grants, cs: seq<EdgeId>, to: NodeId, x: NodeId)
    requires m.Keys == g.links.Keys && Moved(g, g', cs, to) && x != to
    ensures Cumulative(g', m, x, {}) == Cumulative(g, m, x, (set c | c in cs))
  {
    var base := set c | c in cs;
    assert forall e :: IsParent(g', x, {}, e) <==> IsParent(g, x, base, e);
    forall p: Perm
      ensures Uses(g', m, x, {}, p) <==> Uses(g, m, x, base, p)
      ensures Shares(g', m, x, {}, p) <==> Shares(g, m, x, base, p)
    {
    }
  }

  // At `to`, the moved users join the others.
  lemma MovedCumulativeTo(g: Topology, g': Topology, m: Grants, cs: seq<EdgeId>, to: NodeId)
    requires m.Keys == g.links.Keys && Moved(g, g', cs, to)
    requires forall c :: c in cs ==> c in g.links
    ensures Cumulative(g', m, to, {}) ==
      Join(Collected(m, {}, Grant({}, ALL), cs), Cumulative(g, m, to, (set c | c in cs)))
  {
    var base := set c | c in cs;
    var l := Cumulative(g', m, to, {});
    var r := Join(Collected(m, {}, Grant({}, ALL), cs), Cumulative(g, m, to, base));
    assert forall e :: IsParent(g', to, {}, e) <==> IsParent(g, to, base, e) || e in cs;
    forall p: Perm
      ensures (p in l.perm <==> p in r.perm) && (p in l.shared <==> p in r.shared)
    {
      CollectedHas(m, {}, Grant({}, ALL), cs, p);
      AllPerms(p);
    }
  }

  // What was settled without the moved users is settled with them where they are now.
  lemma MovedSettled(d: Drivers, g: Topology, g': Topology, m: Grants, cs: seq<EdgeId>, to: NodeId, cumulative: Grant)
    requires m.Keys == g.links.Keys && Moved(g, g', cs, to)
    requires forall c {:trigger Below(g, to, c)} :: c in cs ==> !Below(g, to, c)
    requires Derived(d, g, m, to, cumulative) && SettledBelow(d, g, m, to, (set c | c in cs))
    ensures Derived(d, g', m, to, cumulative) && SettledBelow(d, g', m, to, {})
  {
    MovedReach(g, g', cs, to);
    ReachSelf(g, to);
    forall x: NodeId, e | Reach(g, to, x) && e in g.links && g.links[e].owner == Some(x)
      ensures g'.links[e] == g.links[e]
    {
      assert Below(g, to, e);
    }
    forall x | Reach(g', to, x) && x != to
      ensures Settled(d, g', m, x, {})
    {
      MovedCumulative(g, g', m, cs, to, x);
      assert Reach(g, to, x);
    }
  }

  // ------------------------------------------------------------- bdrv_replace_node

  // The edges that bdrv_replace_node is to move.
  ghost predicate ToMove(g: Topology, from: NodeId, to: NodeId, e: EdgeId) {
    e in g.links && g.links[e].bs == from && !g.links[e].stayAtNode && !Below(g, to, e)
  }

  ghost predicate Movers(g: Topology, list: seq<EdgeId>, from: NodeId, to: NodeId) {
    && (forall e :: e in list ==> e in g.links)
    && forall e :: e in list <==> ToMove(g, from, to, e)
  }

  lemma {:induction false} CollectedPrepend(m: Grants, init: Grant, c: EdgeId, es: seq<EdgeId>)
    requires c in m && forall e :: e in es ==> e in m
    ensures Collected(m, {}, init, [c] + es) == Join(Collected(m, {}, init, es), m[c].grant)
  {
    if es == [] {
      assert ([c] + es)[..0] == [];
    } else {
      var k := |es| - 1;
      assert ([c] + es)[..k + 1] == [c] + es[..k];
      CollectedPrepend(m, init, c, es[..k]);
      var a, b, x := Collected(m, {}, init, es[..k]), m[es[k]].grant, m[c].grant;
      assert Join(Join(a, x), b) == Join(Join(a, b), x);
    }
  }

  // Collects the edges to move; false if one of them is frozen.
  method CollectParents(g: Topology, m: Grants, from: NodeId, to: NodeId) returns (ok: bool, list: seq<EdgeId>, grant: Grant)
    requires Linked(g) && from in g.nodes && to in g.nodes && m.Keys == g.links.Keys
    ensures ok <==> forall e :: ToMove(g, from, to, e) ==> !g.links[e].frozen
    ensures ok ==> Distinct(list) && Movers(g, list, from, to)
    ensures ok ==> grant == Collected(m, {}, Grant({}, ALL), list)
  {
    list, grant := [], Grant({}, ALL);
    var parents := g.nodes[from].parents;
    assert NodeOk(g, from);
    ParentsListed(g, from);
    assert forall e :: ToMove(g, from, to, e) ==> IsParent(g, from, {}, e);
    for i := 0 to |parents|
      invariant Distinct(list)
      invariant forall e :: e in list <==> e in parents[..i] && ToMove(g, from, to, e)
      invariant forall e :: e in list ==> !g.links[e].frozen
      invariant grant == Collected(m, {}, Grant({}, ALL), list)
    {
      var c := parents[i];
      assert parents[..i + 1] == parents[..i] + [c];
      var move := ShouldUpdateChild(g, c, to);
      if !move {
        continue;
      }
      assert ToMove(g, from, to, c);
      if g.links[c].frozen {
        return false, list, grant;
      }
      DistinctCons(c, list);
      CollectedPrepend(m, Grant({}, ALL), c, list);
      list := [c] + list;
      grant := Join(grant, m[c].grant);
    }
    assert parents[..|parents|] == parents;
    ok := true;
  }

  // A moved edge takes its reference along.
  lemma MoveBalance(g: Topology, refs: map<NodeId, int>, c: EdgeId, to: NodeId)
    requires Linked(g) && refs.Keys == g.nodes.Keys && c in g.links && g.links[c].bs in g.nodes && to in g.nodes
    requires refs[g.links[c].bs] > 0
    ensures Balanced(g, refs, MoveEdge(g, c, to), Unref(Ref(refs, to), g.links[c].bs))
  {
    var g', refs' := MoveEdge(g, c, to), Unref(Ref(refs, to), g.links[c].bs);
    forall n | n in refs'
      ensures Spare(refs', g', n) == Spare(refs, g, n)
    {
      MoveParents(g, c, to, n);
    }
  }

  lemma BalancedReferenced(g: Topology, refs: map<NodeId, int>, g': Topology, refs': map<NodeId, int>)
    requires Balanced(g, refs, g', refs') && Referenced(g, refs)
    ensures Referenced(g', refs')
  {
    forall n | n in refs'
      ensures 0 <= Spare(refs', g', n)
    {
      assert Spare(refs', g', n) == Spare(refs, g, n);
    }
  }

  lemma BalancedTrans(g: Topology, refs: map<NodeId, int>, g1: Topology, refs1: map<NodeId, int>, g2: Topology, refs2: map<NodeId, int>)
    requires Balanced(g, refs, g1, refs1) && Balanced(g1, refs1, g2, refs2)
    ensures Balanced(g, refs, g2, refs2)
  {
    forall n | n in refs2
      ensures Spare(refs2, g2, n) == Spare(refs, g, n)
    {
      assert Spare(refs1, g1, n) == Spare(refs, g, n);
    }
  }

  lemma MoveStep(g: Topology, refs: map<NodeId, int>, g1: Topology, refs1: map<NodeId, int>, cs: seq<EdgeId>, c: EdgeId, to: NodeId)
    requires Linked(g1) && Moved(g, g1, cs, to) && Balanced(g, refs, g1, refs1)
    requires c in g1.links && g1.links[c].bs in g1.nodes && to in g1.nodes && refs1[g1.links[c].bs] > 0
    ensures Balanced(g, refs, MoveEdge(g1, c, to), Unref(Ref(refs1, to), g1.links[c].bs))
    ensures Linked(MoveEdge(g1, c, to)) && Moved(g, MoveEdge(g1, c, to), cs + [c], to)
  {
    MoveOne(g1, c, to);
    MovedJoin(g, g1, MoveEdge(g1, c, to), cs, c, to);
    MoveBalance(g1, refs1, c, to);
    BalancedTrans(g, refs, g1, refs1, MoveEdge(g1, c, to), Unref(Ref(refs1, to), g1.links[c].bs));
  }

  // The edges of `list` move one by one; each takes its reference along.
  method MoveAll(layer: BlockLayer, list: seq<EdgeId>, from: NodeId, to: NodeId)
    requires Linked(layer.graph) && layer.refs.Keys == layer.graph.nodes.Keys
    requires from in layer.graph.nodes && to in layer.graph.nodes && Distinct(list)
    requires forall e :: e in list ==> e in layer.graph.links && layer.graph.links[e].bs == from
    // `from` has a reference of its own, so that no bdrv_unref here is the last one
    requires Referenced(layer.graph, layer.refs) && Spare(layer.refs, layer.graph, from) > 0
    modifies layer`graph, layer`refs
    ensures Referenced(layer.graph, layer.refs) && from in layer.refs && layer.refs[from] > 0
    ensures Linked(layer.graph) && Moved(old(layer.graph), layer.graph, list, to)
    ensures Balanced(old(layer.graph), old(layer.refs), layer.graph, layer.refs)
  {
    ghost var g0, refs0 := layer.graph, layer.refs;
    for i := 0 to |list|
      invariant Linked(layer.graph) && Moved(g0, layer.graph, list[..i], to)
      invariant Balanced(g0, refs0, layer.graph, layer.refs) && layer.refs[from] > 0
    {
      var c := list[i];
      assert c !in list[..i];
      assert list[..i + 1] == list[..i] + [c];
      MoveStep(g0, refs0, layer.graph, layer.refs, list[..i], c, to);
      layer.refs := Ref(layer.refs, to);
      layer.graph := MoveEdge(layer.graph, c, to);
      layer.refs := Unref(layer.refs, from);
      assert Spare(layer.refs, layer.graph, from) == Spare(refs0, g0, from);
    }
    assert list[..|list|] == list;
    BalancedReferenced(g0, refs0, layer.graph, layer.refs);
  }

  // Exactly the users of `from` that do not stay and are not below `to` use `to` now;
  // all other edges, and everything about nodes but parent lists, are as before.
  ghost predicate Replaced(g: Topology, g': Topology, from: NodeId, to: NodeId) {
    && g'.links.Keys == g.links.Keys && g'.nodes.Keys == g.nodes.Keys
    && (forall e :: e in g.links ==>
          g'.links[e] == if ToMove(g, from, to, e) then g.links[e].(bs := to) else g.links[e])
    && (forall n :: n in g.nodes ==> g'.nodes[n] == g.nodes[n].(parents := g'.nodes[n].parents))
  }

  lemma MovedReplaced(g: Topology, g': Topology, list: seq<EdgeId>, from: NodeId, to: NodeId)
    requires Movers(g, list, from, to) && Moved(g, g', list, to)
    ensures Replaced(g, g', from, to)
  {
  }

  // The graph that is to come of it, but for the lists of parents.
  ghost function After(g: Topology, from: NodeId, to: NodeId): Topology {
    Topology(g.nodes, map e | e in g.links :: if ToMove(g, from, to, e) then g.links[e].(bs := to) else g.links[e])
  }

  // In graph g', t differs from m only below `to`, every node from there on passes on what
  // its parents' grants imply, and all users of all nodes get along.
  ghost predicate FulfilsAt(d: Drivers, g': Topology, m: Grants, to: NodeId, t: Grants) {
    && t.Keys == m.Keys == g'.links.Keys
    && (forall e {:trigger Below(g', to, e)} :: e in m && !Below(g', to, e) ==> t[e].grant == m[e].grant)
    && SettledFrom(d, g', t, to, {}) && AllCompatible(g', t, {})
  }

  // What each edge has, and below `to` whatever owners may ask.
  ghost function DemandsBelow(d: Drivers, g: Topology, m: Grants, to: NodeId): Demands {
    (e: EdgeId, a: Grant) => MayBelow(d, g, m, to, e, a)
  }

  ghost predicate MayBelow(d: Drivers, g: Topology, m: Grants, to: NodeId, e: EdgeId, a: Grant) {
    (e in m && a == m[e].grant) || AskedBelow(d, g, to, e, a)
  }

  ghost predicate AnyFrozen(g: Topology, from: NodeId, to: NodeId) {
    exists e :: ToMove(g, from, to, e) && g.links[e].frozen
  }

  method ReplaceNode(layer: BlockLayer, from: NodeId, to: NodeId) returns (ok: bool)
    requires layer.Quiet() && from in layer.graph.nodes && to in layer.graph.nodes
    modifies layer
    // no cycle, no conflict, no unfinished update and no lack of references, whatever happens
    ensures layer.Quiet()
    // a refused replacement leaves everything as it was
    ensures !ok ==> layer.graph == old(layer.graph) && layer.perms == old(layer.perms) && layer.refs == old(layer.refs)
    // a frozen user is never moved
    ensures ok ==> Replaced(old(layer.graph), layer.graph, from, to) && !AnyFrozen(old(layer.graph), from, to)
    // the moved users keep their permissions, as does everything not below `to`; below
    // it, every node passes on what its parents' grants imply
    ensures ok ==> ChangedBelow(layer.graph, to, old(layer.perms), layer.perms)
    ensures ok ==> SettledFrom(layer.drivers, layer.graph, layer.perms, to, {})
    // references still match parent edges
    ensures ok ==> Balanced(old(layer.graph), old(layer.refs), layer.graph, layer.refs)
    // where no node below `to` is entered twice, it is refused only if a user is frozen or
    // if nothing could do that
    ensures OnePath(old(layer.graph), to) && !AnyFrozen(old(layer.graph), from, to) ==>
      (exists t :: FulfilsAt(layer.drivers, After(old(layer.graph), from, to), old(layer.perms), to, t)) ==> ok
    // elsewhere, only if users of a node from `to` on can at all be at odds
    ensures !ok ==> || AnyFrozen(old(layer.graph), from, to)
                    || Objection(layer.drivers, After(old(layer.graph), from, to),
                                 DemandsBelow(layer.drivers, old(layer.graph), old(layer.perms), to), to)
  {
    ghost var g, refs0 := layer.graph, layer.refs;
    layer.refs := Ref(layer.refs, from);
    RefReferenced(g, refs0, from);
    var list, grant;
    ok, list, grant := CollectParents(layer.graph, layer.perms, from, to);
    if ok {
      ok := CheckMove(layer, list, grant, from, to);
      if ok {
        FinishMove(layer, list, grant, from, to, old(layer.perms));
        MovedReplaced(old(layer.graph), layer.graph, list, from, to);
        BalancedRef(old(layer.graph), refs0, layer.graph, layer.refs, from);
        BalancedReferenced(old(layer.graph), refs0, layer.graph, Unref(layer.refs, from));
      }
    }
    layer.refs := Unref(layer.refs, from);
    assert !ok ==> layer.refs == refs0;
  }

  lemma RefReferenced(g: Topology, refs: map<NodeId, int>, from: NodeId)
    requires from in refs && Referenced(g, refs)
    ensures Referenced(g, Ref(refs, from)) && Spare(Ref(refs, from), g, from) > 0 && Ref(refs, from)[from] > 0
  {
    forall n | n in refs
      ensures 0 <= Spare(refs, g, n) <= Spare(Ref(refs, from), g, n)
    {
    }
  }

  lemma BalancedRef(g: Topology, refs: map<NodeId, int>, g': Topology, refs': map<NodeId, int>, from: NodeId)
    requires from in refs && refs.Keys == g.nodes.Keys && from in refs' && refs'[from] > 0
    requires Balanced(g, Ref(refs, from), g', refs')
    ensures Balanced(g, refs, g', Unref(refs', from))
  {
    var up, down := Ref(refs, from), Unref(refs', from);
    forall n | n in down
      ensures Spare(down, g', n) == Spare(refs, g, n)
    {
      assert Spare(refs', g', n) == Spare(up, g, n);
    }
  }

  // Checks what the moved users need on `to`; a failed check is undone.
  method CheckMove(layer: BlockLayer, list: seq<EdgeId>, grant: Grant, ghost from: NodeId, to: NodeId) returns (ok: bool)
    requires layer.Quiet() && to in layer.graph.nodes
    requires Movers(layer.graph, list, from, to)
    requires grant == Collected(layer.perms, {}, Grant({}, ALL), list)
    modifies layer`perms
    ensures !ok ==> layer.perms == old(layer.perms)
    ensures ok ==> layer.Busy(old(layer.perms), (set c | c in list))
    ensures ok ==> ChangedBelow(layer.graph, to, old(layer.perms), layer.perms)
    ensures ok ==> Accepts(layer.graph, old(layer.perms), to, grant, (set c | c in list))
    ensures ok ==> Derived(layer.drivers, layer.graph, layer.perms, to, Join(grant, Cumulative(layer.graph, old(layer.perms), to, (set c | c in list))))
    ensures ok ==> SettledBelow(layer.drivers, layer.graph, layer.perms, to, (set c | c in list))
    ensures OnePath(layer.graph, to) && (exists t :: FulfilsAt(layer.drivers, After(layer.graph, from, to), old(layer.perms), to, t)) ==> ok
    ensures !ok ==> Objection(layer.drivers, After(layer.graph, from, to), DemandsBelow(layer.drivers, layer.graph, old(layer.perms), to), to)
  {
    ghost var m := layer.perms;
    var base := set c | c in list;
    CheckMoveReady(layer.graph, m, list, grant);
    ghost var t := MoveAim(layer.drivers, layer.graph, layer.rank, m, list, from, to, grant);
    ghost var may := DemandsBut(layer.drivers, layer.graph, m, to, base);
    BelowAllowed(layer.drivers, layer.graph, m, to, base);
    var tighten;
    ok, tighten := layer.CheckUpdatePerm(to, grant, base, base, m, t, may);
    if !ok {
      ghost var m1 := layer.perms;
      layer.Abort(to);
      AbortUndoesBelow(layer.graph, to, m, m1, layer.perms);
      AfterMoved(layer.graph, list, from, to);
      MoveObjection(layer.drivers, layer.graph, After(layer.graph, from, to), m, list, from, to, grant);
    }
  }

  // ----------------------------------------------------- when a replacement can happen

  lemma AfterMoved(g: Topology, list: seq<EdgeId>, from: NodeId, to: NodeId)
    requires Movers(g, list, from, to)
    ensures Moved(g, After(g, from, to), list, to)
  {
  }

  lemma MoveAim(d: Drivers, g: Topology, rank: NodeId -> nat, m: Grants, list: seq<EdgeId>, from: NodeId, to: NodeId, grant: Grant)
    returns (t: Grants)
    requires Ranked(g, rank) && to in g.nodes && m.Keys == g.links.Keys && Movers(g, list, from, to)
    requires grant == Collected(m, {}, Grant({}, ALL), list)
    ensures OnePath(g, to) && (exists t1 :: FulfilsAt(d, After(g, from, to), m, to, t1)) ==>
      FitsUpdate(d, g, m, to, grant, (set c | c in list), (set c | c in list), t)
  {
    t := m;
    if OnePath(g, to) && exists t1 :: FulfilsAt(d, After(g, from, to), m, to, t1) {
      t :| FulfilsAt(d, After(g, from, to), m, to, t);
      AfterMoved(g, list, from, to);
      MoveFits(d, g, After(g, from, to), rank, m, list, from, to, grant, t);
    }
  }

  // What users want after the move is what the check is to arrive at before it.
  lemma MoveFits(d: Drivers, g: Topology, g': Topology, rank: NodeId -> nat, m: Grants, list: seq<EdgeId>, from: NodeId, to: NodeId,
                 grant: Grant, t: Grants)
    requires Ranked(g, rank) && to in g.nodes && m.Keys == g.links.Keys && Movers(g, list, from, to) && Moved(g, g', list, to)
    requires grant == Collected(m, {}, Grant({}, ALL), list) && OnePath(g, to) && FulfilsAt(d, g', m, to, t)
    ensures FitsUpdate(d, g, m, to, grant, (set c | c in list), (set c | c in list), t)
  {
    var base := set c | c in list;
    MovedReach(g, g', list, to);
    ParentsNotBelow(g, rank, to);
    CollectedSame(m, t, Grant({}, ALL), list);
    SameUsers(g, m, t, to, base);
    MovedCumulativeTo(g, g', t, list, to);
    ReachSelf(g', to);
    MovedSettledBack(d, g, g', t, list, to, Cumulative(g', t, to, {}));
    MovedCompatibleBack(g, g', t, list, to);
    WritersWrite(g', t, to, {});
    MoveWelcomes(g, g', m, list, from, to, grant, t);
  }

  lemma {:induction false} MoveWelcomes(g: Topology, g': Topology, m: Grants, list: seq<EdgeId>, from: NodeId, to: NodeId, grant: Grant, t: Grants)
    requires m.Keys == t.Keys == g.links.Keys && Movers(g, list, from, to) && Moved(g, g', list, to)
    requires grant == Collected(m, {}, Grant({}, ALL), list) && AllCompatible(g', t, {})
    requires forall e {:trigger Below(g, to, e)} :: e in m && !Below(g, to, e) ==> t[e].grant == m[e].grant
    requires forall e :: e in g.links && g.links[e].bs == to ==> !Below(g, to, e)
    ensures Welcomes(g, m, to, grant, (set c | c in list))
  {
    var base := set c | c in list;
    forall f | IsParent(g, to, base, f)
      ensures Compatible(m[f].grant, grant)
    {
      forall e | e in list
        ensures Compatible(m[f].grant, m[e].grant)
      {
        assert Peers(g', {}, e, f) && Peers(g', {}, f, e);
      }
      CompatibleAll(m, m[f].grant, list);
    }
  }

  // What gets along with every user in the list gets along with all of them together.
  lemma CompatibleAll(m: Grants, a: Grant, list: seq<EdgeId>)
    requires forall e :: e in list ==> e in m
    ensures Compatible(a, Collected(m, {}, Grant({}, ALL), list)) <==> forall e :: e in list ==> Compatible(a, m[e].grant)
  {
    var all := Collected(m, {}, Grant({}, ALL), list);
    forall p: Perm
      ensures p in ALL
      ensures p in all.perm <==> exists e :: e in list && p in m[e].grant.perm
      ensures p in all.shared <==> forall e :: e in list ==> p in m[e].grant.shared
    {
      AllPerms(p);
      CollectedHas(m, {}, Grant({}, ALL), list, p);
    }
  }

  lemma MovedSettledBack(d: Drivers, g: Topology, g': Topology, m: Grants, cs: seq<EdgeId>, to: NodeId, cumulative: Grant)
    requires m.Keys == g.links.Keys && Moved(g, g', cs, to)
    requires forall c {:trigger Below(g, to, c)} :: c in cs ==> !Below(g, to, c)
    requires Derived(d, g', m, to, cumulative) && SettledFrom(d, g', m, to, {})
    ensures Derived(d, g, m, to, cumulative) && SettledBelow(d, g, m, to, (set c | c in cs))
  {
    MovedReach(g, g', cs, to);
    ReachSelf(g, to);
    forall x: NodeId, e | Reach(g, to, x) && e in g.links && g.links[e].owner == Some(x)
      ensures g'.links[e] == g.links[e]
    {
      assert Below(g, to, e);
    }
    forall x | Reach(g, to, x) && x != to
      ensures Settled(d, g, m, x, (set c | c in cs))
    {
      MovedCumulative(g, g', m, cs, to, x);
      assert Reach(g', to, x);
    }
  }

  lemma MovedCompatibleBack(g: Topology, g': Topology, m: Grants, cs: seq<EdgeId>, to: NodeId)
    requires m.Keys == g.links.Keys && Moved(g, g', cs, to) && AllCompatible(g', m, {})
    ensures AllCompatible(g, m, (set c | c in cs))
  {
    var base := set c | c in cs;
    forall e, f | Peers(g, base, e, f)
      ensures m[e].grant.perm <= m[f].grant.shared
    {
      assert Peers(g', {}, e, f);
    }
    forall e | e in g.links && e !in base
      ensures UserOk(g, m, e)
    {
      assert UserOk(g', m, e);
    }
  }

  // The same without the edges that move.
  ghost function DemandsBut(d: Drivers, g: Topology, m: Grants, to: NodeId, base: set<EdgeId>): Demands {
    (e: EdgeId, a: Grant) => e !in base && MayBelow(d, g, m, to, e, a)
  }

  lemma BelowAllowed(d: Drivers, g: Topology, m: Grants, to: NodeId, base: set<EdgeId>)
    requires NoneBelow(g, base, to)
    ensures Allowed(d, g, DemandsBut(d, g, m, to, base), m, to, base)
  {
    var may := DemandsBut(d, g, m, to, base);
    forall e | Below(g, to, e)
      ensures AnyAsked(d, g, may, e)
    {
      forall cumulative: Grant
        ensures may(e, ChildPerm(d, g, g.links[e].owner.value, e, cumulative))
      {
        assert AskedBelow(d, g, to, e, ChildPerm(d, g, g.links[e].owner.value, e, cumulative));
      }
    }
  }

  // Whoever is at odds without the moved users is so with them where they are then.
  lemma MovedAtOdds(d: Drivers, g: Topology, g': Topology, m: Grants, cs: seq<EdgeId>, to: NodeId, x: NodeId)
    requires m.Keys == g.links.Keys && Moved(g, g', cs, to) && AtOdds(d, g, DemandsBut(d, g, m, to, (set c | c in cs)), x)
    ensures AtOdds(d, g', DemandsBelow(d, g, m, to), x)
  {
    var may, may' := DemandsBut(d, g, m, to, (set c | c in cs)), DemandsBelow(d, g, m, to);
    forall e, a | UserMay(g, may, x, e, a)
      ensures UserMay(g', may', x, e, a)
    {
    }
    if grant :| !Approves(d, g, x, grant) {
      assert !Approves(d, g', x, grant);
    }
  }

  lemma MoveObjection(d: Drivers, g: Topology, g': Topology, m: Grants, list: seq<EdgeId>, from: NodeId, to: NodeId, grant: Grant)
    requires m.Keys == g.links.Keys && Movers(g, list, from, to) && Moved(g, g', list, to)
    requires grant == Collected(m, {}, Grant({}, ALL), list)
    requires var base := set c | c in list;
      || !Welcomes(g, m, to, grant, base) || Objection(d, g, DemandsBut(d, g, m, to, base), to)
      || Refuses(d, g, to, Join(grant, Cumulative(g, m, to, base)))
    ensures Objection(d, g', DemandsBelow(d, g, m, to), to)
  {
    var base := set c | c in list;
    ReachSelf(g', to);
    MovedReach(g, g', list, to);
    if Objection(d, g, DemandsBut(d, g, m, to, base), to) {
      var x :| Reach(g, to, x) && AtOdds(d, g, DemandsBut(d, g, m, to, base), x);
      MovedAtOdds(d, g, g', m, list, to, x);
    } else if !Welcomes(g, m, to, grant, base) {
      UnwelcomeAtOdds(d, g, g', m, list, from, to, grant);
    } else {
      RefusedAtOdds(d, g, g', m, list, to, grant);
    }
  }

  lemma {:induction false} UnwelcomeAtOdds(d: Drivers, g: Topology, g': Topology, m: Grants, list: seq<EdgeId>, from: NodeId, to: NodeId, grant: Grant)
    requires m.Keys == g.links.Keys && Movers(g, list, from, to) && Moved(g, g', list, to)
    requires grant == Collected(m, {}, Grant({}, ALL), list) && !Welcomes(g, m, to, grant, (set c | c in list))
    ensures AtOdds(d, g', DemandsBelow(d, g, m, to), to)
  {
    var f :| IsParent(g, to, (set c | c in list), f) && !Compatible(m[f].grant, grant);
    CompatibleAll(m, m[f].grant, list);
    var e :| e in list && !Compatible(m[f].grant, m[e].grant);
    var may := DemandsBelow(d, g, m, to);
    assert UserMay(g', may, to, f, m[f].grant) && UserMay(g', may, to, e, m[e].grant);
  }

  lemma RefusedAtOdds(d: Drivers, g: Topology, g': Topology, m: Grants, list: seq<EdgeId>, to: NodeId, grant: Grant)
    requires m.Keys == g.links.Keys && Moved(g, g', list, to) && forall e :: e in list ==> e in g.links
    requires grant == Collected(m, {}, Grant({}, ALL), list)
    requires Refuses(d, g, to, Join(grant, Cumulative(g, m, to, (set c | c in list))))
    ensures AtOdds(d, g', DemandsBelow(d, g, m, to), to)
  {
    var base := set c | c in list;
    var all := Join(grant, Cumulative(g, m, to, base));
    if !Approves(d, g, to, all) {
      assert !Approves(d, g', to, all);
    } else {
      var p :| (p == Write || p == WriteUnchanged) && p in all.perm;
      CollectedHas(m, {}, Grant({}, ALL), list, p);
      var e :| e in g.links && (e in list || g.links[e].bs == to) && p in m[e].grant.perm;
      assert UserMay(g', DemandsBelow(d, g, m, to), to, e, m[e].grant);
    }
  }

  lemma CheckMoveReady(g: Topology, m: Grants, list: seq<EdgeId>, grant: Grant)
    requires m.Keys == g.links.Keys && AllCompatible(g, m, {})
    requires forall e :: e in m ==> m[e].backup == None
    requires forall e :: e in list ==> e in g.links
    requires grant == Collected(m, {}, Grant({}, ALL), list)
    ensures WriteUnchanged in grant.shared && AllCompatible(g, m, (set c | c in list)) && Tracks(m, m)
  {
    CollectedHas(m, {}, Grant({}, ALL), list, WriteUnchanged);
    forall e | e in list
      ensures WriteUnchanged in m[e].grant.shared
    {
      assert UserOk(g, m, e);
    }
    forall e, f | Peers(g, (set c | c in list), e, f)
      ensures m[e].grant.perm <= m[f].grant.shared
    {
      assert Peers(g, {}, e, f);
    }
  }

  lemma AbortUndoesBelow(g: Topology, n: NodeId, m: Grants, m1: Grants, m2: Grants)
    requires forall e :: e in m ==> m[e].backup == None
    requires Tracks(m, m1) && ChangedBelow(g, n, m, m1) && AbortedBelow(g, n, m1, m2)
    ensures m2 == m
  {
  }

  // Moves the edges and makes the new permissions final.
  method FinishMove(layer: BlockLayer, list: seq<EdgeId>, ghost grant: Grant, from: NodeId, to: NodeId, ghost m: Grants)
    requires layer.Busy(m, (set c | c in list)) && from in layer.graph.nodes && to in layer.graph.nodes
    requires Referenced(layer.graph, layer.refs) && Spare(layer.refs, layer.graph, from) > 0
    requires forall e :: e in m ==> m[e].backup == None
    requires AllCompatible(layer.graph, m, {})
    requires Distinct(list) && Movers(layer.graph, list, from, to)
    requires grant == Collected(m, {}, Grant({}, ALL), list)
    requires ChangedBelow(layer.graph, to, m, layer.perms)
    requires Accepts(layer.graph, m, to, grant, (set c | c in list))
    requires Derived(layer.drivers, layer.graph, layer.perms, to, Join(grant, Cumulative(layer.graph, m, to, (set c | c in list))))
    requires SettledBelow(layer.drivers, layer.graph, layer.perms, to, (set c | c in list))
    modifies layer
    ensures layer.Quiet() && Moved(old(layer.graph), layer.graph, list, to) && layer.refs[from] > 0
    ensures ChangedBelow(layer.graph, to, m, layer.perms)
    ensures SettledFrom(layer.drivers, layer.graph, layer.perms, to, {})
    ensures Balanced(old(layer.graph), old(layer.refs), layer.graph, layer.refs)
  {
    ghost var g, m1 := layer.graph, layer.perms;
    MoveAll(layer, list, from, to);
    layer.rank := NewRank(g, layer.rank, to);
    FinishReady(layer.drivers, g, layer.graph, old(layer.rank), m, m1, list, from, to, grant);
    var cumulative := layer.GetCumulative(to);
    layer.SetPerm(to, cumulative);
    FinishQuiet(layer.drivers, g, layer.graph, m, m1, layer.perms, list, to);
  }

  lemma FinishReady(d: Drivers, g: Topology, g': Topology, rank: NodeId -> nat, m: Grants, m1: Grants,
                    list: seq<EdgeId>, from: NodeId, to: NodeId, grant: Grant)
    requires m.Keys == m1.Keys == g.links.Keys && to in g.nodes && Ranked(g, rank) && Moved(g, g', list, to)
    requires Movers(g, list, from, to)
    requires AllCompatible(g, m, {}) && AllCompatible(g, m1, (set c | c in list))
    requires grant == Collected(m, {}, Grant({}, ALL), list) && ChangedBelow(g, to, m, m1)
    requires Accepts(g, m, to, grant, (set c | c in list))
    requires Derived(d, g, m1, to, Join(grant, Cumulative(g, m, to, (set c | c in list))))
    requires SettledBelow(d, g, m1, to, (set c | c in list))
    ensures Ranked(g', NewRank(g, rank, to)) && AllCompatible(g', m1, {})
    ensures Derived(d, g', m1, to, Cumulative(g', m1, to, {})) && SettledBelow(d, g', m1, to, {})
  {
    var base := set c | c in list;
    MovedRanked(g, g', rank, list, to);
    ParentsNotBelow(g, rank, to);
    FinishCompatible(g, g', m, m1, list, from, to, grant);
    CollectedSame(m, m1, Grant({}, ALL), list);
    SameCumulative(g, m, m1, to, base);
    MovedCumulativeTo(g, g', m1, list, to);
    MovedSettled(d, g, g', m1, list, to, Join(grant, Cumulative(g, m, to, base)));
  }

  lemma {:induction false} CollectedSame(m: Grants, m': Grants, init: Grant, es: seq<EdgeId>)
    requires forall e :: e in es ==> e in m && e in m' && m'[e].grant == m[e].grant
    ensures Collected(m, {}, init, es) == Collected(m', {}, init, es)
  {
    if es != [] {
      CollectedSame(m, m', init, es[..|es| - 1]);
    }
  }

  lemma FinishCompatible(g: Topology, g': Topology, m: Grants, m1: Grants, list: seq<EdgeId>, from: NodeId, to: NodeId, grant: Grant)
    requires m.Keys == m1.Keys == g.links.Keys && to in g.nodes && Moved(g, g', list, to)
    requires Movers(g, list, from, to)
    requires AllCompatible(g, m, {}) && AllCompatible(g, m1, (set c | c in list))
    requires grant == Collected(m, {}, Grant({}, ALL), list) && ChangedBelow(g, to, m, m1)
    requires Accepts(g, m, to, grant, (set c | c in list))
    requires forall e :: e in g.links && g.links[e].bs == to ==> !Below(g, to, e)
    ensures AllCompatible(g', m1, {})
  {
    var base := set c | c in list;
    forall e | e in list
      ensures m1[e] == m[e] && WriteUnchanged in m[e].grant.shared
      ensures m[e].grant.perm <= grant.perm && grant.shared <= m[e].grant.shared
    {
      assert UserOk(g, m, e);
      forall p: Perm
        ensures (p in m[e].grant.perm ==> p in grant.perm) && (p in grant.shared ==> p in m[e].grant.shared)
      {
        CollectedHas(m, {}, Grant({}, ALL), list, p);
      }
    }
    forall e, f | e in list && f in list && e != f
      ensures m1[e].grant.perm <= m1[f].grant.shared
    {
      assert Peers(g, {}, e, f);
    }
    MovedCompatible(g, g', m1, list, from, to, grant);
  }

  lemma FinishQuiet(d: Drivers, g: Topology, g': Topology, m: Grants, m1: Grants, m2: Grants, list: seq<EdgeId>, to: NodeId)
    requires m.Keys == m1.Keys == g.links.Keys && Moved(g, g', list, to)
    requires forall c {:trigger Below(g, to, c)} :: c in list ==> !Below(g, to, c)
    requires forall e :: e in m ==> m[e].backup == None
    requires ChangedBelow(g, to, m, m1) && CommittedBelow(g', to, m1, m2)
    requires AllCompatible(g', m1, {})
    requires Derived(d, g', m1, to, Cumulative(g', m1, to, {})) && SettledBelow(d, g', m1, to, {})
    ensures forall e :: e in m2 ==> m2[e].backup == None
    ensures AllCompatible(g', m2, {}) && ChangedBelow(g', to, m, m2) && SettledFrom(d, g', m2, to, {})
  {
    MovedReach(g, g', list, to);
    CompatibleSame(g', m1, m2, {});
    assert SettledFrom(d, g', m1, to, {});
    SettledSame(d, g', m1, m2, to, {});
  }
}
