// Permissions on the edges of the block graph, as values: who may use what beside
// whom, what a node passes on to its children, and how a check in progress keeps
// track of the state it started from (block.c, bdrv_check_perm and around it).
module BlockPermissions {
  import opened Options
  import opened BlockTopology

  datatype Perm = ConsistentRead | Write | WriteUnchanged | Resize | GraphMod
  type Perms = set<Perm>

  const ALL: Perms := {ConsistentRead, Write, WriteUnchanged, Resize, GraphMod}

  // What an edge uses and what it lets others use.
  datatype Grant = Grant(perm: Perms, shared: Perms)

  // backup is backup_perm and backup_shared_perm when has_backup_perm is set
  datatype EdgePerm = EdgePerm(grant: Grant, backup: Option<Grant>)

  type Grants = map<EdgeId, EdgePerm>

  // a uses nothing that b does not use, and shares all that b shares.
  predicate Looser(a: Grant, b: Grant) {
    a.perm <= b.perm && b.shared <= a.shared
  }

  // The drivers' callbacks: what a node asks of a child given what its parents use
  // and share, and the verdict of a private check.
  datatype Drivers = Drivers(childPerm: (NodeId, EdgeId, Grant) -> Grant, check: (NodeId, Grant) -> bool) {
    // Nobody ever refuses to share WriteUnchanged.
    ghost predicate Ok() {
      forall n: NodeId, e: EdgeId, g: Grant :: WriteUnchanged in g.shared ==> WriteUnchanged in childPerm(n, e, g).shared
    }

    // Who is asked for less does not ask child e for more.
    ghost predicate Monotone(n: NodeId, e: EdgeId) {
      forall a: Grant, b: Grant {:trigger childPerm(n, e, a), childPerm(n, e, b)} ::
        Looser(a, b) ==> Looser(childPerm(n, e, a), childPerm(n, e, b))
    }
  }

  // bdrv_child_perm
  function ChildPerm(d: Drivers, g: Topology, n: NodeId, e: EdgeId, cumulative: Grant): Grant
    requires e in g.links
  {
    var r := d.childPerm(n, e, cumulative);
    if g.links[e].bs in g.nodes && g.nodes[g.links[e].bs].forceShare then r.(shared := ALL) else r
  }

  // The parents of n that count, when the edges in `ignore` do not.
  ghost predicate IsParent(g: Topology, n: NodeId, ignore: set<EdgeId>, e: EdgeId) {
    e in g.links && g.links[e].bs == n && e !in ignore
  }

  ghost predicate Uses(g: Topology, m: Grants, n: NodeId, ignore: set<EdgeId>, p: Perm)
    requires m.Keys == g.links.Keys
  {
    exists e :: IsParent(g, n, ignore, e) && p in m[e].grant.perm
  }

  ghost predicate Shares(g: Topology, m: Grants, n: NodeId, ignore: set<EdgeId>, p: Perm)
    requires m.Keys == g.links.Keys
  {
    forall e :: IsParent(g, n, ignore, e) ==> p in m[e].grant.shared
  }

  // bdrv_get_cumulative_perm, without the ignored edges
  ghost function Cumulative(g: Topology, m: Grants, n: NodeId, ignore: set<EdgeId>): Grant
    requires m.Keys == g.links.Keys
  {
    Grant(set p: Perm | Uses(g, m, n, ignore, p), set p: Perm | Shares(g, m, n, ignore, p))
  }

  // Two users of one node get along.
  predicate Compatible(a: Grant, b: Grant) {
    a.perm <= b.shared && b.perm <= a.shared
  }

  predicate Writes(perm: Perms) {
    Write in perm || WriteUnchanged in perm
  }

  ghost predicate Peers(g: Topology, ignore: set<EdgeId>, e: EdgeId, f: EdgeId) {
    e in g.links && f in g.links && e !in ignore && f !in ignore && e != f && g.links[e].bs == g.links[f].bs
  }

  // Nobody writes to a node that is not writable, and nobody minds WriteUnchanged.
  ghost predicate UserOk(g: Topology, m: Grants, e: EdgeId)
    requires m.Keys == g.links.Keys && e in m
  {
    && WriteUnchanged in m[e].grant.shared
    && (Write in m[e].grant.perm || WriteUnchanged in m[e].grant.perm ==>
          g.links[e].bs in g.nodes && g.nodes[g.links[e].bs].writable)
  }

  // At every node, no user uses what another one does not share.
  ghost predicate AllCompatible(g: Topology, m: Grants, ignore: set<EdgeId>)
    requires m.Keys == g.links.Keys
  {
    && (forall e, f {:trigger Peers(g, ignore, e, f)} :: Peers(g, ignore, e, f) ==> m[e].grant.perm <= m[f].grant.shared)
    && (forall e {:trigger UserOk(g, m, e)} :: e in g.links && e !in ignore ==> UserOk(g, m, e))
  }

  // Every child edge of n carries what n's driver derives from n's parents, and a driver
  // with a private check has approved of them.
  ghost predicate Settled(d: Drivers, g: Topology, m: Grants, n: NodeId, ignore: set<EdgeId>)
    requires m.Keys == g.links.Keys
  {
    Derived(d, g, m, n, Cumulative(g, m, n, ignore))
  }

  ghost predicate Derived(d: Drivers, g: Topology, m: Grants, n: NodeId, cumulative: Grant)
    requires m.Keys == g.links.Keys
  {
    Approves(d, g, n, cumulative) && PassesOn(d, g, m, n, cumulative)
  }

  ghost predicate PassesOn(d: Drivers, g: Topology, m: Grants, n: NodeId, cumulative: Grant)
    requires m.Keys == g.links.Keys
  {
    forall e {:trigger m[e]} :: e in g.links && g.links[e].owner == Some(n) ==>
      m[e].grant == ChildPerm(d, g, n, e, cumulative)
  }

  // What a node passes on is what its driver asks for, but a child that is opened to share
  // everything is shared with everybody.
  lemma PassedOn(d: Drivers, g: Topology, m: Grants, n: NodeId, cumulative: Grant, e: EdgeId)
    requires m.Keys == g.links.Keys && PassesOn(d, g, m, n, cumulative) && e in g.links && g.links[e].owner == Some(n)
    ensures m[e].grant.perm == d.childPerm(n, e, cumulative).perm
    ensures if g.links[e].bs in g.nodes && g.nodes[g.links[e].bs].forceShare then forall p: Perm :: p in m[e].grant.shared
            else m[e].grant.shared == d.childPerm(n, e, cumulative).shared
  {
    forall p: Perm
      ensures p in ALL
    {
      match p
      case ConsistentRead | Write | WriteUnchanged | Resize | GraphMod =>
    }
    assert m[e].grant == ChildPerm(d, g, n, e, cumulative);
  }

  ghost predicate Approves(d: Drivers, g: Topology, n: NodeId, cumulative: Grant) {
    n in g.nodes && g.nodes[n].driver.Protocol? ==> d.check(n, cumulative)
  }

  // Some driver with a private check that can be reached from n refuses something.
  ghost predicate Vetoed(d: Drivers, g: Topology, n: NodeId) {
    exists x: NodeId, grant: Grant :: Reach(g, n, x) && !Approves(d, g, x, grant)
  }

  // m came from m0, in which no backup was set, by changes that were backed up.
  ghost predicate Tracks(m0: Grants, m: Grants) {
    && m.Keys == m0.Keys
    && forall e :: e in m ==> if m[e].backup == None then m[e] == m0[e] else m[e].backup == Some(m0[e].grant)
  }

  // Only edges below n changed.
  ghost predicate ChangedBelow(g: Topology, n: NodeId, m: Grants, m': Grants) {
    && m'.Keys == m.Keys
    && forall e :: e in m && !Below(g, n, e) ==> m'[e] == m[e]
  }

  // bdrv_child_abort_perm_update, on one edge
  function Restored(x: EdgePerm): EdgePerm {
    if x.backup.Some? then EdgePerm(x.backup.value, None) else x
  }

  // Everything below n has been aborted.
  ghost predicate AbortedBelow(g: Topology, n: NodeId, m: Grants, m': Grants) {
    && m'.Keys == m.Keys
    && forall e :: e in m ==> m'[e] == if Below(g, n, e) then Restored(m[e]) else m[e]
  }

  // Everything below n has been committed: backups are gone, grants are the same.
  ghost predicate CommittedBelow(g: Topology, n: NodeId, m: Grants, m': Grants) {
    && m'.Keys == m.Keys
    && forall e :: e in m ==> m'[e] == if Below(g, n, e) then m[e].(backup := None) else m[e]
  }

  // Edge e is edge c or below it.
  ghost predicate Under(g: Topology, c: EdgeId, e: EdgeId) {
    c in g.links && e in g.links && (e == c || Below(g, g.links[c].bs, e))
  }

  ghost predicate ChangedUnder(g: Topology, c: EdgeId, m: Grants, m': Grants) {
    && m'.Keys == m.Keys
    && forall e :: e in m && !Under(g, c, e) ==> m'[e] == m[e]
  }

  // What lies below n lies under one of its child edges, and the other way round.
  lemma BelowIsUnderChild(g: Topology, n: NodeId, e: EdgeId)
    requires Linked(g) && n in g.nodes && e in g.links
    ensures Below(g, n, e) <==> exists c :: c in g.nodes[n].children && Under(g, c, e)
  {
    assert NodeOk(g, n);
    if Below(g, n, e) {
      BelowSplit(g, n, e);
      if g.links[e].owner == Some(n) {
        assert LinkOk(g, e) && Under(g, e, e);
      } else {
        var c :| c in g.links && g.links[c].owner == Some(n) && Below(g, g.links[c].bs, e);
        assert LinkOk(g, c) && Under(g, c, e);
      }
    }
    if c :| c in g.nodes[n].children && Under(g, c, e) {
      if e == c {
        ReachSelf(g, n);
      } else {
        BelowChild(g, n, c, e);
      }
    }
  }

  // Siblings are not under each other.
  lemma SiblingNotUnder(g: Topology, rank: NodeId -> nat, n: NodeId, c: EdgeId, e: EdgeId)
    requires Ranked(g, rank) && c in g.links && e in g.links && c != e
    requires g.links[c].owner == Some(n) && g.links[e].owner == Some(n)
    ensures !Under(g, c, e)
  {
    NotBelowSelf(g, rank, n, c, e);
  }

  // ------------------------------------------------------------ cumulative permissions

  function Join(a: Grant, b: Grant): Grant {
    Grant(a.perm + b.perm, a.shared * b.shared)
  }

  // Giving edge c a new grant joins it to what the other parents have.
  lemma CumulativeAssign(g: Topology, m: Grants, m': Grants, c: EdgeId, base: set<EdgeId>, ignore: set<EdgeId>)
    requires m.Keys == m'.Keys == g.links.Keys && c in m && c !in base
    requires forall e :: e in m && e != c ==> m'[e] == m[e]
    requires forall f :: f in g.links && g.links[f].bs == g.links[c].bs ==> (f in ignore <==> f in base || f == c)
    ensures Cumulative(g, m', g.links[c].bs, base) == Join(m'[c].grant, Cumulative(g, m, g.links[c].bs, ignore))
  {
    var n := g.links[c].bs;
    assert IsParent(g, n, base, c);
    forall p: Perm
      ensures p in Cumulative(g, m', n, base).perm <==> p in Join(m'[c].grant, Cumulative(g, m, n, ignore)).perm
      ensures p in Cumulative(g, m', n, base).shared <==> p in Join(m'[c].grant, Cumulative(g, m, n, ignore)).shared
    {
      assert forall e :: IsParent(g, n, base, e) <==> IsParent(g, n, ignore, e) || e == c;
    }
  }

  // Node x keeps its cumulative permissions and its children's grants when changes
  // stay under an edge that does not lead to x and is not x's own.
  lemma SettledKept(d: Drivers, g: Topology, m: Grants, m': Grants, c: EdgeId, x: NodeId, ignore: set<EdgeId>)
    requires m.Keys == m'.Keys == g.links.Keys && c in g.links
    requires ChangedUnder(g, c, m, m') && !Reach(g, g.links[c].bs, x) && g.links[c].owner != Some(x)
    ensures Settled(d, g, m, x, ignore) <==> Settled(d, g, m', x, ignore)
  {
    forall e | e in g.links && (g.links[e].bs == x || g.links[e].owner == Some(x))
      ensures m'[e] == m[e]
    {
      KeptAt(g, m, m', c, x, e);
    }
    SameCumulative(g, m, m', x, ignore);
  }

  lemma KeptAt(g: Topology, m: Grants, m': Grants, c: EdgeId, x: NodeId, e: EdgeId)
    requires m.Keys == m'.Keys == g.links.Keys && c in g.links && e in g.links
    requires ChangedUnder(g, c, m, m') && !Reach(g, g.links[c].bs, x) && g.links[c].owner != Some(x)
    requires g.links[e].bs == x || g.links[e].owner == Some(x)
    ensures m'[e] == m[e]
  {
    NotUnderAt(g, c, x, e);
  }

  // The edges at a node that c does not lead to are not under c.
  lemma NotUnderAt(g: Topology, c: EdgeId, x: NodeId, e: EdgeId)
    requires c in g.links && e in g.links && !Reach(g, g.links[c].bs, x) && g.links[c].owner != Some(x)
    requires g.links[e].bs == x || g.links[e].owner == Some(x)
    ensures !Under(g, c, e)
  {
    if Under(g, c, e) {
      ReachSelf(g, x);
      if e != c && g.links[e].bs == x {
        ReachChild(g, e);
        ReachTrans(g, g.links[c].bs, g.links[e].owner.value, x);
      }
    }
  }

  lemma SameCumulative(g: Topology, m: Grants, m': Grants, x: NodeId, ignore: set<EdgeId>)
    requires m.Keys == m'.Keys == g.links.Keys
    requires forall e :: e in g.links && g.links[e].bs == x ==> m'[e].grant == m[e].grant
    ensures Cumulative(g, m', x, ignore) == Cumulative(g, m, x, ignore)
  {
    forall p: Perm
      ensures p in Cumulative(g, m', x, ignore).perm <==> p in Cumulative(g, m, x, ignore).perm
      ensures p in Cumulative(g, m', x, ignore).shared <==> p in Cumulative(g, m, x, ignore).shared
    {
    }
  }

  // Assigning a compatible grant keeps everybody compatible.
  lemma CompatibleAssign(g: Topology, m: Grants, m': Grants, c: EdgeId, ignore: set<EdgeId>)
    requires m.Keys == m'.Keys == g.links.Keys && c in m && AllCompatible(g, m, ignore)
    requires forall e :: e in m && e != c ==> m'[e].grant == m[e].grant
    requires forall f :: IsParent(g, g.links[c].bs, ignore, f) && f != c ==> Compatible(m[f].grant, m'[c].grant)
    requires UserOk(g, m', c)
    ensures AllCompatible(g, m', ignore)
  {
    forall e, f | Peers(g, ignore, e, f)
      ensures m'[e].grant.perm <= m'[f].grant.shared
    {
      assert IsParent(g, g.links[c].bs, ignore, e) || e == c || f != c;
      assert IsParent(g, g.links[c].bs, ignore, f) || f == c || e != c;
    }
    forall e | e in g.links && e !in ignore
      ensures UserOk(g, m', e)
    {
      assert e != c ==> UserOk(g, m, e);
    }
  }
}
