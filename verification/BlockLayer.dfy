// Changing the permissions of one edge of the block graph: the check that assigns as
// it goes, the abort that undoes it, and the set that makes it final.
module BlockLayers {
  import opened Options
  import opened BlockTopology
  import opened BlockPermissions

  class BlockLayer {
    const drivers: Drivers
    var graph: Topology
    var perms: Grants
    var refs: map<NodeId, int>
    ghost var rank: NodeId -> nat

    ghost predicate Valid()
      reads this
    {
      && Linked(graph) && Ranked(graph, rank)
      && perms.Keys == graph.links.Keys && refs.Keys == graph.nodes.Keys
      && drivers.Ok()
    }

    // No update is in progress, all users of all nodes get along and hold references.
    ghost predicate Quiet()
      reads this
    {
      && Valid() && AllCompatible(graph, perms, {}) && Referenced(graph, refs)
      && forall e :: e in perms ==> perms[e].backup == None
    }

    // No nodes yet.
    constructor (drivers: Drivers)
      requires drivers.Ok()
      ensures Quiet() && this.drivers == drivers && graph == Topology(map[], map[])
    {
      this.drivers, graph, perms, refs, rank := drivers, Topology(map[], map[]), map[], map[], n => 0;
    }

    // An update is in progress that started from m0; users get along, except for
    // those in `base`.
    ghost predicate Busy(m0: Grants, base: set<EdgeId>)
      reads this
    {
      Valid() && Tracks(m0, perms) && AllCompatible(graph, perms, base)
    }

    // -------------------------------------------------------------------- abort

    method Abort(n: NodeId)
      requires Valid() && n in graph.nodes
      modifies this`perms
      ensures Valid() && AbortedBelow(graph, n, old(perms), perms)
      decreases rank(n), 0
    {
      ghost var m := perms;
      AbortedNone(graph, m);
      AbortedAll(graph, n);
      if graph.nodes[n].driver.NoDriver? {
        return;
      }
      var children := graph.nodes[n].children;
      for i := 0 to |children|
        invariant Valid() && AbortedUnder(graph, children[..i], m, perms)
      {
        assert LinkOk(graph, children[i]);
        ghost var m1 := perms;
        ChildAbort(children[i]);
        AbortedJoin(graph, children[..i], children[i], m, m1, perms);
        assert children[..i + 1] == children[..i] + [children[i]];
      }
      assert children[..|children|] == children;
    }

    method ChildAbort(c: EdgeId)
      requires Valid() && c in graph.links
      modifies this`perms
      ensures Valid() && AbortedUnder(graph, [c], old(perms), perms)
      decreases rank(graph.links[c].bs), 1
    {
      ghost var m := perms;
      assert LinkOk(graph, c);
      if perms[c].backup.Some? {
        perms := perms[c := EdgePerm(perms[c].backup.value, None)];
      }
      ghost var m1 := perms;
      Abort(graph.links[c].bs);
      AbortedChild(graph, c, m, m1, perms);
    }

    // ------------------------------------------------------------------ set

    method GetCumulative(n: NodeId) returns (r: Grant)
      requires Valid() && n in graph.nodes
      ensures r == Cumulative(graph, perms, n, {})
    {
      r := Grant({}, ALL);
      var parents := graph.nodes[n].parents;
      ParentsListed(graph, n);
      for i := 0 to |parents|
        invariant r == Collected(perms, {}, Grant({}, ALL), parents[..i])
      {
        r := Join(r, perms[parents[i]].grant);
        assert parents[..i + 1] == parents[..i] + [parents[i]];
      }
      assert parents[..|parents|] == parents;
      CollectedParents(graph, perms, n, {}, Grant({}, ALL));
      JoinNeutral(Cumulative(graph, perms, n, {}));
    }

    method SetPerm(n: NodeId, cumulative: Grant)
      requires Valid() && n in graph.nodes
      requires Derived(drivers, graph, perms, n, cumulative) && SettledBelow(drivers, graph, perms, n, {})
      modifies this`perms
      ensures Valid() && CommittedBelow(graph, n, old(perms), perms)
      decreases rank(n), 0
    {
      ghost var m := perms;
      CommittedNone(graph, m);
      CommittedAll(graph, n);
      if graph.nodes[n].driver.NoDriver? || !graph.nodes[n].driver.Format? {
        return;
      }
      var children := graph.nodes[n].children;
      for i := 0 to |children|
        invariant Valid() && CommittedUnder(graph, children[..i], m, perms)
      {
        var c := children[i];
        assert LinkOk(graph, c);
        ghost var m1 := perms;
        CommittedReady(drivers, graph, rank, n, cumulative, children[..i], c, m, m1);
        ChildSetPerm(c, ChildPerm(drivers, graph, n, c, cumulative));
        CommittedJoin(graph, children[..i], c, m, m1, perms);
        assert children[..i + 1] == children[..i] + [c];
      }
      assert children[..|children|] == children;
    }

    method ChildSetPerm(c: EdgeId, grant: Grant)
      requires Valid() && c in graph.links && perms[c].grant == grant
      requires SettledFrom(drivers, graph, perms, graph.links[c].bs, {})
      modifies this`perms
      ensures Valid() && CommittedUnder(graph, [c], old(perms), perms)
      decreases rank(graph.links[c].bs), 1
    {
      var n := graph.links[c].bs;
      assert LinkOk(graph, c);
      ghost var m := perms;
      perms := perms[c := EdgePerm(grant, None)];
      ghost var m1 := perms;
      SettledSame(drivers, graph, m, m1, n, {});
      var cumulative := GetCumulative(n);
      SetPerm(n, cumulative);
      CommittedChild(graph, c, m, m1, perms);
    }

    // ------------------------------------------------------------------ check

    // t is any assignment of grants: if it is what the check is to arrive at, then the
    // check succeeds and arrives there.
    method CheckPerm(n: NodeId, cumulative: Grant, ignore: set<EdgeId>,
                     ghost base: set<EdgeId>, ghost m0: Grants, ghost t: Grants, ghost may: Demands)
      returns (ok: bool, tighten: bool)
      requires Busy(m0, base) && n in graph.nodes && WriteUnchanged in cumulative.shared
      requires Ignores(graph, rank, base, ignore, rank(n)) && NoneBelow(graph, base, n)
      requires Allowed(drivers, graph, may, perms, n, base)
      modifies this`perms
      ensures Busy(m0, base) && ChangedBelow(graph, n, old(perms), perms)
      ensures ok ==> Writes(cumulative.perm) ==> graph.nodes[n].writable
      ensures ok ==> Derived(drivers, graph, perms, n, cumulative) && SettledBelow(drivers, graph, perms, n, base)
      ensures Fits(drivers, graph, old(perms), n, cumulative, ignore, base, t) ==> ok && Attained(graph, n, perms, t)
      ensures !tighten ==> Loosens(cumulative, Cumulative(graph, old(perms), n, {}))
      ensures tighten ==> Tightens(drivers, graph, rank, old(perms), n, cumulative, ignore, base)
      ensures !ok && !tighten && base == {} ==> Hidden(drivers, graph, rank, old(perms), n, cumulative, ignore)
      ensures Demanded(may, perms, base)
      ensures !ok ==> Refuses(drivers, graph, n, cumulative) || Objection(drivers, graph, may, n)
      ensures ok ==> FirstWelcome(drivers, graph, old(perms), n, cumulative, ignore)
      decreases rank(n), 3
    {
      var current := GetCumulative(n);
      tighten := !Loosens(cumulative, current);
      LoosensIs(cumulative, current);
      ChangedNone(graph, n, perms);
      if Writes(cumulative.perm) && !graph.nodes[n].writable {
        if base == {} {
          WritersWrite(graph, perms, n, {});
          if !tighten {
            LoosensWrites(cumulative, current);
          }
        }
        return false, tighten;
      }
      CheckedLeaf(drivers, graph, perms, n, cumulative, base, t);
      ReachSelf(graph, n);
      if graph.nodes[n].driver.NoDriver? {
        return true, tighten;
      }
      if graph.nodes[n].driver.Protocol? {
        ok := drivers.check(n, cumulative);
        return;
      }
      if !graph.nodes[n].driver.Format? {
        return true, tighten;
      }
      var c;
      ok, c := CheckChildren(n, cumulative, ignore, base, m0, t, may, Fits(drivers, graph, perms, n, cumulative, ignore, base, t));
      tighten := tighten || c;
    }

    method CheckChildren(n: NodeId, cumulative: Grant, ignore: set<EdgeId>,
                         ghost base: set<EdgeId>, ghost m0: Grants, ghost t: Grants, ghost may: Demands, ghost fits: bool)
      returns (ok: bool, tighten: bool)
      requires Busy(m0, base) && n in graph.nodes && WriteUnchanged in cumulative.shared && !graph.nodes[n].driver.Protocol?
      requires Ignores(graph, rank, base, ignore, rank(n)) && NoneBelow(graph, base, n)
      requires Allowed(drivers, graph, may, perms, n, base)
      requires fits ==> Fits(drivers, graph, perms, n, cumulative, ignore, base, t)
      modifies this`perms
      ensures Busy(m0, base) && ChangedBelow(graph, n, old(perms), perms)
      ensures ok ==> Derived(drivers, graph, perms, n, cumulative) && SettledBelow(drivers, graph, perms, n, base)
      ensures fits ==> ok && Attained(graph, n, perms, t)
      ensures tighten ==> TightensBelow(drivers, graph, rank, old(perms), n, cumulative, ignore, base)
      ensures !ok && !tighten && base == {} ==> HiddenBelow(drivers, graph, rank, old(perms), n, cumulative, ignore)
      ensures Demanded(may, perms, base)
      ensures !ok ==> Objection(drivers, graph, may, n)
      ensures ok ==> FirstWelcome(drivers, graph, old(perms), n, cumulative, ignore)
      decreases rank(n), 2
    {
      tighten := false;
      ghost var m := perms;
      var children := graph.nodes[n].children;
      CheckedNone(drivers, graph, perms, n, cumulative, base);
      ChangedNone(graph, n, m);
      for i := 0 to |children|
        invariant Busy(m0, base) && ChangedUnderAny(graph, children[..i], m, perms) && ChangedBelow(graph, n, m, perms)
        invariant Checked(drivers, graph, perms, n, cumulative, base, children[..i])
        invariant fits ==> AttainedUnder(graph, children[..i], perms, t)
        invariant Demanded(may, perms, base)
        invariant tighten ==> TightensBelow(drivers, graph, rank, m, n, cumulative, ignore, base)
        invariant !tighten && base == {} ==> Loosely(drivers, graph, m, n, cumulative, ignore, i, perms)
        invariant if i == 0 then perms == m else FirstWelcome(drivers, graph, m, n, cumulative, ignore)
      {
        var r, tightened := CheckTurn(n, i, cumulative, ignore, base, m0, m, t, may, fits);
        tighten := tighten || tightened;
        if !r {
          return false, tighten;
        }
      }
      ChildrenDone(drivers, graph, n, perms, cumulative, base, t, fits);
      ok := true;
    }

    // The i-th child of n.
    method CheckTurn(n: NodeId, i: nat, cumulative: Grant, ignore: set<EdgeId>,
                     ghost base: set<EdgeId>, ghost m0: Grants, ghost m: Grants, ghost t: Grants, ghost may: Demands, ghost fits: bool)
      returns (ok: bool, tighten: bool)
      requires Busy(m0, base) && n in graph.nodes && i < |graph.nodes[n].children| && WriteUnchanged in cumulative.shared
      requires Ignores(graph, rank, base, ignore, rank(n)) && NoneBelow(graph, base, n)
      requires Allowed(drivers, graph, may, perms, n, base)
      requires m.Keys == graph.links.Keys && ChangedUnderAny(graph, graph.nodes[n].children[..i], m, perms)
      requires Checked(drivers, graph, perms, n, cumulative, base, graph.nodes[n].children[..i])
      requires fits ==> && Fits(drivers, graph, m, n, cumulative, ignore, base, t)
                        && AttainedUnder(graph, graph.nodes[n].children[..i], perms, t)
      modifies this`perms
      ensures Busy(m0, base) && ChangedUnderAny(graph, graph.nodes[n].children[..i + 1], m, perms) && ChangedBelow(graph, n, m, perms)
      ensures Demanded(may, perms, base)
      ensures ok ==> Checked(drivers, graph, perms, n, cumulative, base, graph.nodes[n].children[..i + 1])
      ensures ok && i == 0 ==> FirstWelcome(drivers, graph, old(perms), n, cumulative, ignore)
      ensures fits ==> ok && AttainedUnder(graph, graph.nodes[n].children[..i + 1], perms, t)
      ensures !ok ==> Objection(drivers, graph, may, n)
      ensures tighten ==> TightensBelow(drivers, graph, rank, m, n, cumulative, ignore, base)
      ensures !ok && !tighten && base == {} && Loosely(drivers, graph, m, n, cumulative, ignore, i, old(perms)) ==>
        HiddenBelow(drivers, graph, rank, m, n, cumulative, ignore)
      ensures !tighten && Loosely(drivers, graph, m, n, cumulative, ignore, i, old(perms)) ==>
        Loosely(drivers, graph, m, n, cumulative, ignore, i + 1, perms)
      decreases rank(n), 1
    {
      NextChild(graph, n, i);
      ghost var m1 := perms;
      ok, tighten := CheckNext(n, graph.nodes[n].children[i], cumulative, ignore, graph.nodes[n].children[..i], base, m0, m, t, may, fits);
      TurnVerdict(drivers, graph, rank, m, n, cumulative, ignore, base, i, m1, perms, ok, tighten);
    }

    // One child of n, after those in `done`.
    method CheckNext(n: NodeId, c: EdgeId, cumulative: Grant, ignore: set<EdgeId>, ghost done: seq<EdgeId>,
                     ghost base: set<EdgeId>, ghost m0: Grants, ghost m: Grants, ghost t: Grants, ghost may: Demands, ghost fits: bool)
      returns (ok: bool, tighten: bool)
      requires Busy(m0, base) && n in graph.nodes && WriteUnchanged in cumulative.shared
      requires Ignores(graph, rank, base, ignore, rank(n)) && NoneBelow(graph, base, n)
      requires Allowed(drivers, graph, may, perms, n, base)
      requires c in graph.links && graph.links[c].owner == Some(n) && c !in done && done + [c] <= graph.nodes[n].children
      requires m.Keys == graph.links.Keys && ChangedUnderAny(graph, done, m, perms)
      requires Checked(drivers, graph, perms, n, cumulative, base, done)
      requires fits ==> Fits(drivers, graph, m, n, cumulative, ignore, base, t) && AttainedUnder(graph, done, perms, t)
      modifies this`perms
      ensures Busy(m0, base) && ChangedUnderAny(graph, done + [c], m, perms) && ChangedBelow(graph, n, m, perms)
      ensures Demanded(may, perms, base)
      ensures ok ==> Checked(drivers, graph, perms, n, cumulative, base, done + [c])
      ensures ok && done == [] ==> FirstWelcome(drivers, graph, old(perms), n, cumulative, ignore)
      ensures fits ==> ok && AttainedUnder(graph, done + [c], perms, t)
      ensures !ok ==> Objection(drivers, graph, may, n)
      ensures EdgeVerdict(drivers, graph, rank, old(perms), c, ChildPerm(drivers, graph, n, c, cumulative), ignore, base, ok, tighten, perms)
      decreases rank(n), 0
    {
      ghost var m1 := perms;
      ChildReady(drivers, graph, rank, n, c, cumulative, base, ignore);
      ChildAllowed(drivers, graph, may, perms, n, c, cumulative, base);
      if fits {
        ChildFits(drivers, graph, rank, m, m1, n, cumulative, ignore, base, t, done, c);
      }
      ok, tighten := ChildCheckPerm(c, ChildPerm(drivers, graph, n, c, cumulative), ignore, base, m0, t, may);
      ChangedJoin(graph, done, c, m, m1, perms);
      ChangedAll(graph, n, done + [c], m, perms);
      if ok {
        CheckedJoin(drivers, graph, rank, m1, perms, n, cumulative, base, done, c);
        if fits {
          AttainedJoin(graph, done, c, m1, perms, t);
        }
      } else {
        ObjectionChild(drivers, graph, may, n, c);
      }
    }

    method CheckUpdatePerm(n: NodeId, grant: Grant, ignore: set<EdgeId>,
                           ghost base: set<EdgeId>, ghost m0: Grants, ghost t: Grants, ghost may: Demands)
      returns (ok: bool, tighten: bool)
      requires Busy(m0, base) && n in graph.nodes && WriteUnchanged in grant.shared
      requires Ignores(graph, rank, base, ignore, rank(n)) && NoneBelow(graph, base, n)
      requires Allowed(drivers, graph, may, perms, n, base)
      modifies this`perms
      ensures Busy(m0, base) && ChangedBelow(graph, n, old(perms), perms)
      ensures ok ==> Accepts(graph, old(perms), n, grant, ignore)
      ensures ok ==> Derived(drivers, graph, perms, n, Join(grant, Cumulative(graph, old(perms), n, ignore)))
      ensures ok ==> SettledBelow(drivers, graph, perms, n, base)
      ensures FitsUpdate(drivers, graph, old(perms), n, grant, ignore, base, t) ==> ok && Attained(graph, n, perms, t)
      ensures !tighten ==> Loosens(Join(grant, Cumulative(graph, old(perms), n, ignore)), Cumulative(graph, old(perms), n, {}))
      ensures tighten ==> || !Welcomes(graph, old(perms), n, grant, ignore)
                          || Tightens(drivers, graph, rank, old(perms), n, Join(grant, Cumulative(graph, old(perms), n, ignore)), ignore, base)
      ensures !ok && !tighten && base == {} ==>
        && Welcomes(graph, old(perms), n, grant, ignore)
        && Hidden(drivers, graph, rank, old(perms), n, Join(grant, Cumulative(graph, old(perms), n, ignore)), ignore)
      ensures Demanded(may, perms, base)
      ensures !ok ==> || !Welcomes(graph, old(perms), n, grant, ignore) || Objection(drivers, graph, may, n)
                      || Refuses(drivers, graph, n, Join(grant, Cumulative(graph, old(perms), n, ignore)))
      ensures ok ==> FirstWelcome(drivers, graph, old(perms), n, Join(grant, Cumulative(graph, old(perms), n, ignore)), ignore)
      decreases rank(n), 4
    {
      var cumulative := grant;
      var parents := graph.nodes[n].parents;
      ParentsListed(graph, n);
      ChangedNone(graph, n, perms);
      for i := 0 to |parents|
        invariant perms == old(perms)
        invariant cumulative == Collected(perms, ignore, grant, parents[..i])
        invariant WriteUnchanged in cumulative.shared
        invariant forall f :: f in parents[..i] && f !in ignore ==> Compatible(perms[f].grant, grant)
      {
        var c := parents[i];
        assert parents[..i + 1] == parents[..i] + [c];
        if c in ignore {
          continue;
        }
        assert IsParent(graph, n, ignore, c);
        if !(grant.perm <= perms[c].grant.shared) {
          return false, true;
        }
        if !(perms[c].grant.perm <= grant.shared) {
          return false, true;
        }
        assert UserOk(graph, perms, c);
        cumulative := Join(cumulative, perms[c].grant);
      }
      assert parents[..|parents|] == parents;
      CollectedParents(graph, perms, n, ignore, grant);
      ok, tighten := CheckPerm(n, cumulative, ignore, base, m0, t, may);
    }

    method ChildCheckPerm(c: EdgeId, grant: Grant, ignore: set<EdgeId>,
                          ghost base: set<EdgeId>, ghost m0: Grants, ghost t: Grants, ghost may: Demands)
      returns (ok: bool, tighten: bool)
      requires Busy(m0, base) && c in graph.links && c !in base && WriteUnchanged in grant.shared
      requires Ignores(graph, rank, base, ignore, rank(graph.links[c].bs) + 1) && NoneBelow(graph, base, graph.links[c].bs)
      requires Allowed(drivers, graph, may, perms, graph.links[c].bs, base) && may(c, grant)
      modifies this`perms
      ensures Busy(m0, base)
      ensures ok ==> perms[c].grant == grant && SettledFrom(drivers, graph, perms, graph.links[c].bs, base)
      ensures FitsChild(drivers, graph, old(perms), c, grant, ignore, base, t) ==> ok && AttainedUnder(graph, [c], perms, t)
      ensures EdgeVerdict(drivers, graph, rank, old(perms), c, grant, ignore, base, ok, tighten, perms)
      ensures Demanded(may, perms, base)
      ensures !ok ==> Objection(drivers, graph, may, graph.links[c].bs)
      ensures ok ==> Welcomes(graph, old(perms), graph.links[c].bs, grant, ignore + {c})
      ensures ok ==> FirstWelcome(drivers, graph, old(perms), graph.links[c].bs,
                                  Join(grant, Cumulative(graph, old(perms), graph.links[c].bs, ignore + {c})), ignore + {c})
      decreases rank(graph.links[c].bs), 5
    {
      var n := graph.links[c].bs;
      assert LinkOk(graph, c);
      ghost var m := perms;
      ghost var fits := FitsChild(drivers, graph, m, c, grant, ignore, base, t);
      if fits {
        UpdateFits(drivers, graph, rank, m, c, grant, ignore, base, t);
      }
      ok, tighten := CheckUpdatePerm(n, grant, ignore + {c}, base, m0, t, may);
      ghost var m1 := perms;
      ChangedBelowUnder(graph, c, m, m1);
      if !ok {
        ObjectionAt(drivers, graph, may, m, c, grant, ignore + {c}, base);
        return;
      }
      Assign(c, grant, ignore, base, m0, m);
      DemandedAssign(may, m1, perms, c, base);
      if fits {
        AttainedAssign(graph, c, m1, perms, t);
      }
    }

    // The first assignment to an edge backs up what it had.
    method Assign(c: EdgeId, grant: Grant, ghost ignore: set<EdgeId>, ghost base: set<EdgeId>, ghost m0: Grants, ghost m: Grants)
      requires Busy(m0, base) && c in graph.links && c !in base && WriteUnchanged in grant.shared
      requires Ignores(graph, rank, base, ignore, rank(graph.links[c].bs) + 1)
      requires m.Keys == graph.links.Keys && ChangedBelow(graph, graph.links[c].bs, m, perms)
      requires Accepts(graph, m, graph.links[c].bs, grant, ignore + {c})
      requires Derived(drivers, graph, perms, graph.links[c].bs, Join(grant, Cumulative(graph, m, graph.links[c].bs, ignore + {c})))
      requires SettledBelow(drivers, graph, perms, graph.links[c].bs, base)
      modifies this`perms
      ensures Busy(m0, base) && ChangedUnder(graph, c, m, perms)
      ensures perms == old(perms)[c := perms[c]] && perms[c].grant == grant
      ensures SettledFrom(drivers, graph, perms, graph.links[c].bs, base)
    {
      ghost var m1 := perms;
      ChangedBelowUnder(graph, c, m, m1);
      var backup := if perms[c].backup == None then Some(perms[c].grant) else perms[c].backup;
      perms := perms[c := EdgePerm(grant, backup)];
      AssignTracks(graph, c, grant, m0, m, m1);
      CheckedAssign(drivers, graph, rank, m, m1, perms, c, base, ignore);
    }

    // bdrv_child_try_set_perm: ret is the returned verdict; `applied` says whether the
    // update took place
    method TrySetPerm(c: EdgeId, grant: Grant) returns (ret: bool, ghost applied: bool)
      requires Quiet() && c in graph.links && WriteUnchanged in grant.shared
      modifies this`perms
      ensures Quiet()
      // a failed update leaves no trace
      ensures !applied ==> perms == old(perms)
      // a successful one gives c what it asked for, touches only what lies under c, and
      // every node there passes on exactly what its parents' final grants imply
      ensures applied ==> ret && ChangedUnder(graph, c, old(perms), perms)
      ensures applied ==> Fulfils(drivers, graph, old(perms), c, grant, perms)
      // where no node under c is entered twice, an update fails only if nothing could do that
      ensures OnePath(graph, graph.links[c].bs) && (exists t :: Fulfils(drivers, graph, old(perms), c, grant, t)) ==> applied
      // elsewhere, it fails only if two users of a node under c, or a user and the node,
      // can at all be at odds
      ensures !applied ==> Objection(drivers, graph, DemandsUnder(drivers, graph, old(perms), c, grant), graph.links[c].bs)
      // whether the first child finds its other users willing is decided before they change
      ensures applied ==> FirstWelcome(drivers, graph, old(perms), graph.links[c].bs,
                                       Join(grant, Cumulative(graph, old(perms), graph.links[c].bs, {c})), {c})
      // who asks for no more than before is never refused, unless a driver under c asks its
      // children for more when it is itself asked for less
      ensures EasesEdge(drivers, graph, old(perms), c, grant) ==> ret
      // a failure is reported only if, at some node that the check came to, a user was in the
      // way or more was asked for than before
      ensures !ret ==> TightensEdge(drivers, graph, rank, old(perms), c, grant, {}, {})
      // it is hidden only if less was asked for wherever the check came to on its way to a
      // driver that refused
      ensures ret && !applied ==> HiddenEdge(drivers, graph, rank, old(perms), c, grant, {})
      ensures ret && !applied ==> Vetoed(drivers, graph, graph.links[c].bs)
      ensures ret && !applied ==>
        Loosens(Join(grant, Cumulative(graph, old(perms), graph.links[c].bs, {c})), Cumulative(graph, old(perms), graph.links[c].bs, {}))
    {
      ghost var m := perms;
      ghost var t := Aim(drivers, graph, rank, m, c, grant);
      ghost var may := DemandsUnder(drivers, graph, m, c, grant);
      UnderAllowed(drivers, graph, m, c, grant);
      var ok, tighten := ChildCheckPerm(c, grant, {}, {}, m, t, may);
      assert {} + {c} == {c};
      ghost var m1 := perms;
      applied := ok;
      if !ok {
        ChildAbort(c);
        AbortUndoes(graph, c, m, m1, perms);
        Verdict(drivers, graph, rank, m, c, grant, tighten);
        return !tighten, false;
      }
      ChildSetPerm(c, grant);
      CommitFinal(drivers, graph, c, m, m1, perms);
      return true, true;
    }
  }

  // ------------------------------------------------------------ why a check can fail

  // Grants that an edge can have in the course of a check.
  type Demands = (EdgeId, Grant) -> bool

  ghost predicate Demanded(may: Demands, m: Grants, base: set<EdgeId>) {
    forall e {:trigger MayHave(may, m, e)} :: e in m && e !in base ==> MayHave(may, m, e)
  }

  ghost predicate MayHave(may: Demands, m: Grants, e: EdgeId)
    requires e in m
  {
    may(e, m[e].grant)
  }

  // Whatever the owner of e may ask of it.
  ghost predicate AnyAsked(d: Drivers, g: Topology, may: Demands, e: EdgeId)
    requires e in g.links && g.links[e].owner.Some?
  {
    forall cumulative: Grant :: may(e, ChildPerm(d, g, g.links[e].owner.value, e, cumulative))
  }

  ghost predicate Allowed(d: Drivers, g: Topology, may: Demands, m: Grants, n: NodeId, base: set<EdgeId>) {
    && Demanded(may, m, base)
    && forall e {:trigger Below(g, n, e)} :: Below(g, n, e) ==> AnyAsked(d, g, may, e)
  }

  ghost predicate UserMay(g: Topology, may: Demands, x: NodeId, e: EdgeId, grant: Grant) {
    e in g.links && g.links[e].bs == x && may(e, grant)
  }

  // Two users of x can be at odds, or a user can want to write to x though it is not
  // writable, or x can refuse.
  ghost predicate AtOdds(d: Drivers, g: Topology, may: Demands, x: NodeId) {
    || (exists grant :: !Approves(d, g, x, grant))
    || (exists e, grant :: UserMay(g, may, x, e, grant) && Writes(grant.perm) && !(x in g.nodes && g.nodes[x].writable))
    || (exists e, f, a, b :: UserMay(g, may, x, e, a) && UserMay(g, may, x, f, b) && e != f && !Compatible(a, b))
  }

  // That is so at some node that can be reached from n.
  ghost predicate Objection(d: Drivers, g: Topology, may: Demands, n: NodeId) {
    exists x {:trigger AtOdds(d, g, may, x)} :: Reach(g, n, x) && AtOdds(d, g, may, x)
  }

  // n itself does not go along.
  ghost predicate Refuses(d: Drivers, g: Topology, n: NodeId, cumulative: Grant) {
    !Approves(d, g, n, cumulative) || (Writes(cumulative.perm) && !(n in g.nodes && g.nodes[n].writable))
  }

  // The other users of n go along.
  ghost predicate Welcomes(g: Topology, m: Grants, n: NodeId, grant: Grant, ignore: set<EdgeId>)
    requires m.Keys == g.links.Keys
  {
    forall f :: IsParent(g, n, ignore, f) ==> Compatible(m[f].grant, grant)
  }

  // The other users of the node that n's first child leads to go along with what that child
  // is to get.
  ghost predicate FirstWelcome(d: Drivers, g: Topology, m: Grants, n: NodeId, cumulative: Grant, ignore: set<EdgeId>)
    requires m.Keys == g.links.Keys
  {
    n in g.nodes && g.nodes[n].driver.Format? && g.nodes[n].children != [] ==>
      var e := g.nodes[n].children[0];
      e in g.links ==> Welcomes(g, m, g.links[e].bs, ChildPerm(d, g, n, e, cumulative), ignore + {e})
  }

  const READER: Grant := Grant({}, ALL)
  const WRITER: Grant := Grant({Write}, {WriteUnchanged})

  // A node with two edges to one other node. Its driver writes through the first if it is
  // itself written to, and through the second otherwise.
  ghost function TwoEdges(): Topology {
    Topology(map[0 := Node([1, 2], [0], Format, true, false), 1 := Node([], [1, 2], Plain, true, false)],
             map[0 := Link(None, 0, false, false), 1 := Link(Some(0), 1, false, false), 2 := Link(Some(0), 1, false, false)])
  }

  ghost function TwoWays(): Drivers {
    Drivers((n, e, a: Grant) => if (e == 1) == (Write in a.perm) then WRITER else READER, (n, a) => true)
  }

  ghost function ThreeGrants(a: Grant, b: Grant, c: Grant): Grants {
    map[0 := EdgePerm(a, None), 1 := EdgePerm(b, None), 2 := EdgePerm(c, None)]
  }

  lemma TwoEdgesOk(rank: NodeId -> nat)
    requires rank(0) == 1 && rank(1) == 0
    ensures TwoWays().Ok() && Linked(TwoEdges()) && Ranked(TwoEdges(), rank)
  {
  }

  lemma TwoEdgesCompatible(m: Grants)
    requires m == ThreeGrants(READER, READER, WRITER) || m == ThreeGrants(Grant({Write}, ALL), WRITER, READER)
    ensures m.Keys == TwoEdges().links.Keys && AllCompatible(TwoEdges(), m, {})
  {
  }

  lemma TwoEdgesSettled(t: Grants)
    requires t == ThreeGrants(Grant({Write}, ALL), WRITER, READER)
    ensures t.Keys == TwoEdges().links.Keys && SettledFrom(TwoWays(), TwoEdges(), t, 0, {})
  {
    var c := Cumulative(TwoEdges(), t, 0, {});
    assert IsParent(TwoEdges(), 0, {}, 0) && Uses(TwoEdges(), t, 0, {}, Write);
    assert Write in c.perm;
  }

  // Where a node is entered twice, an update can fail though it could be granted: one child
  // edge takes over writing from another one to the same node, and comes first.
  lemma OrderMatters() returns (d: Drivers, g: Topology, rank: NodeId -> nat, m: Grants, c: EdgeId, grant: Grant, t: Grants)
    ensures d.Ok() && Linked(g) && Ranked(g, rank) && m.Keys == g.links.Keys && c in g.links
    ensures AllCompatible(g, m, {}) && forall e :: e in m ==> m[e].backup == None
    ensures WriteUnchanged in grant.shared && Fulfils(d, g, m, c, grant, t)
    ensures !FirstWelcome(d, g, m, g.links[c].bs, Join(grant, Cumulative(g, m, g.links[c].bs, {c})), {c})
  {
    d, g, rank := TwoWays(), TwoEdges(), n => if n == 0 then 1 else 0;
    c, grant := 0, Grant({Write}, ALL);
    m, t := ThreeGrants(READER, READER, WRITER), ThreeGrants(grant, WRITER, READER);
    TwoEdgesOk(rank);
    TwoEdgesCompatible(m);
    TwoEdgesCompatible(t);
    TwoEdgesSettled(t);
    ReachSelf(g, 0);
    assert Under(g, 0, 1) && Under(g, 0, 2);
    TwoEdgesUnwelcome(m, grant);
  }

  lemma TwoEdgesUnwelcome(m: Grants, grant: Grant)
    requires m == ThreeGrants(READER, READER, WRITER) && grant == Grant({Write}, ALL)
    ensures !FirstWelcome(TwoWays(), TwoEdges(), m, 0, Join(grant, Cumulative(TwoEdges(), m, 0, {0})), {0})
  {
    var d, g := TwoWays(), TwoEdges();
    assert IsParent(g, 1, {0} + {1}, 2) && !Compatible(m[2].grant, WRITER);
    assert ChildPerm(d, g, 0, 1, Join(grant, Cumulative(g, m, 0, {0}))) == WRITER;
  }

  // In an update of edge c: what each edge had, the new grant for c itself, and below it
  // whatever owners may ask.
  ghost function DemandsUnder(d: Drivers, g: Topology, m: Grants, c: EdgeId, grant: Grant): Demands
    requires c in g.links
  {
    (e: EdgeId, a: Grant) => (e in m && a == m[e].grant) || (e == c && a == grant) || AskedBelow(d, g, g.links[c].bs, e, a)
  }

  ghost predicate AskedBelow(d: Drivers, g: Topology, n: NodeId, e: EdgeId, grant: Grant) {
    Below(g, n, e) && exists cumulative: Grant :: grant == ChildPerm(d, g, g.links[e].owner.value, e, cumulative)
  }

  lemma DemandedAssign(may: Demands, m: Grants, m': Grants, c: EdgeId, base: set<EdgeId>)
    requires Demanded(may, m, base) && c in m && c in m' && m' == m[c := m'[c]] && may(c, m'[c].grant)
    ensures Demanded(may, m', base)
  {
    forall e | e in m' && e !in base
      ensures MayHave(may, m', e)
    {
      assert e != c ==> MayHave(may, m, e);
    }
  }

  lemma ChildAllowed(d: Drivers, g: Topology, may: Demands, m: Grants, n: NodeId, c: EdgeId, cumulative: Grant, base: set<EdgeId>)
    requires c in g.links && g.links[c].owner == Some(n) && Allowed(d, g, may, m, n, base)
    ensures Allowed(d, g, may, m, g.links[c].bs, base) && may(c, ChildPerm(d, g, n, c, cumulative))
  {
    ReachSelf(g, n);
    assert Below(g, n, c);
    assert AnyAsked(d, g, may, c);
    forall e | Below(g, g.links[c].bs, e)
      ensures AnyAsked(d, g, may, e)
    {
      BelowChild(g, n, c, e);
    }
  }

  lemma ObjectionChild(d: Drivers, g: Topology, may: Demands, n: NodeId, c: EdgeId)
    requires c in g.links && g.links[c].owner == Some(n)
    ensures Objection(d, g, may, g.links[c].bs) ==> Objection(d, g, may, n)
  {
    if Objection(d, g, may, g.links[c].bs) {
      var x :| Reach(g, g.links[c].bs, x) && AtOdds(d, g, may, x);
      ReachChild(g, c);
      ReachTrans(g, n, g.links[c].bs, x);
    }
  }

  // If the node of c or one of its other users does not go along, they are at odds.
  lemma ObjectionAt(d: Drivers, g: Topology, may: Demands, m: Grants, c: EdgeId, grant: Grant,
                    ignore: set<EdgeId>, base: set<EdgeId>)
    requires m.Keys == g.links.Keys && c in g.links && c in ignore && base <= ignore && Demanded(may, m, base) && may(c, grant)
    ensures var n := g.links[c].bs;
      || !Welcomes(g, m, n, grant, ignore) || Refuses(d, g, n, Join(grant, Cumulative(g, m, n, ignore)))
      ==> Objection(d, g, may, n)
  {
    var n := g.links[c].bs;
    var all := Join(grant, Cumulative(g, m, n, ignore));
    ReachSelf(g, n);
    assert UserMay(g, may, n, c, grant);
    if !Welcomes(g, m, n, grant, ignore) {
      var f :| IsParent(g, n, ignore, f) && !Compatible(m[f].grant, grant);
      assert MayHave(may, m, f);
      assert UserMay(g, may, n, f, m[f].grant) && f != c;
      assert AtOdds(d, g, may, n);
    } else if !Approves(d, g, n, all) {
      assert AtOdds(d, g, may, n);
    } else if Refuses(d, g, n, all) {
      WriterFound(g, may, m, n, c, grant, ignore, base);
      assert AtOdds(d, g, may, n);
    }
  }

  lemma WriterFound(g: Topology, may: Demands, m: Grants, n: NodeId, c: EdgeId, grant: Grant, ignore: set<EdgeId>, base: set<EdgeId>)
    requires m.Keys == g.links.Keys && base <= ignore && Demanded(may, m, base) && UserMay(g, may, n, c, grant)
    requires Writes(Join(grant, Cumulative(g, m, n, ignore)).perm)
    ensures exists e, a :: UserMay(g, may, n, e, a) && Writes(a.perm)
  {
    if !Writes(grant.perm) {
      var p :| (p == Write || p == WriteUnchanged) && Uses(g, m, n, ignore, p);
      var e :| IsParent(g, n, ignore, e) && p in m[e].grant.perm;
      assert MayHave(may, m, e);
      assert UserMay(g, may, n, e, m[e].grant);
    }
  }

  // --------------------------------------------------------------------- the verdict

  // Checking n for `cumulative` began in m and has come in m1 to its k-th child; the
  // children before that have been checked.
  ghost predicate TurnOf(d: Drivers, g: Topology, m: Grants, n: NodeId, cumulative: Grant, base: set<EdgeId>, k: nat, m1: Grants) {
    && m.Keys == m1.Keys == g.links.Keys && n in g.nodes && k < |g.nodes[n].children|
    && var cs := g.nodes[n].children;
       && cs[k] in g.links && g.links[cs[k]].owner == Some(n) && cs[k] !in cs[..k] && AllCompatible(g, m1, base)
       && ChangedUnderAny(g, cs[..k], m, m1) && Checked(d, g, m1, n, cumulative, base, cs[..k])
  }

  // The check of n, or of a node that it comes to below n, asks for more than there was or
  // finds a user in the way.
  ghost predicate Tightens(d: Drivers, g: Topology, rank: NodeId -> nat, m: Grants, n: NodeId, cumulative: Grant,
                           ignore: set<EdgeId>, base: set<EdgeId>)
    requires m.Keys == g.links.Keys && Ranked(g, rank)
    decreases rank(n), 1
  {
    || !Loosens(cumulative, Cumulative(g, m, n, {}))
    || TightensBelow(d, g, rank, m, n, cumulative, ignore, base)
  }

  ghost predicate TightensBelow(d: Drivers, g: Topology, rank: NodeId -> nat, m: Grants, n: NodeId, cumulative: Grant,
                                ignore: set<EdgeId>, base: set<EdgeId>)
    requires m.Keys == g.links.Keys && Ranked(g, rank)
    decreases rank(n), 0
  {
    exists k: nat, m1: Grants {:trigger TurnOf(d, g, m, n, cumulative, base, k, m1)} ::
      TurnOf(d, g, m, n, cumulative, base, k, m1) &&
      var c := g.nodes[n].children[k];
      TightensEdge(d, g, rank, m1, c, ChildPerm(d, g, n, c, cumulative), ignore, base)
  }

  ghost predicate TightensEdge(d: Drivers, g: Topology, rank: NodeId -> nat, m: Grants, c: EdgeId, grant: Grant,
                               ignore: set<EdgeId>, base: set<EdgeId>)
    requires m.Keys == g.links.Keys && Ranked(g, rank) && c in g.links
    decreases rank(g.links[c].bs), 2
  {
    var n := g.links[c].bs;
    || !Welcomes(g, m, n, grant, ignore + {c})
    || Tightens(d, g, rank, m, n, Join(grant, Cumulative(g, m, n, ignore + {c})), ignore + {c}, base)
  }

  // Less is asked for at the node of c.
  ghost predicate LooseTurn(g: Topology, m: Grants, c: EdgeId, grant: Grant, ignore: set<EdgeId>)
    requires m.Keys == g.links.Keys && c in g.links
  {
    Loosens(Join(grant, Cumulative(g, m, g.links[c].bs, ignore + {c})), Cumulative(g, m, g.links[c].bs, {}))
  }

  // Checking the first k children of n has taken m to m1 and asked for less at each of them.
  ghost predicate Loosely(d: Drivers, g: Topology, m: Grants, n: NodeId, cumulative: Grant, ignore: set<EdgeId>, k: nat, m1: Grants) {
    if k == 0 then m1 == m
    else exists m0: Grants {:trigger LooseStep(d, g, n, cumulative, ignore, k, m0, m1)} ::
      LooseStep(d, g, n, cumulative, ignore, k, m0, m1) && Loosely(d, g, m, n, cumulative, ignore, k - 1, m0)
  }

  ghost predicate LooseStep(d: Drivers, g: Topology, n: NodeId, cumulative: Grant, ignore: set<EdgeId>, k: nat, m0: Grants, m1: Grants) {
    && m0.Keys == g.links.Keys && n in g.nodes && 0 < k <= |g.nodes[n].children|
    && var c := g.nodes[n].children[k - 1];
       c in g.links && LooseTurn(g, m0, c, ChildPerm(d, g, n, c, cumulative), ignore) && ChangedUnder(g, c, m0, m1)
  }

  // Less is asked for at n and wherever else the check comes to, and it ends at a driver that
  // refuses.
  ghost predicate Hidden(d: Drivers, g: Topology, rank: NodeId -> nat, m: Grants, n: NodeId, cumulative: Grant, ignore: set<EdgeId>)
    requires m.Keys == g.links.Keys && Ranked(g, rank)
    decreases rank(n), 1
  {
    && Loosens(cumulative, Cumulative(g, m, n, {}))
    && (!Approves(d, g, n, cumulative) || HiddenBelow(d, g, rank, m, n, cumulative, ignore))
  }

  ghost predicate HiddenBelow(d: Drivers, g: Topology, rank: NodeId -> nat, m: Grants, n: NodeId, cumulative: Grant, ignore: set<EdgeId>)
    requires m.Keys == g.links.Keys && Ranked(g, rank)
    decreases rank(n), 0
  {
    exists k: nat, m1: Grants {:trigger TurnOf(d, g, m, n, cumulative, {}, k, m1)} ::
      TurnOf(d, g, m, n, cumulative, {}, k, m1) && Loosely(d, g, m, n, cumulative, ignore, k, m1) &&
      var c := g.nodes[n].children[k];
      HiddenEdge(d, g, rank, m1, c, ChildPerm(d, g, n, c, cumulative), ignore)
  }

  ghost predicate HiddenEdge(d: Drivers, g: Topology, rank: NodeId -> nat, m: Grants, c: EdgeId, grant: Grant, ignore: set<EdgeId>)
    requires m.Keys == g.links.Keys && Ranked(g, rank) && c in g.links
    decreases rank(g.links[c].bs), 2
  {
    var n := g.links[c].bs;
    && Welcomes(g, m, n, grant, ignore + {c})
    && Hidden(d, g, rank, m, n, Join(grant, Cumulative(g, m, n, ignore + {c})), ignore + {c})
  }

  lemma {:induction false} HiddenEdgeVetoed(d: Drivers, g: Topology, rank: NodeId -> nat, m: Grants, c: EdgeId, grant: Grant, ignore: set<EdgeId>)
    requires m.Keys == g.links.Keys && Ranked(g, rank) && c in g.links && HiddenEdge(d, g, rank, m, c, grant, ignore)
    ensures Vetoed(d, g, g.links[c].bs)
    decreases rank(g.links[c].bs), 1
  {
    var n := g.links[c].bs;
    HiddenVetoed(d, g, rank, m, n, Join(grant, Cumulative(g, m, n, ignore + {c})), ignore + {c});
  }

  lemma {:induction false} HiddenVetoed(d: Drivers, g: Topology, rank: NodeId -> nat, m: Grants, n: NodeId, cumulative: Grant, ignore: set<EdgeId>)
    requires m.Keys == g.links.Keys && Ranked(g, rank) && Hidden(d, g, rank, m, n, cumulative, ignore)
    ensures Vetoed(d, g, n)
    decreases rank(n), 0
  {
    ReachSelf(g, n);
    if Approves(d, g, n, cumulative) {
      var k: nat, m1: Grants :| TurnOf(d, g, m, n, cumulative, {}, k, m1) && Loosely(d, g, m, n, cumulative, ignore, k, m1) &&
        var c := g.nodes[n].children[k];
        HiddenEdge(d, g, rank, m1, c, ChildPerm(d, g, n, c, cumulative), ignore);
      var c := g.nodes[n].children[k];
      HiddenEdgeVetoed(d, g, rank, m1, c, ChildPerm(d, g, n, c, cumulative), ignore);
      VetoedChild(d, g, n, c);
    }
  }

  // The check of edge c took m to m1, and what its verdict means.
  ghost predicate EdgeVerdict(d: Drivers, g: Topology, rank: NodeId -> nat, m: Grants, c: EdgeId, grant: Grant,
                              ignore: set<EdgeId>, base: set<EdgeId>, ok: bool, tighten: bool, m1: Grants)
    requires m.Keys == g.links.Keys && Ranked(g, rank) && c in g.links
  {
    && ChangedUnder(g, c, m, m1)
    && (tighten ==> TightensEdge(d, g, rank, m, c, grant, ignore, base))
    && (!tighten ==> LooseTurn(g, m, c, grant, ignore))
    && (!ok && !tighten && base == {} ==> HiddenEdge(d, g, rank, m, c, grant, ignore))
  }

  // What the k-th child contributes.
  lemma TurnVerdict(d: Drivers, g: Topology, rank: NodeId -> nat, m: Grants, n: NodeId, cumulative: Grant, ignore: set<EdgeId>,
                    base: set<EdgeId>, k: nat, m1: Grants, m2: Grants, ok: bool, tighten: bool)
    requires Ranked(g, rank) && TurnOf(d, g, m, n, cumulative, base, k, m1)
    requires var c := g.nodes[n].children[k];
      EdgeVerdict(d, g, rank, m1, c, ChildPerm(d, g, n, c, cumulative), ignore, base, ok, tighten, m2)
    ensures tighten ==> TightensBelow(d, g, rank, m, n, cumulative, ignore, base)
    ensures !ok && !tighten && base == {} && Loosely(d, g, m, n, cumulative, ignore, k, m1) ==>
      HiddenBelow(d, g, rank, m, n, cumulative, ignore)
    ensures !tighten && Loosely(d, g, m, n, cumulative, ignore, k, m1) ==> Loosely(d, g, m, n, cumulative, ignore, k + 1, m2)
  {
    if !tighten {
      assert LooseStep(d, g, n, cumulative, ignore, k + 1, m1, m2);
    }
  }

  // What the verdict on a failed check of edge c means.
  lemma Verdict(d: Drivers, g: Topology, rank: NodeId -> nat, m: Grants, c: EdgeId, grant: Grant, tighten: bool)
    requires m.Keys == g.links.Keys && Ranked(g, rank) && c in g.links && AllCompatible(g, m, {})
    requires tighten ==> TightensEdge(d, g, rank, m, c, grant, {}, {})
    requires !tighten ==> HiddenEdge(d, g, rank, m, c, grant, {})
    ensures tighten ==> !EasesEdge(d, g, m, c, grant)
    ensures !tighten ==> Vetoed(d, g, g.links[c].bs)
  {
    if tighten {
      if EasesEdge(d, g, m, c, grant) {
        EasesEdgeNot(d, g, rank, m, c, grant, {});
      }
    } else {
      HiddenEdgeVetoed(d, g, rank, m, c, grant, {});
    }
  }

  // ---------------------------------------------------------------- asking for less

  // From n down, who is asked for less does not ask its children for more.
  ghost predicate MonotoneFrom(d: Drivers, g: Topology, n: NodeId) {
    forall x: NodeId, e: EdgeId {:trigger Reach(g, n, x), d.Monotone(x, e)} ::
      Reach(g, n, x) && e in g.links && g.links[e].owner == Some(x) ==> d.Monotone(x, e)
  }

  // Every node that can be reached from n passes on what its driver derives.
  ghost predicate FlowsFrom(d: Drivers, g: Topology, m: Grants, n: NodeId)
    requires m.Keys == g.links.Keys
  {
    forall x {:trigger Reach(g, n, x)} :: Reach(g, n, x) ==> PassesOn(d, g, m, x, Cumulative(g, m, x, {}))
  }

  ghost predicate Eases(d: Drivers, g: Topology, m: Grants, n: NodeId, cumulative: Grant) {
    && m.Keys == g.links.Keys && MonotoneFrom(d, g, n) && FlowsFrom(d, g, m, n)
    && Looser(cumulative, Cumulative(g, m, n, {}))
  }

  // The grant is no more than what edge c has, and drivers do not make more of less.
  ghost predicate EasesEdge(d: Drivers, g: Topology, m: Grants, c: EdgeId, grant: Grant)
    requires c in g.links
  {
    && m.Keys == g.links.Keys && MonotoneFrom(d, g, g.links[c].bs) && FlowsFrom(d, g, m, g.links[c].bs)
    && Looser(grant, m[c].grant)
  }

  // Who asks for less finds nothing to be tightened.
  lemma {:induction false} EasesEdgeNot(d: Drivers, g: Topology, rank: NodeId -> nat, m: Grants, c: EdgeId, grant: Grant, ignore: set<EdgeId>)
    requires Ranked(g, rank) && c in g.links && EasesEdge(d, g, m, c, grant) && AllCompatible(g, m, {})
    requires Ignores(g, rank, {}, ignore, rank(g.links[c].bs) + 1)
    ensures !TightensEdge(d, g, rank, m, c, grant, ignore, {})
    decreases rank(g.links[c].bs), 1
  {
    UpdateEases(d, g, rank, m, c, grant, ignore);
    EasesNot(d, g, rank, m, g.links[c].bs, Join(grant, Cumulative(g, m, g.links[c].bs, ignore + {c})), ignore + {c});
  }

  lemma {:induction false} EasesNot(d: Drivers, g: Topology, rank: NodeId -> nat, m: Grants, n: NodeId, cumulative: Grant, ignore: set<EdgeId>)
    requires Ranked(g, rank) && Eases(d, g, m, n, cumulative) && Ignores(g, rank, {}, ignore, rank(n))
    ensures !Tightens(d, g, rank, m, n, cumulative, ignore, {})
    decreases rank(n), 0
  {
    LoosensIs(cumulative, Cumulative(g, m, n, {}));
    forall k: nat, m1: Grants | TurnOf(d, g, m, n, cumulative, {}, k, m1)
      ensures var c := g.nodes[n].children[k];
        !TightensEdge(d, g, rank, m1, c, ChildPerm(d, g, n, c, cumulative), ignore, {})
    {
      var c := g.nodes[n].children[k];
      TurnEases(d, g, rank, m, n, cumulative, k, m1);
      EasesEdgeNot(d, g, rank, m1, c, ChildPerm(d, g, n, c, cumulative), ignore);
    }
  }

  lemma TurnEases(d: Drivers, g: Topology, rank: NodeId -> nat, m: Grants, n: NodeId, cumulative: Grant, k: nat, m1: Grants)
    requires Ranked(g, rank) && Eases(d, g, m, n, cumulative) && TurnOf(d, g, m, n, cumulative, {}, k, m1)
    ensures var c := g.nodes[n].children[k]; EasesEdge(d, g, m1, c, ChildPerm(d, g, n, c, cumulative))
  {
    var done, c := g.nodes[n].children[..k], g.nodes[n].children[k];
    ReachSelf(g, n);
    var was := Cumulative(g, m, n, {});
    assert PassesOn(d, g, m, n, was);
    assert m[c].grant == ChildPerm(d, g, n, c, was);
    assert d.Monotone(n, c);
    assert Looser(d.childPerm(n, c, cumulative), d.childPerm(n, c, was));
    NotMoved(d, g, rank, m, n, cumulative, done, c, m1);
    EasesChild(d, g, m, n, cumulative, c);
    FlowsAside(d, g, rank, m, m1, n, cumulative, c, done);
  }

  lemma EasesChild(d: Drivers, g: Topology, m: Grants, n: NodeId, cumulative: Grant, c: EdgeId)
    requires Eases(d, g, m, n, cumulative) && c in g.links && g.links[c].owner == Some(n)
    ensures MonotoneFrom(d, g, g.links[c].bs) && FlowsFrom(d, g, m, g.links[c].bs)
  {
    ReachChild(g, c);
    forall x | Reach(g, g.links[c].bs, x)
      ensures Reach(g, n, x)
    {
      ReachTrans(g, n, g.links[c].bs, x);
    }
  }

  lemma NotMoved(d: Drivers, g: Topology, rank: NodeId -> nat, m: Grants, n: NodeId, cumulative: Grant, done: seq<EdgeId>, c: EdgeId, m1: Grants)
    requires Ranked(g, rank) && m.Keys == m1.Keys == g.links.Keys && c in g.links && g.links[c].owner == Some(n) && c !in done
    requires ChangedUnderAny(g, done, m, m1) && Checked(d, g, m1, n, cumulative, {}, done)
    ensures m1[c] == m[c]
  {
    forall e | e in done
      ensures !Under(g, e, c)
    {
      assert ChildChecked(d, g, m1, n, cumulative, {}, e);
      SiblingNotUnder(g, rank, n, e, c);
    }
    assert !AnyUnder(g, done, c);
  }

  // Checking other children of n leaves what is below b in order.
  lemma FlowsAside(d: Drivers, g: Topology, rank: NodeId -> nat, m: Grants, m1: Grants, n: NodeId, cumulative: Grant, b: EdgeId, done: seq<EdgeId>)
    requires m.Keys == m1.Keys == g.links.Keys && Ranked(g, rank) && b in g.links && g.links[b].owner == Some(n)
    requires FlowsFrom(d, g, m, g.links[b].bs) && Checked(d, g, m1, n, cumulative, {}, done) && ChangedUnderAny(g, done, m, m1)
    ensures FlowsFrom(d, g, m1, g.links[b].bs)
  {
    forall x | Reach(g, g.links[b].bs, x)
      ensures PassesOn(d, g, m1, x, Cumulative(g, m1, x, {}))
    {
      ReachRank(g, rank, g.links[b].bs, x);
      assert rank(g.links[b].bs) < rank(n);
      if c :| c in done && c in g.links && Reach(g, g.links[c].bs, x) {
        assert ChildChecked(d, g, m1, n, cumulative, {}, c);
        assert Settled(d, g, m1, x, {});
      } else {
        FlowKept(d, g, m, m1, n, cumulative, done, x);
      }
    }
  }

  lemma FlowKept(d: Drivers, g: Topology, m: Grants, m1: Grants, n: NodeId, cumulative: Grant, done: seq<EdgeId>, x: NodeId)
    requires m.Keys == m1.Keys == g.links.Keys && x != n
    requires Checked(d, g, m1, n, cumulative, {}, done) && ChangedUnderAny(g, done, m, m1)
    requires forall c :: c in done && c in g.links ==> !Reach(g, g.links[c].bs, x)
    requires PassesOn(d, g, m, x, Cumulative(g, m, x, {}))
    ensures PassesOn(d, g, m1, x, Cumulative(g, m1, x, {}))
  {
    forall e | e in g.links && (g.links[e].bs == x || g.links[e].owner == Some(x))
      ensures m1[e] == m[e]
    {
      forall c | c in done
        ensures !Under(g, c, e)
      {
        assert ChildChecked(d, g, m1, n, cumulative, {}, c);
        NotUnderAt(g, c, x, e);
      }
      assert !AnyUnder(g, done, e);
    }
    SameCumulative(g, m, m1, x, {});
  }

  // Less for one user is less for all of them together, and nobody minds.
  lemma UpdateEases(d: Drivers, g: Topology, rank: NodeId -> nat, m: Grants, c: EdgeId, grant: Grant, ignore: set<EdgeId>)
    requires c in g.links && EasesEdge(d, g, m, c, grant) && AllCompatible(g, m, {})
    requires Ignores(g, rank, {}, ignore, rank(g.links[c].bs) + 1)
    ensures Welcomes(g, m, g.links[c].bs, grant, ignore + {c})
    ensures Eases(d, g, m, g.links[c].bs, Join(grant, Cumulative(g, m, g.links[c].bs, ignore + {c})))
  {
    var n := g.links[c].bs;
    forall f | IsParent(g, n, ignore + {c}, f)
      ensures Compatible(m[f].grant, grant)
    {
      assert Peers(g, {}, c, f) && Peers(g, {}, f, c);
    }
    CumulativeAssign(g, m, m, c, {}, ignore + {c});
  }

  lemma LoosensIs(a: Grant, b: Grant)
    ensures Loosens(a, b) <==> Looser(a, b)
  {
    assert a.perm - b.perm == {} <==> a.perm <= b.perm by {
      if a.perm - b.perm == {} {
        assert forall p :: p in a.perm ==> p !in a.perm - b.perm;
      }
    }
    assert b.shared - a.shared == {} <==> b.shared <= a.shared by {
      if b.shared - a.shared == {} {
        assert forall p :: p in b.shared ==> p !in b.shared - a.shared;
      }
    }
  }

  // --------------------------------------------------- what a check is to arrive at

  // t differs from m only under c, gives c the grant, and every node under c passes on
  // what its parents' grants imply, with the approval of its driver, while all users of
  // all nodes get along.
  ghost predicate Fulfils(d: Drivers, g: Topology, m: Grants, c: EdgeId, grant: Grant, t: Grants)
    requires c in g.links
  {
    && t.Keys == m.Keys == g.links.Keys
    && (forall e :: e in m && !Under(g, c, e) ==> t[e].grant == m[e].grant)
    && t[c].grant == grant && SettledFrom(d, g, t, g.links[c].bs, {}) && AllCompatible(g, t, {})
  }

  // m and t agree about the edges from elsewhere to n and to what can be reached from it.
  ghost predicate Around(g: Topology, m: Grants, t: Grants, n: NodeId, ignore: set<EdgeId>)
    requires m.Keys == t.Keys == g.links.Keys
  {
    forall e {:trigger Below(g, n, e)} :: e in g.links && Reach(g, n, g.links[e].bs) && !Below(g, n, e) && e !in ignore ==>
      t[e].grant == m[e].grant
  }

  // t is what a check of n with these cumulative permissions is to arrive at from m.
  ghost predicate Fits(d: Drivers, g: Topology, m: Grants, n: NodeId, cumulative: Grant, ignore: set<EdgeId>, base: set<EdgeId>, t: Grants) {
    && m.Keys == t.Keys == g.links.Keys && OnePath(g, n) && Around(g, m, t, n, ignore)
    && (Writes(cumulative.perm) ==> n in g.nodes && g.nodes[n].writable)
    && Derived(d, g, t, n, cumulative) && SettledBelow(d, g, t, n, base) && AllCompatible(g, t, base)
  }

  // The same for a check of n with a new user.
  ghost predicate FitsUpdate(d: Drivers, g: Topology, m: Grants, n: NodeId, grant: Grant, ignore: set<EdgeId>, base: set<EdgeId>, t: Grants) {
    && m.Keys == g.links.Keys
    && (forall f :: IsParent(g, n, ignore, f) ==> Compatible(m[f].grant, grant))
    && Fits(d, g, m, n, Join(grant, Cumulative(g, m, n, ignore)), ignore, base, t)
  }

  // The same for a check of edge c.
  ghost predicate FitsChild(d: Drivers, g: Topology, m: Grants, c: EdgeId, grant: Grant, ignore: set<EdgeId>, base: set<EdgeId>, t: Grants)
    requires c in g.links
  {
    && m.Keys == t.Keys == g.links.Keys && OnePath(g, g.links[c].bs) && Around(g, m, t, g.links[c].bs, ignore + {c})
    && t[c].grant == grant && SettledFrom(d, g, t, g.links[c].bs, base) && AllCompatible(g, t, base)
  }

  // The grants below n are those of t.
  ghost predicate Attained(g: Topology, n: NodeId, m: Grants, t: Grants) {
    m.Keys == t.Keys && forall e {:trigger Below(g, n, e)} :: e in m && Below(g, n, e) ==> m[e].grant == t[e].grant
  }

  ghost predicate AttainedUnder(g: Topology, cs: seq<EdgeId>, m: Grants, t: Grants) {
    m.Keys == t.Keys && forall e {:trigger AnyUnder(g, cs, e)} :: e in m && AnyUnder(g, cs, e) ==> m[e].grant == t[e].grant
  }

  lemma AttainedJoin(g: Topology, cs: seq<EdgeId>, c: EdgeId, m: Grants, m': Grants, t: Grants)
    requires AttainedUnder(g, cs, m, t) && AttainedUnder(g, [c], m', t) && ChangedUnder(g, c, m, m')
    ensures AttainedUnder(g, cs + [c], m', t)
  {
    forall e | e in m' && AnyUnder(g, cs + [c], e)
      ensures m'[e].grant == t[e].grant
    {
      AnyUnderAppend(g, cs, c, e);
      assert AnyUnder(g, [c], e) <==> Under(g, c, e) by { assert c in [c]; }
    }
  }

  lemma AttainedAll(g: Topology, n: NodeId, m: Grants, t: Grants)
    requires Linked(g) && n in g.nodes && m.Keys == g.links.Keys && AttainedUnder(g, g.nodes[n].children, m, t)
    ensures Attained(g, n, m, t)
  {
    AllBelow(g, n);
  }

  lemma AttainedAssign(g: Topology, c: EdgeId, m: Grants, m': Grants, t: Grants)
    requires c in g.links && m.Keys == g.links.Keys && Attained(g, g.links[c].bs, m, t)
    requires c in m' && m' == m[c := m'[c]] && m'[c].grant == t[c].grant
    ensures AttainedUnder(g, [c], m', t)
  {
    forall e | e in m' && AnyUnder(g, [c], e)
      ensures m'[e].grant == t[e].grant
    {
      assert Under(g, c, e);
    }
  }

  // Where no node is entered twice, what the other children have become does not matter
  // to child c.
  lemma ChildFits(d: Drivers, g: Topology, rank: NodeId -> nat, m: Grants, m1: Grants, n: NodeId, cumulative: Grant,
                  ignore: set<EdgeId>, base: set<EdgeId>, t: Grants, cs: seq<EdgeId>, c: EdgeId)
    requires Linked(g) && Ranked(g, rank) && n in g.nodes && c in g.links && g.links[c].owner == Some(n)
    requires Fits(d, g, m, n, cumulative, ignore, base, t) && m1.Keys == m.Keys
    requires cs <= g.nodes[n].children && ChangedUnderAny(g, cs, m, m1)
    ensures FitsChild(d, g, m1, c, ChildPerm(d, g, n, c, cumulative), ignore, base, t)
  {
    var b := g.links[c].bs;
    OnePathChild(g, n, c);
    ChangedAll(g, n, cs, m, m1);
    ReachChild(g, c);
    forall e | e in g.links && Reach(g, b, g.links[e].bs) && !Below(g, b, e) && e !in ignore + {c}
      ensures t[e].grant == m1[e].grant
    {
      EnteredElsewhere(g, n, c, e);
      ReachTrans(g, n, b, g.links[e].bs);
    }
    forall x | Reach(g, b, x)
      ensures Settled(d, g, t, x, base)
    {
      ReachTrans(g, n, b, x);
      ReachRank(g, rank, b, x);
      assert rank(g.links[c].bs) < rank(n);
    }
  }

  // An edge to what lies under c, that does not itself lie there, comes from elsewhere.
  lemma EnteredElsewhere(g: Topology, n: NodeId, c: EdgeId, e: EdgeId)
    requires OnePath(g, n) && c in g.links && g.links[c].owner == Some(n)
    requires e in g.links && Reach(g, g.links[c].bs, g.links[e].bs) && !Below(g, g.links[c].bs, e) && e != c
    ensures !Below(g, n, e)
  {
    ReachSelf(g, n);
    if Below(g, n, e) && g.links[e].bs != g.links[c].bs {
      var path :| Path(g, g.links[c].bs, path, g.links[e].bs);
      var f := LastEdge(g, g.links[c].bs, path, g.links[e].bs);
      BelowChild(g, n, c, f);
    } else {
      assert Below(g, n, c);
    }
  }

  // The users of n in t get along, so the new user does with those that are looked at.
  lemma UpdateFits(d: Drivers, g: Topology, rank: NodeId -> nat, m: Grants, c: EdgeId, grant: Grant,
                   ignore: set<EdgeId>, base: set<EdgeId>, t: Grants)
    requires Ranked(g, rank) && c in g.links && c !in base
    requires Ignores(g, rank, base, ignore, rank(g.links[c].bs) + 1)
    requires FitsChild(d, g, m, c, grant, ignore, base, t)
    ensures FitsUpdate(d, g, m, g.links[c].bs, grant, ignore + {c}, base, t)
  {
    var n := g.links[c].bs;
    ReachSelf(g, n);
    ParentsNotBelow(g, rank, n);
    forall f | IsParent(g, n, ignore + {c}, f)
      ensures t[f].grant == m[f].grant && Compatible(m[f].grant, grant)
    {
      assert !Below(g, n, f);
      assert Peers(g, base, c, f) && Peers(g, base, f, c);
    }
    SameUsers(g, m, t, n, ignore + {c});
    CumulativeAssign(g, t, t, c, base, ignore + {c});
    WritersWrite(g, t, n, base);
  }

  lemma SameUsers(g: Topology, m: Grants, m': Grants, x: NodeId, ignore: set<EdgeId>)
    requires m.Keys == m'.Keys == g.links.Keys
    requires forall e :: IsParent(g, x, ignore, e) ==> m'[e].grant == m[e].grant
    ensures Cumulative(g, m', x, ignore) == Cumulative(g, m, x, ignore)
  {
    forall p: Perm
      ensures p in Cumulative(g, m', x, ignore).perm <==> p in Cumulative(g, m, x, ignore).perm
      ensures p in Cumulative(g, m', x, ignore).shared <==> p in Cumulative(g, m, x, ignore).shared
    {
    }
  }

  // Where somebody writes, the node is writable.
  lemma WritersWrite(g: Topology, m: Grants, n: NodeId, base: set<EdgeId>)
    requires m.Keys == g.links.Keys && AllCompatible(g, m, base)
    ensures Writes(Cumulative(g, m, n, base).perm) ==> n in g.nodes && g.nodes[n].writable
  {
    if Writes(Cumulative(g, m, n, base).perm) {
      var p :| (p == Write || p == WriteUnchanged) && Uses(g, m, n, base, p);
      var e :| IsParent(g, n, base, e) && p in m[e].grant.perm;
      assert UserOk(g, m, e);
    }
  }

  lemma VetoedChild(d: Drivers, g: Topology, n: NodeId, c: EdgeId)
    requires c in g.links && g.links[c].owner == Some(n)
    ensures Vetoed(d, g, g.links[c].bs) ==> Vetoed(d, g, n)
  {
    if Vetoed(d, g, g.links[c].bs) {
      var x, grant :| Reach(g, g.links[c].bs, x) && !Approves(d, g, x, grant);
      ReachChild(g, c);
      ReachTrans(g, n, g.links[c].bs, x);
    }
  }

  lemma FulfilsFits(d: Drivers, g: Topology, rank: NodeId -> nat, m: Grants, c: EdgeId, grant: Grant, t: Grants)
    requires Ranked(g, rank) && c in g.links && Fulfils(d, g, m, c, grant, t) && OnePath(g, g.links[c].bs)
    ensures FitsChild(d, g, m, c, grant, {}, {}, t)
  {
    assert {} + {c} == {c};
  }

  // What an update of c is to arrive at, if that can be.
  lemma Aim(d: Drivers, g: Topology, rank: NodeId -> nat, m: Grants, c: EdgeId, grant: Grant) returns (t: Grants)
    requires Ranked(g, rank) && c in g.links
    ensures OnePath(g, g.links[c].bs) && (exists t1 :: Fulfils(d, g, m, c, grant, t1)) ==> FitsChild(d, g, m, c, grant, {}, {}, t)
  {
    t := m;
    if OnePath(g, g.links[c].bs) && exists t1 :: Fulfils(d, g, m, c, grant, t1) {
      t :| Fulfils(d, g, m, c, grant, t);
      FulfilsFits(d, g, rank, m, c, grant, t);
    }
  }

  lemma UnderAllowed(d: Drivers, g: Topology, m: Grants, c: EdgeId, grant: Grant)
    requires c in g.links
    ensures Allowed(d, g, DemandsUnder(d, g, m, c, grant), m, g.links[c].bs, {}) && DemandsUnder(d, g, m, c, grant)(c, grant)
  {
    var may := DemandsUnder(d, g, m, c, grant);
    forall e | Below(g, g.links[c].bs, e)
      ensures AnyAsked(d, g, may, e)
    {
      forall cumulative: Grant
        ensures may(e, ChildPerm(d, g, g.links[e].owner.value, e, cumulative))
      {
        assert AskedBelow(d, g, g.links[c].bs, e, ChildPerm(d, g, g.links[e].owner.value, e, cumulative));
      }
    }
  }

  // ---------------------------------------------------------------- sets of edges

  ghost predicate AnyUnder(g: Topology, cs: seq<EdgeId>, e: EdgeId) {
    exists c :: c in cs && Under(g, c, e)
  }

  ghost predicate AbortedUnder(g: Topology, cs: seq<EdgeId>, m: Grants, m': Grants) {
    && m'.Keys == m.Keys
    && forall e :: e in m ==> m'[e] == if AnyUnder(g, cs, e) then Restored(m[e]) else m[e]
  }

  ghost predicate CommittedUnder(g: Topology, cs: seq<EdgeId>, m: Grants, m': Grants) {
    && m'.Keys == m.Keys
    && forall e :: e in m ==> m'[e] == if AnyUnder(g, cs, e) then m[e].(backup := None) else m[e]
  }

  lemma NextChild(g: Topology, n: NodeId, i: nat)
    requires Linked(g) && n in g.nodes && i < |g.nodes[n].children|
    ensures var cs := g.nodes[n].children;
      && cs[i] in g.links && g.links[cs[i]].owner == Some(n) && cs[i] !in cs[..i]
      && cs[..i + 1] == cs[..i] + [cs[i]] && cs[..i] + [cs[i]] <= cs
  {
    assert NodeOk(g, n);
  }

  // All children of n have had their turn.
  lemma ChildrenDone(d: Drivers, g: Topology, n: NodeId, m: Grants, cumulative: Grant, base: set<EdgeId>, t: Grants, fits: bool)
    requires Linked(g) && n in g.nodes && m.Keys == g.links.Keys && Approves(d, g, n, cumulative)
    requires var cs := g.nodes[n].children[..|g.nodes[n].children|];
      Checked(d, g, m, n, cumulative, base, cs) && (fits ==> AttainedUnder(g, cs, m, t))
    ensures Derived(d, g, m, n, cumulative) && SettledBelow(d, g, m, n, base) && (fits ==> Attained(g, n, m, t))
  {
    assert g.nodes[n].children[..|g.nodes[n].children|] == g.nodes[n].children;
    CheckedAll(d, g, n, m, cumulative, base);
    if fits {
      AttainedAll(g, n, m, t);
    }
  }

  lemma AllBelow(g: Topology, n: NodeId)
    requires Linked(g) && n in g.nodes
    ensures NodeOk(g, n)
    ensures forall e :: e in g.links ==> (Below(g, n, e) <==> AnyUnder(g, g.nodes[n].children, e))
  {
    forall e | e in g.links
      ensures Below(g, n, e) <==> AnyUnder(g, g.nodes[n].children, e)
    {
      BelowIsUnderChild(g, n, e);
    }
  }

  lemma AnyUnderAppend(g: Topology, cs: seq<EdgeId>, c: EdgeId, e: EdgeId)
    ensures AnyUnder(g, cs + [c], e) <==> AnyUnder(g, cs, e) || AnyUnder(g, [c], e)
  {
    if b :| b in cs && Under(g, b, e) {
      assert b in cs + [c];
    }
    assert c in [c] && c in cs + [c];
  }

  lemma AbortedNone(g: Topology, m: Grants)
    ensures AbortedUnder(g, [], m, m)
  {
  }

  lemma AbortedAll(g: Topology, n: NodeId)
    requires Linked(g) && n in g.nodes
    ensures NodeOk(g, n)
    ensures forall m, m' :: AbortedUnder(g, g.nodes[n].children, m, m') && m.Keys == g.links.Keys ==> AbortedBelow(g, n, m, m')
  {
    AllBelow(g, n);
  }

  lemma AbortedChild(g: Topology, c: EdgeId, m: Grants, m1: Grants, m2: Grants)
    requires c in g.links && m.Keys == g.links.Keys
    requires m1 == m[c := Restored(m[c])] && AbortedBelow(g, g.links[c].bs, m1, m2)
    ensures AbortedUnder(g, [c], m, m2)
  {
    forall e | e in m
      ensures m2[e] == if AnyUnder(g, [c], e) then Restored(m[e]) else m[e]
    {
      assert AnyUnder(g, [c], e) <==> Under(g, c, e) by { assert c in [c]; }
    }
  }

  lemma AbortedJoin(g: Topology, cs: seq<EdgeId>, c: EdgeId, m: Grants, m1: Grants, m2: Grants)
    requires AbortedUnder(g, cs, m, m1) && AbortedUnder(g, [c], m1, m2)
    ensures AbortedUnder(g, cs + [c], m, m2)
  {
    forall e | e in m
      ensures m2[e] == if AnyUnder(g, cs + [c], e) then Restored(m[e]) else m[e]
    {
      AnyUnderAppend(g, cs, c, e);
    }
  }

  lemma CommittedNone(g: Topology, m: Grants)
    ensures CommittedUnder(g, [], m, m)
  {
  }

  lemma CommittedAll(g: Topology, n: NodeId)
    requires Linked(g) && n in g.nodes
    ensures NodeOk(g, n)
    ensures forall m, m' :: CommittedUnder(g, g.nodes[n].children, m, m') && m.Keys == g.links.Keys ==> CommittedBelow(g, n, m, m')
  {
    AllBelow(g, n);
  }

  lemma CommittedChild(g: Topology, c: EdgeId, m: Grants, m1: Grants, m2: Grants)
    requires c in g.links && m.Keys == g.links.Keys
    requires m1 == m[c := m[c].(backup := None)] && CommittedBelow(g, g.links[c].bs, m1, m2)
    ensures CommittedUnder(g, [c], m, m2)
  {
    forall e | e in m
      ensures m2[e] == if AnyUnder(g, [c], e) then m[e].(backup := None) else m[e]
    {
      assert AnyUnder(g, [c], e) <==> Under(g, c, e) by { assert c in [c]; }
    }
  }

  lemma CommittedJoin(g: Topology, cs: seq<EdgeId>, c: EdgeId, m: Grants, m1: Grants, m2: Grants)
    requires CommittedUnder(g, cs, m, m1) && CommittedUnder(g, [c], m1, m2)
    ensures CommittedUnder(g, cs + [c], m, m2)
  {
    forall e | e in m
      ensures m2[e] == if AnyUnder(g, cs + [c], e) then m[e].(backup := None) else m[e]
    {
      AnyUnderAppend(g, cs, c, e);
    }
  }

  // ------------------------------------------------------- cumulative permissions

  // What a walk over the parents `es` collects, starting from `init` and passing over
  // the ignored ones.
  ghost function Collected(m: Grants, ignore: set<EdgeId>, init: Grant, es: seq<EdgeId>): Grant
    requires forall e :: e in es ==> e in m
  {
    if es == [] then init
    else
      var k := |es| - 1;
      var r := Collected(m, ignore, init, es[..k]);
      if es[k] in ignore then r else Join(r, m[es[k]].grant)
  }

  lemma {:induction false} CollectedHas(m: Grants, ignore: set<EdgeId>, init: Grant, es: seq<EdgeId>, p: Perm)
    requires forall e :: e in es ==> e in m
    ensures p in Collected(m, ignore, init, es).perm <==>
            p in init.perm || exists e :: e in es && e !in ignore && p in m[e].grant.perm
    ensures p in Collected(m, ignore, init, es).shared <==>
            p in init.shared && forall e :: e in es && e !in ignore ==> p in m[e].grant.shared
  {
    if es != [] {
      var k := |es| - 1;
      CollectedHas(m, ignore, init, es[..k], p);
      assert es == es[..k] + [es[k]];
    }
  }

  lemma ParentsListed(g: Topology, n: NodeId)
    requires Linked(g) && n in g.nodes
    ensures forall e :: e in g.nodes[n].parents ==> e in g.links
    ensures forall e, ignore :: IsParent(g, n, ignore, e) <==> e in g.nodes[n].parents && e !in ignore
  {
    assert NodeOk(g, n);
    forall e | e in g.links && g.links[e].bs == n
      ensures e in g.nodes[n].parents
    {
      assert LinkOk(g, e);
    }
  }

  lemma CollectedParents(g: Topology, m: Grants, n: NodeId, ignore: set<EdgeId>, init: Grant)
    requires m.Keys == g.links.Keys && Linked(g) && n in g.nodes
    ensures forall e :: e in g.nodes[n].parents ==> e in m
    ensures Collected(m, ignore, init, g.nodes[n].parents) == Join(init, Cumulative(g, m, n, ignore))
  {
    ParentsListed(g, n);
    var r := Collected(m, ignore, init, g.nodes[n].parents);
    var j := Join(init, Cumulative(g, m, n, ignore));
    forall p: Perm
      ensures (p in r.perm <==> p in j.perm) && (p in r.shared <==> p in j.shared)
    {
      CollectedHas(m, ignore, init, g.nodes[n].parents, p);
    }
    assert r.perm == j.perm && r.shared == j.shared;
  }

  lemma AllPerms(p: Perm)
    ensures p in ALL
  {
    match p
    case ConsistentRead | Write | WriteUnchanged | Resize | GraphMod =>
  }

  // Starting from nothing used and everything shared, that is all there is.
  lemma JoinNeutral(a: Grant)
    ensures Join(Grant({}, ALL), a) == a
  {
    forall p: Perm
      ensures p in ALL
    {
      AllPerms(p);
    }
    assert {} + a.perm == a.perm && ALL * a.shared == a.shared;
  }

  // ------------------------------------------------------------ settled nodes

  // All nodes that can be reached from n are settled.
  ghost predicate SettledFrom(d: Drivers, g: Topology, m: Grants, n: NodeId, ignore: set<EdgeId>)
    requires m.Keys == g.links.Keys
  {
    forall x {:trigger Reach(g, n, x)} :: Reach(g, n, x) ==> Settled(d, g, m, x, ignore)
  }

  // All of them except n itself.
  ghost predicate SettledBelow(d: Drivers, g: Topology, m: Grants, n: NodeId, ignore: set<EdgeId>)
    requires m.Keys == g.links.Keys
  {
    forall x {:trigger Reach(g, n, x)} :: Reach(g, n, x) && x != n ==> Settled(d, g, m, x, ignore)
  }

  // Being settled is about grants only.
  lemma SettledSame(d: Drivers, g: Topology, m: Grants, m': Grants, n: NodeId, ignore: set<EdgeId>)
    requires m.Keys == m'.Keys == g.links.Keys && SettledFrom(d, g, m, n, ignore)
    requires forall e :: e in m ==> m'[e].grant == m[e].grant
    ensures SettledFrom(d, g, m', n, ignore)
    ensures Derived(d, g, m', n, Cumulative(g, m', n, ignore)) && SettledBelow(d, g, m', n, ignore)
  {
    forall x | Reach(g, n, x)
      ensures Settled(d, g, m', x, ignore)
    {
      SameCumulative(g, m, m', x, ignore);
    }
    ReachSelf(g, n);
  }

  // Half-way through a commit, the next child is ready for its turn.
  lemma CommittedReady(d: Drivers, g: Topology, rank: NodeId -> nat, n: NodeId, cumulative: Grant,
                       cs: seq<EdgeId>, c: EdgeId, m: Grants, m1: Grants)
    requires m.Keys == g.links.Keys && c in g.links && g.links[c].owner == Some(n) && Ranked(g, rank)
    requires Derived(d, g, m, n, cumulative) && SettledBelow(d, g, m, n, {}) && CommittedUnder(g, cs, m, m1)
    ensures m1[c].grant == ChildPerm(d, g, n, c, cumulative)
    ensures SettledFrom(d, g, m1, g.links[c].bs, {})
  {
    var b := g.links[c].bs;
    forall x | Reach(g, b, x)
      ensures Settled(d, g, m, x, {})
    {
      ReachChild(g, c);
      ReachTrans(g, n, b, x);
      ReachRank(g, rank, b, x);
      assert rank(g.links[c].bs) < rank(n);
    }
    SettledSame(d, g, m, m1, b, {});
  }

  // ---------------------------------------------------------- a check in progress

  // Beyond `base`, only edges to nodes of rank at least r are ignored.
  ghost predicate Ignores(g: Topology, rank: NodeId -> nat, base: set<EdgeId>, ignore: set<EdgeId>, r: nat) {
    base <= ignore && forall f :: f in ignore && f !in base ==> f in g.links && r <= rank(g.links[f].bs)
  }

  ghost predicate NoneBelow(g: Topology, base: set<EdgeId>, n: NodeId) {
    forall f {:trigger Below(g, n, f)} :: f in base ==> !Below(g, n, f)
  }

  // Nothing new is used and nothing is shared less.
  predicate Loosens(grant: Grant, current: Grant) {
    grant.perm - current.perm == {} && current.shared - grant.shared == {}
  }

  lemma LoosensWrites(grant: Grant, current: Grant)
    requires Loosens(grant, current) && Writes(grant.perm)
    ensures Writes(current.perm)
  {
    var p :| p in grant.perm && (p == Write || p == WriteUnchanged);
    assert p !in grant.perm - current.perm;
  }

  // Node n can have a user with this grant beside its other users.
  ghost predicate Accepts(g: Topology, m: Grants, n: NodeId, grant: Grant, ignore: set<EdgeId>)
    requires m.Keys == g.links.Keys
  {
    && (forall f :: IsParent(g, n, ignore, f) ==> Compatible(m[f].grant, grant))
    && (Writes(grant.perm) ==> n in g.nodes && g.nodes[n].writable)
  }

  ghost predicate ChangedUnderAny(g: Topology, cs: seq<EdgeId>, m: Grants, m': Grants) {
    && m'.Keys == m.Keys
    && forall e {:trigger AnyUnder(g, cs, e)} :: e in m && !AnyUnder(g, cs, e) ==> m'[e] == m[e]
  }

  lemma ChangedNone(g: Topology, n: NodeId, m: Grants)
    ensures ChangedBelow(g, n, m, m)
  {
  }

  lemma ChangedAll(g: Topology, n: NodeId, cs: seq<EdgeId>, m: Grants, m': Grants)
    requires Linked(g) && n in g.nodes && m.Keys == g.links.Keys
    requires cs <= g.nodes[n].children && ChangedUnderAny(g, cs, m, m')
    ensures ChangedBelow(g, n, m, m')
  {
    ChangedMore(g, cs, g.nodes[n].children, m, m');
    AllBelow(g, n);
  }

  lemma ChangedJoin(g: Topology, cs: seq<EdgeId>, c: EdgeId, m: Grants, m1: Grants, m2: Grants)
    requires ChangedUnderAny(g, cs, m, m1) && ChangedUnder(g, c, m1, m2)
    ensures ChangedUnderAny(g, cs + [c], m, m2)
  {
    forall e | e in m && !AnyUnder(g, cs + [c], e)
      ensures m2[e] == m[e]
    {
      AnyUnderAppend(g, cs, c, e);
      assert c in [c];
    }
  }

  lemma ChangedMore(g: Topology, cs: seq<EdgeId>, ds: seq<EdgeId>, m: Grants, m': Grants)
    requires ChangedUnderAny(g, cs, m, m') && cs <= ds
    ensures ChangedUnderAny(g, ds, m, m')
  {
    forall e | e in m && !AnyUnder(g, ds, e)
      ensures m'[e] == m[e]
    {
      assert forall c :: c in cs ==> c in ds;
      assert !AnyUnder(g, cs, e);
    }
  }

  lemma ChangedBelowUnder(g: Topology, c: EdgeId, m: Grants, m': Grants)
    requires c in g.links && m.Keys == g.links.Keys && ChangedBelow(g, g.links[c].bs, m, m')
    ensures ChangedUnder(g, c, m, m')
  {
  }

  lemma ChildOfNone(g: Topology, base: set<EdgeId>, n: NodeId, c: EdgeId)
    requires c in g.links && g.links[c].owner == Some(n) && NoneBelow(g, base, n)
    ensures c !in base && NoneBelow(g, base, g.links[c].bs)
  {
    ReachSelf(g, n);
    assert Below(g, n, c);
    forall f | f in base
      ensures !Below(g, g.links[c].bs, f)
    {
      if Below(g, g.links[c].bs, f) {
        BelowChild(g, n, c, f);
      }
    }
  }

  // The edge c is not below its own node.
  lemma NotBelowOwn(g: Topology, rank: NodeId -> nat, c: EdgeId)
    requires Ranked(g, rank) && c in g.links
    ensures !Below(g, g.links[c].bs, c)
    ensures g.links[c].owner.Some? ==> !Reach(g, g.links[c].bs, g.links[c].owner.value)
  {
    if g.links[c].owner.Some? && Reach(g, g.links[c].bs, g.links[c].owner.value) {
      ReachRank(g, rank, g.links[c].bs, g.links[c].owner.value);
    }
  }

  // The child edges cs of n have been given what they are due, and all nodes that can
  // be reached through them are settled.
  ghost predicate Checked(d: Drivers, g: Topology, m: Grants, n: NodeId, cumulative: Grant, base: set<EdgeId>, cs: seq<EdgeId>)
    requires m.Keys == g.links.Keys
  {
    forall c {:trigger ChildChecked(d, g, m, n, cumulative, base, c)} :: c in cs ==> ChildChecked(d, g, m, n, cumulative, base, c)
  }

  ghost predicate ChildChecked(d: Drivers, g: Topology, m: Grants, n: NodeId, cumulative: Grant, base: set<EdgeId>, c: EdgeId)
    requires m.Keys == g.links.Keys
  {
    && c in g.links && g.links[c].owner == Some(n) && m[c].grant == ChildPerm(d, g, n, c, cumulative)
    && SettledFrom(d, g, m, g.links[c].bs, base)
  }

  lemma CheckedNone(d: Drivers, g: Topology, m: Grants, n: NodeId, cumulative: Grant, base: set<EdgeId>)
    requires m.Keys == g.links.Keys
    ensures Checked(d, g, m, n, cumulative, base, []) && ChangedUnderAny(g, [], m, m)
  {
  }

  lemma CheckedAll(d: Drivers, g: Topology, n: NodeId, m: Grants, cumulative: Grant, base: set<EdgeId>)
    requires Linked(g) && n in g.nodes && m.Keys == g.links.Keys
    requires Checked(d, g, m, n, cumulative, base, g.nodes[n].children) && Approves(d, g, n, cumulative)
    ensures Derived(d, g, m, n, cumulative) && SettledBelow(d, g, m, n, base)
  {
    forall e | e in g.links && g.links[e].owner == Some(n)
      ensures m[e].grant == ChildPerm(d, g, n, e, cumulative)
    {
      assert LinkOk(g, e) && ChildChecked(d, g, m, n, cumulative, base, e);
    }
    forall x | Reach(g, n, x) && x != n
      ensures Settled(d, g, m, x, base)
    {
      ReachStep(g, n, x);
      var c :| c in g.links && g.links[c].owner == Some(n) && Reach(g, g.links[c].bs, x);
      assert LinkOk(g, c) && ChildChecked(d, g, m, n, cumulative, base, c);
    }
  }

  // A node without children has nothing to derive.
  lemma CheckedLeaf(d: Drivers, g: Topology, m: Grants, n: NodeId, cumulative: Grant, base: set<EdgeId>, t: Grants)
    requires Linked(g) && n in g.nodes && m.Keys == g.links.Keys
    ensures !g.nodes[n].driver.Format? && Approves(d, g, n, cumulative) ==>
      Derived(d, g, m, n, cumulative) && SettledBelow(d, g, m, n, base)
    ensures !g.nodes[n].driver.Format? && t.Keys == m.Keys ==> Attained(g, n, m, t)
  {
    if !g.nodes[n].driver.Format? {
      assert NodeOk(g, n);
      if Approves(d, g, n, cumulative) {
        CheckedNone(d, g, m, n, cumulative, base);
        CheckedAll(d, g, n, m, cumulative, base);
      }
      AllBelow(g, n);
    }
  }

  // What a child needs in order to be checked on behalf of n.
  lemma ChildReady(d: Drivers, g: Topology, rank: NodeId -> nat, n: NodeId, c: EdgeId, cumulative: Grant,
                   base: set<EdgeId>, ignore: set<EdgeId>)
    requires Linked(g) && Ranked(g, rank) && d.Ok() && c in g.links && g.links[c].owner == Some(n)
    requires Ignores(g, rank, base, ignore, rank(n)) && NoneBelow(g, base, n) && WriteUnchanged in cumulative.shared
    ensures rank(g.links[c].bs) < rank(n)
    ensures c !in base && WriteUnchanged in ChildPerm(d, g, n, c, cumulative).shared
    ensures Ignores(g, rank, base, ignore, rank(g.links[c].bs) + 1) && NoneBelow(g, base, g.links[c].bs)
  {
    ChildOfNone(g, base, n, c);
  }

  lemma CheckedJoin(d: Drivers, g: Topology, rank: NodeId -> nat, m: Grants, m': Grants, n: NodeId, cumulative: Grant,
                    base: set<EdgeId>, cs: seq<EdgeId>, c: EdgeId)
    requires m.Keys == m'.Keys == g.links.Keys && Ranked(g, rank) && c !in cs
    requires Checked(d, g, m, n, cumulative, base, cs) && ChangedUnder(g, c, m, m')
    requires c in g.links && g.links[c].owner == Some(n) && m'[c].grant == ChildPerm(d, g, n, c, cumulative)
    requires SettledFrom(d, g, m', g.links[c].bs, base)
    ensures Checked(d, g, m', n, cumulative, base, cs + [c])
  {
    forall b | b in cs + [c]
      ensures ChildChecked(d, g, m', n, cumulative, base, b)
    {
      if b in cs {
        assert ChildChecked(d, g, m, n, cumulative, base, b);
        SiblingNotUnder(g, rank, n, c, b);
        SettledAside(d, g, rank, m, m', n, b, c, base);
      }
    }
  }

  // Checking child c leaves what is below its sibling b settled.
  lemma SettledAside(d: Drivers, g: Topology, rank: NodeId -> nat, m: Grants, m': Grants, n: NodeId, b: EdgeId, c: EdgeId, base: set<EdgeId>)
    requires m.Keys == m'.Keys == g.links.Keys && Ranked(g, rank)
    requires b in g.links && c in g.links && g.links[b].owner == Some(n) && g.links[c].owner == Some(n)
    requires SettledFrom(d, g, m, g.links[b].bs, base) && SettledFrom(d, g, m', g.links[c].bs, base)
    requires ChangedUnder(g, c, m, m')
    ensures SettledFrom(d, g, m', g.links[b].bs, base)
  {
    forall x | Reach(g, g.links[b].bs, x)
      ensures Settled(d, g, m', x, base)
    {
      ReachRank(g, rank, g.links[b].bs, x);
      assert rank(g.links[b].bs) < rank(n);
      if !Reach(g, g.links[c].bs, x) {
        SettledKept(d, g, m, m', c, x, base);
      }
    }
  }

  // Assigning the grant that has been checked.
  lemma CheckedAssign(d: Drivers, g: Topology, rank: NodeId -> nat, m: Grants, m1: Grants, m2: Grants, c: EdgeId,
                      base: set<EdgeId>, ignore: set<EdgeId>)
    requires m.Keys == m1.Keys == g.links.Keys && c in g.links && c !in base && Ranked(g, rank)
    requires Ignores(g, rank, base, ignore, rank(g.links[c].bs) + 1)
    requires m2.Keys == m1.Keys && m2 == m1[c := m2[c]] && WriteUnchanged in m2[c].grant.shared
    requires ChangedBelow(g, g.links[c].bs, m, m1) && AllCompatible(g, m1, base)
    requires Accepts(g, m, g.links[c].bs, m2[c].grant, ignore + {c})
    requires Derived(d, g, m1, g.links[c].bs, Join(m2[c].grant, Cumulative(g, m, g.links[c].bs, ignore + {c})))
    requires SettledBelow(d, g, m1, g.links[c].bs, base)
    ensures AllCompatible(g, m2, base) && SettledFrom(d, g, m2, g.links[c].bs, base)
  {
    var n := g.links[c].bs;
    ParentsNotBelow(g, rank, n);
    CompatibleAssign(g, m1, m2, c, base);
    SameCumulative(g, m, m1, n, ignore + {c});
    CumulativeAssign(g, m1, m2, c, base, ignore + {c});
    NotBelowOwn(g, rank, c);
    forall x | Reach(g, n, x)
      ensures Settled(d, g, m2, x, base)
    {
      if x != n {
        SameCumulative(g, m1, m2, x, base);
      }
    }
  }

  // The first assignment to an edge backs up what it had, later ones do not.
  lemma AssignTracks(g: Topology, c: EdgeId, grant: Grant, m0: Grants, m: Grants, m1: Grants)
    requires c in g.links && m.Keys == g.links.Keys && Tracks(m0, m1) && ChangedUnder(g, c, m, m1)
    ensures var m2 := m1[c := EdgePerm(grant, if m1[c].backup == None then Some(m1[c].grant) else m1[c].backup)];
      Tracks(m0, m2) && ChangedUnder(g, c, m, m2)
  {
  }

  // A node's parent edges are not below it.
  lemma ParentsNotBelow(g: Topology, rank: NodeId -> nat, n: NodeId)
    requires Ranked(g, rank)
    ensures forall e :: e in g.links && g.links[e].bs == n ==> !Below(g, n, e)
  {
    forall e | e in g.links && g.links[e].bs == n
      ensures !Below(g, n, e)
    {
      NotBelowOwn(g, rank, e);
    }
  }

  // Aborting under c brings back the state before the check.
  lemma AbortUndoes(g: Topology, c: EdgeId, m: Grants, m1: Grants, m2: Grants)
    requires forall e :: e in m ==> m[e].backup == None
    requires Tracks(m, m1) && ChangedUnder(g, c, m, m1) && AbortedUnder(g, [c], m1, m2)
    ensures m2 == m
  {
    forall e | e in m
      ensures m2[e] == m[e]
    {
      assert AnyUnder(g, [c], e) <==> Under(g, c, e) by { assert c in [c]; }
    }
  }

  // Committing under c leaves no backup and no other grants than those checked.
  lemma CommitFinal(d: Drivers, g: Topology, c: EdgeId, m: Grants, m1: Grants, m2: Grants)
    requires m.Keys == m1.Keys == g.links.Keys && c in m && AllCompatible(g, m1, {})
    requires forall e :: e in m ==> m[e].backup == None
    requires ChangedUnder(g, c, m, m1) && CommittedUnder(g, [c], m1, m2)
    requires SettledFrom(d, g, m1, g.links[c].bs, {})
    ensures forall e :: e in m ==> m2[e].backup == None && m2[e].grant == m1[e].grant
    ensures ChangedUnder(g, c, m, m2) && AllCompatible(g, m2, {}) && SettledFrom(d, g, m2, g.links[c].bs, {})
  {
    forall e | e in m
      ensures m2[e].backup == None && m2[e].grant == m1[e].grant
      ensures !Under(g, c, e) ==> m2[e] == m[e]
    {
      assert AnyUnder(g, [c], e) <==> Under(g, c, e) by { assert c in [c]; }
    }
    CompatibleSame(g, m1, m2, {});
    SettledSame(d, g, m1, m2, g.links[c].bs, {});
  }

  lemma CompatibleSame(g: Topology, m: Grants, m': Grants, ignore: set<EdgeId>)
    requires m.Keys == m'.Keys == g.links.Keys && AllCompatible(g, m, ignore)
    requires forall e :: e in m ==> m'[e].grant == m[e].grant
    ensures AllCompatible(g, m', ignore)
  {
    forall e | e in g.links && e !in ignore
      ensures UserOk(g, m', e)
    {
      assert UserOk(g, m, e);
    }
  }
}
