// phys_page_set, phys_page_compact and phys_page_find over the growable node
// array of exec.c, updated in place.
module PhysPageMaps {
  import opened PhysPageTable

  class PhysPageMap {
    const f: Fanout       // P_L2_SIZE
    const levels: nat     // P_L2_LEVELS
    var nodes: seq<Node>  // the first nodes_nb nodes
    var nodesAlloc: nat   // nodes_nb_alloc
    var allocHint: nat
    var root: Entry       // phys_map
    ghost var places: seq<Path>

    ghost predicate Valid()
      reads this
    {
      && 1 <= levels
      && WellFormed(f, levels, nodes, places)
      && EntryOk(levels, places, root, [])
      && |nodes| <= nodesAlloc
    }

    // Before address_space_dispatch_compact.
    ghost predicate Building()
      reads this
    {
      Valid() && Uncompressed(nodes) && root.skip <= 1
    }

    // The section number the table gives to a page.
    function Find(page: nat): nat
      reads this
    {
      Walk(nodes, root, Digits(f, levels, page))
    }

    constructor (f: Fanout, levels: nat)
      requires 1 <= levels
      ensures this.f == f && this.levels == levels && nodes == [] && Building()
      ensures forall page: nat :: Find(page) == SECTION_UNASSIGNED
    {
      this.f, this.levels := f, levels;
      nodes, nodesAlloc, allocHint, places := [], 0, 16, [];
      root := Entry(1, NODE_NIL);
    }

    function Get(lp: Slot): Entry
      reads this
    {
      match lp
      case Root => root
      case In(k, j) => EntryAt(nodes, k, j)
    }

    ghost function Now(): Table
      reads this
    {
      Table(nodes, places, root)
    }

    method Put(lp: Slot, e: Entry)
      requires lp.In? ==> lp.node < |nodes| && lp.index < |nodes[lp.node]|
      modifies this`nodes, this`root
      ensures lp.Root? ==> root == e && nodes == old(nodes)
      ensures lp.In? ==> root == old(root) && nodes == old(nodes)[lp.node := old(nodes)[lp.node][lp.index := e]]
    {
      match lp
      case Root => root := e;
      case In(k, j) => nodes := nodes[k := nodes[k][j := e]];
    }

    // phys_map_node_reserve
    method NodeReserve(n: nat)
      modifies this`nodesAlloc, this`allocHint
      ensures |nodes| + n <= nodesAlloc && old(nodesAlloc) <= nodesAlloc
      // it grows only when it must, to the size hinted at or more, which is the next hint
      ensures |nodes| + n <= old(nodesAlloc) ==> nodesAlloc == old(nodesAlloc) && allocHint == old(allocHint)
      ensures |nodes| + n > old(nodesAlloc) ==>
        allocHint == nodesAlloc >= old(allocHint) && (nodesAlloc == old(allocHint) || nodesAlloc == |nodes| + n)
    {
      if |nodes| + n > nodesAlloc {
        nodesAlloc := if allocHint > |nodes| + n then allocHint else |nodes| + n;
        allocHint := nodesAlloc;
      }
    }

    // phys_map_node_alloc; the preconditions are its two asserts.
    method NodeAlloc(leaf: bool, ghost place: Path) returns (ret: nat)
      requires |nodes| != NODE_NIL && |nodes| < nodesAlloc && |places| == |nodes|
      modifies this`nodes, this`places
      ensures ret == |old(nodes)|
      ensures places == old(places) + [place]
      ensures nodes == old(nodes) + [seq(f, _ => if leaf then Entry(0, SECTION_UNASSIGNED) else Entry(1, NODE_NIL))]
    {
      ret := |nodes|;
      var e := Entry(if leaf then 0 else 1, if leaf then SECTION_UNASSIGNED else NODE_NIL);
      var p: Node := [];
      for i := 0 to f
        invariant |p| == i && forall j :: 0 <= j < i ==> p[j] == e
      {
        p := p + [e];
      }
      assert p == seq(f, _ => if leaf then Entry(0, SECTION_UNASSIGNED) else Entry(1, NODE_NIL));
      nodes, places := nodes + [p], places + [place];
    }

    // A first visit to an empty entry gives it a node of empty entries.
    method Open(lp: Slot, level: nat, ghost p: Path, ghost base: nat, ghost start: nat, ghost leaf: nat) returns (k: nat)
      requires Building() && Now().Has(f, lp, p) && |p| + level + 1 == levels && Get(lp).skip == 1
      requires EntryOk(levels, places, Get(lp), p)
      requires Get(lp).ptr == NODE_NIL ==> |nodes| < NODE_NIL && |nodes| < nodesAlloc
      modifies this`nodes, this`places, this`root
      ensures Building() && |nodes| <= |old(nodes)| + 1
      ensures Get(lp).ptr == k && Leads(nodes, places, Get(lp), p)
      ensures FilledThrough(f, level + 1, base, lp, p, old(Now()), Now(), start, start, leaf)
    {
      if Get(lp).ptr == NODE_NIL {
        var n := NodeAlloc(level == 0, p);
        GrowKeeps(f, levels, old(nodes), old(places), nodes[n], p);
        if lp.In? {
          PutKeeps(f, levels, nodes, places, lp.node, lp.index, Entry(1, n));
        }
        Put(lp, Get(lp).(ptr := n));
        EmptyNode(f, level + 1, base, old(nodes), nodes, n, start, leaf);
      }
      k := Get(lp).ptr;
    }

    // Writing one entry, or descending into it: what the loop of
    // phys_page_set_level does at entry j of node k.
    method FillEntry(k: nat, j: nat, start: nat, total: nat, leaf: nat, level: nat, ghost p: Path, ghost base: nat)
        returns (index: nat, nb: nat)
      requires Building() && 0 < total && Now().Has(f, In(k, j), p) && |p| + level == levels
      requires Aligned(f, level, base) && base <= start < base + Span(f, level)
      requires SECTION_UNASSIGNED < leaf < NODE_NIL
      requires Unset(f, level, base, nodes, nodes[k][j], start, start + total)
      requires Whole(base, base + Span(f, level), start, total) || 0 < level
      requires !Whole(base, base + Span(f, level), start, total) ==>
                 |nodes| + NodeCost(level, base, base + Span(f, level), start, total) <= Limit()
      modifies this`nodes, this`places, this`root
      ensures Building() && FilledThrough(f, level, base, In(k, j), p, old(Now()), Now(), start, index, leaf)
      ensures start < index && index + nb == start + total && index <= base + Span(f, level)
      ensures nb == 0 || index == base + Span(f, level)
      ensures if Whole(base, base + Span(f, level), start, total) then |nodes| == |old(nodes)|
              else |nodes| <= |old(nodes)| + NodeCost(level, base, base + Span(f, level), start, total)
      decreases level, 0
    {
      var step := Span(f, level);
      AlignedIsFirst(f, level, base, start);
      if start % step == 0 && total >= step {
        PutKeeps(f, levels, nodes, places, k, j, Entry(0, leaf));
        Put(In(k, j), Entry(0, leaf));
        index, nb := start + step, total - step;
        FilledLeaf(f, level, base, old(nodes), old(nodes)[k][j], nodes, leaf);
      } else {
        index, nb := SetLevel(In(k, j), start, total, leaf, level - 1, p, base);
      }
    }

    // The room for nodes that phys_map_node_alloc asserts.
    ghost function Limit(): nat
      reads this`nodesAlloc
    {
      if nodesAlloc < NODE_NIL then nodesAlloc else NODE_NIL
    }

    // phys_page_set_level: fills what of [start, start + total) lies below lp.
    method SetLevel(lp: Slot, start: nat, total: nat, leaf: nat, level: nat, ghost p: Path, ghost base: nat)
        returns (index: nat, nb: nat)
      requires Building() && 0 < total && Now().Has(f, lp, p) && |p| + level + 1 == levels
      requires Aligned(f, level + 1, base) && base <= start < base + Span(f, level + 1)
      requires SECTION_UNASSIGNED < leaf < NODE_NIL
      requires Unset(f, level + 1, base, nodes, Get(lp), start, start + total)
      requires |nodes| + NodeCost(level + 1, base, base + Span(f, level + 1), start, total) <= Limit()
      modifies this`nodes, this`places, this`root
      ensures Building() && FilledThrough(f, level + 1, base, lp, p, old(Now()), Now(), start, index, leaf)
      ensures |nodes| <= |old(nodes)| + NodeCost(level + 1, base, base + Span(f, level + 1), start, total)
      ensures start < index && index + nb == start + total && index <= base + Span(f, level + 1)
      ensures nb == 0 || index == base + Span(f, level + 1)
      decreases level, 4
    {
      var k := Enter(lp, start, total, leaf, level, p, base);
      ghost var at;
      index, nb, at := Rounds(lp, k, start, total, leaf, level, p, base, old(Now()));
      StageEnd(level + 1, base, base + Span(f, level + 1), Span(f, level), start, total, at, index, nb, |nodes| - |old(nodes)|);
    }

    // The loop of phys_page_set_level over the entries of node k.
    method Rounds(lp: Slot, k: nat, start: nat, total: nat, leaf: nat, level: nat, ghost p: Path, ghost base: nat, ghost t0: Table)
        returns (index: nat, nb: nat, ghost at: nat)
      requires Building() && FilledThrough(f, level + 1, base, lp, p, t0, Now(), start, start, leaf)
      requires Get(lp).ptr == k && Leads(nodes, places, Get(lp), p)
      requires |p| + level + 1 == levels && SECTION_UNASSIGNED < leaf < NODE_NIL
      requires Aligned(f, level + 1, base) && base <= start
      requires Unset(f, level + 1, base, t0.nodes, t0.Get(lp), start, start + total)
      requires |t0.nodes| + NodeCost(level + 1, base, base + Span(f, level + 1), start, total) <= Limit()
      requires Entered(f, level, base, start, total, |nodes| - |t0.nodes|)
      modifies this`nodes, this`places, this`root
      ensures Building() && FilledThrough(f, level + 1, base, lp, p, t0, Now(), start, index, leaf)
      ensures Stage(level + 1, base, base + Span(f, level + 1), Span(f, level), start, total, at, index, nb, |nodes| - |t0.nodes|)
      ensures nb == 0 || at == base + Span(f, level + 1)
      decreases level, 3
    {
      ghost var hi, s := base + Span(f, level + 1), Span(f, level);
      index, nb := start, total;
      var j: nat := Digit(f, index, level);
      at := base + Times(j, s);
      while nb != 0 && j < f
        invariant Building() && FilledThrough(f, level + 1, base, lp, p, t0, Now(), start, index, leaf)
        invariant Get(lp).ptr == k && Leads(nodes, places, Get(lp), p)
        invariant j <= f && at == base + Times(j, s) && (if j < f then at < hi else at == hi)
        invariant Stage(level + 1, base, hi, s, start, total, at, index, nb, |nodes| - |t0.nodes|)
      {
        index, nb, at := Round(lp, k, j, index, nb, leaf, level, p, base, at, start, total, t0);
        j := j + 1;
      }
    }

    // The start of phys_page_set_level: the node to work on, and how far it is.
    method Enter(lp: Slot, start: nat, ghost total: nat, ghost leaf: nat, level: nat, ghost p: Path, ghost base: nat) returns (k: nat)
      requires Building() && 0 < total && Now().Has(f, lp, p) && |p| + level + 1 == levels
      requires Aligned(f, level + 1, base) && base <= start < base + Span(f, level + 1)
      requires Unset(f, level + 1, base, nodes, Get(lp), start, start + total)
      requires |nodes| + NodeCost(level + 1, base, base + Span(f, level + 1), start, total) <= Limit()
      modifies this`nodes, this`places, this`root
      ensures Building() && FilledThrough(f, level + 1, base, lp, p, old(Now()), Now(), start, start, leaf)
      ensures Get(lp).ptr == k && Leads(nodes, places, Get(lp), p)
      ensures Entered(f, level, base, start, total, |nodes| - |old(nodes)|)
    {
      NotLeaf(lp, level, p, base, start, total);
      k := Open(lp, level, p, base, start, leaf);
      StageEntry(f, level, base, start, total, |nodes| - |old(nodes)|);
    }

    // One round of the loop of phys_page_set_level, at entry j of node k.
    method Round(lp: Slot, k: nat, j: nat, mid: nat, left: nat, leaf: nat, level: nat, ghost p: Path,
                 ghost base: nat, ghost at: nat, ghost start: nat, ghost total: nat, ghost t0: Table)
        returns (index: nat, nb: nat, ghost next: nat)
      requires Building() && FilledThrough(f, level + 1, base, lp, p, t0, Now(), start, mid, leaf)
      requires Get(lp).ptr == k && Leads(nodes, places, Get(lp), p) && j < f && 0 < left
      requires |p| + level + 1 == levels && SECTION_UNASSIGNED < leaf < NODE_NIL
      requires Aligned(f, level + 1, base) && base <= start && at == base + Times(j, Span(f, level))
      requires Unset(f, level + 1, base, t0.nodes, t0.Get(lp), start, start + total)
      requires |t0.nodes| + NodeCost(level + 1, base, base + Span(f, level + 1), start, total) <= Limit()
      requires at < base + Span(f, level + 1) &&
               Stage(level + 1, base, base + Span(f, level + 1), Span(f, level), start, total, at, mid, left, |nodes| - |t0.nodes|)
      modifies this`nodes, this`places, this`root
      ensures Building() && FilledThrough(f, level + 1, base, lp, p, t0, Now(), start, index, leaf)
      ensures Get(lp).ptr == k && Leads(nodes, places, Get(lp), p)
      ensures next == base + Times(j + 1, Span(f, level))
      ensures if j + 1 < f then next < base + Span(f, level + 1) else next == base + Span(f, level + 1)
      ensures Stage(level + 1, base, base + Span(f, level + 1), Span(f, level), start, total, next, index, nb, |nodes| - |t0.nodes|)
      decreases level, 2
    {
      ghost var hi, s, used := base + Span(f, level + 1), Span(f, level), |nodes| - |t0.nodes|;
      TimesStep(f, base, j, s);
      next := at + s;
      if !Whole(at, at + s, mid, left) {
        StageCost(level + 1, base, hi, s, start, total, at, mid, left, used);
      }
      index, nb := FillBelow(lp, k, j, mid, left, leaf, level, p, base, at, start, t0);
      StageStep(level + 1, base, hi, s, start, total, at, mid, left, used, index, nb, |nodes| - |t0.nodes|);
    }

    // FillEntry, seen from the entry above the node.
    method FillBelow(lp: Slot, k: nat, j: nat, mid: nat, left: nat, leaf: nat, level: nat, ghost p: Path,
                     ghost base: nat, ghost at: nat, ghost start: nat, ghost t0: Table)
        returns (index: nat, nb: nat)
      requires Building() && FilledThrough(f, level + 1, base, lp, p, t0, Now(), start, mid, leaf)
      requires Get(lp).ptr == k && Leads(nodes, places, Get(lp), p) && j < f && start <= mid && 0 < left
      requires |p| + level + 1 == levels && SECTION_UNASSIGNED < leaf < NODE_NIL
      requires Aligned(f, level + 1, base) && at == base + Times(j, Span(f, level)) && at <= mid < at + Span(f, level)
      requires Unset(f, level + 1, base, t0.nodes, t0.Get(lp), start, mid + left)
      requires Whole(at, at + Span(f, level), mid, left) || 0 < level
      requires !Whole(at, at + Span(f, level), mid, left) ==>
                 |nodes| + NodeCost(level, at, at + Span(f, level), mid, left) <= Limit()
      modifies this`nodes, this`places, this`root
      ensures Building() && FilledThrough(f, level + 1, base, lp, p, t0, Now(), start, index, leaf)
      ensures Get(lp).ptr == k && Leads(nodes, places, Get(lp), p)
      ensures mid < index && index + nb == mid + left && index <= at + Span(f, level)
      ensures nb == 0 || index == at + Span(f, level)
      ensures if Whole(at, at + Span(f, level), mid, left) then |nodes| == |old(nodes)|
              else |nodes| <= |old(nodes)| + NodeCost(level, at, at + Span(f, level), mid, left)
      decreases level, 1
    {
      UnsetChild(f, levels, level + 1, base, nodes, places, Get(lp), p, j, mid, mid + left);
      AlignedChild(f, level + 1, base, j);
      index, nb := FillEntry(k, j, mid, left, leaf, level, p + [j], at);
      ExtendFill(f, levels, level + 1, base, lp, p, t0, old(Now()), Now(), k, j, start, mid, index, leaf);
    }

    lemma NotLeaf(lp: Slot, level: nat, p: Path, base: nat, start: nat, total: nat)
      requires Building() && 0 < total && Now().Has(f, lp, p) && |p| + level + 1 == levels
      requires Aligned(f, level + 1, base) && base <= start < base + Span(f, level + 1)
      requires Unset(f, level + 1, base, nodes, Get(lp), start, start + total)
      ensures Get(lp).skip == 1 && EntryOk(levels, places, Get(lp), p)
    {
      assert lp.In? ==> NodeOk(f, levels, places, nodes[lp.node], places[lp.node]);
      DigitsSpell(f, level + 1, base, start);
      assert Walk(nodes, Get(lp), Digits(f, level + 1, start)) == SECTION_UNASSIGNED;
    }

    // phys_page_set over pages that are not mapped yet.
    method Set(index: nat, nb: nat, leaf: nat)
      requires Building() && 0 < nb && index + nb <= Span(f, levels)
      requires SECTION_UNASSIGNED < leaf < NODE_NIL
      requires forall page :: index <= page < index + nb ==> Find(page) == SECTION_UNASSIGNED
      requires |nodes| + 2 * levels - 1 <= NODE_NIL
      modifies this
      ensures Building() && |nodes| <= |old(nodes)| + 2 * levels - 1
      ensures forall page: nat :: page < Span(f, levels) ==>
                Find(page) == if index <= page < index + nb then leaf else old(Find(page))
    {
      assert Aligned(f, levels, 0) by { assert Times(0, Span(f, levels)) == 0; }
      forall ds: Path | |ds| == levels && AreDigits(f, ds) && index <= Spell(f, ds) < index + nb
        ensures Walk(nodes, root, ds) == SECTION_UNASSIGNED
      {
        DigitsOf(ds);
        assert Find(Spell(f, ds)) == SECTION_UNASSIGNED;
      }
      NodeReserve(3 * levels);
      var index', nb' := SetLevel(Root, index, nb, leaf, levels - 1, [], 0);
      forall page: nat | page < Span(f, levels)
        ensures Find(page) == if index <= page < index + nb then leaf else old(Find(page))
      {
        DigitsSpell(f, levels, 0, page);
      }
    }

    lemma DigitsOf(ds: Path)
      requires |ds| == levels && AreDigits(f, ds)
      ensures Spell(f, ds) < Span(f, levels) && Digits(f, levels, Spell(f, ds)) == ds
    {
      SpellBound(f, ds);
      assert Times(0, Span(f, levels)) == 0;
      DigitsSpell(f, levels, 0, Spell(f, ds));
      DigitsUnique(f, ds, Digits(f, levels, Spell(f, ds)));
    }

    // phys_page_compact
    method Compact(lp: Slot, ghost p: Path)
      requires Valid() && Now().Has(f, lp, p) && |p| < levels
      requires Get(lp).skip == 1 && EntryOk(levels, places, Get(lp), p) && FreshBelow(nodes, places, p)
      modifies this`nodes, this`root
      ensures Valid() && EntryOk(levels, places, Get(lp), p)
      ensures CompactedThrough(f, levels - |p|, lp, p, old(Now()), Now())
      ensures Get(lp).ptr == NODE_NIL <==> old(Get(lp)).ptr == NODE_NIL
      ensures Tight(nodes, Get(lp), levels - |p|)
      decreases levels - |p|, 3
    {
      var k := Get(lp).ptr;
      if k == NODE_NIL {
        return;
      }
      var validPtr, valid := CompactChildren(lp, k, p);
      if valid != 1 {
        return;
      }
      SkipNode(lp, k, validPtr, p, old(Now()));
    }

    // The end of phys_page_compact: node k, which lp leads to, has one entry in use.
    method SkipNode(lp: Slot, k: nat, validPtr: nat, ghost p: Path, ghost t0: Table)
      requires Valid() && Get(lp) == Entry(1, k) == t0.Get(lp) && k != NODE_NIL && EntryOk(levels, places, Get(lp), p)
      requires WellFormed(f, levels, t0.nodes, t0.places) && |p| + 1 < levels && validPtr < f
      requires CompactedThrough(f, levels - |p|, lp, p, t0, Now())
      requires |t0.nodes[k]| == f == |nodes[k]| && nodes[k][validPtr].ptr != NODE_NIL
      requires forall j :: 0 <= j < f && j != validPtr ==> t0.nodes[k][j] == Entry(1, NODE_NIL)
      requires forall j :: 0 <= j < f && j != validPtr ==> nodes[k][j].ptr == NODE_NIL
      requires TightUpTo(nodes, k, f, levels - |p| - 1)
      modifies this`nodes, this`root
      ensures Valid() && EntryOk(levels, places, Get(lp), p) && Get(lp).ptr != NODE_NIL
      ensures CompactedThrough(f, levels - |p|, lp, p, t0, Now())
      ensures Tight(nodes, Get(lp), levels - |p|)
    {
      var c := nodes[k][validPtr];
      assert Tight(nodes, c, levels - |p| - 1);
      if levels >= SKIP_LIMIT && Get(lp).skip + c.skip >= SKIP_LIMIT {
        return;
      }
      SkipFits(k, validPtr, p);
      ReplaceEntry(f, levels, lp, p, t0, Now(), k, validPtr);
      TightJoined(nodes, c, levels - |p|);
      JoinedOk(f, levels, nodes, places, p, k, validPtr);
      TightWith(f, levels, lp, p, Now(), Joined(c), levels - |p|);
      Put(lp, if c.skip == 0 then Entry(0, c.ptr) else Entry(Get(lp).skip + c.skip, c.ptr));
    }

    lemma SkipFits(k: nat, v: nat, p: Path)
      requires Valid() && k < |nodes| && v < f && places[k] == p
      ensures |nodes[k]| == f && |p| + 1 + nodes[k][v].skip <= levels
    {
      assert NodeOk(f, levels, places, nodes[k], places[k]);
      assert EntryOk(levels, places, nodes[k][v], p + [v]);
    }

    // The loop of phys_page_compact over the entries of node k below lp.
    method CompactChildren(lp: Slot, k: nat, ghost p: Path) returns (validPtr: nat, valid: nat)
      requires Valid() && Now().Has(f, lp, p) && |p| < levels
      requires Get(lp) == Entry(1, k) && k != NODE_NIL && EntryOk(levels, places, Get(lp), p) && FreshBelow(nodes, places, p)
      modifies this`nodes, this`root
      ensures Valid() && Get(lp) == Entry(1, k)
      ensures CompactedThrough(f, levels - |p|, lp, p, old(Now()), Now())
      ensures |old(nodes)[k]| == f == |nodes[k]|
      ensures TightUpTo(nodes, k, f, levels - |p| - 1)
      ensures valid != 1 ==> forall v: nat :: !OnlyEntry(nodes[k], v)
      ensures valid == 1 ==>
                && validPtr < f && nodes[k][validPtr].ptr != NODE_NIL && |p| + 1 < levels
                && forall j :: 0 <= j < f && j != validPtr ==>
                     old(nodes)[k][j] == Entry(1, NODE_NIL) && nodes[k][j].ptr == NODE_NIL
      decreases levels - |p|, 2
    {
      ghost var node := nodes[k];
      assert NodeOk(f, levels, places, node, places[k]);
      validPtr, valid := CompactEntries(lp, k, p);
      ChildrenCounted(k, p, node, validPtr, valid);
    }

    method CompactEntries(lp: Slot, k: nat, ghost p: Path) returns (validPtr: nat, valid: nat)
      requires Valid() && Now().Has(f, lp, p) && |p| < levels
      requires Get(lp) == Entry(1, k) && k != NODE_NIL && EntryOk(levels, places, Get(lp), p) && FreshBelow(nodes, places, p)
      modifies this`nodes, this`root
      ensures CompactedBelow(lp, k, p, old(Now()), f)
      ensures valid == InUse(old(nodes)[k], f) && (valid > 0 ==> validPtr < f && old(nodes)[k][validPtr].ptr != NODE_NIL)
      decreases levels - |p|, 1
    {
      NothingDone(f, levels, lp, k, p, Now());
      validPtr, valid := f, 0;
      for i := 0 to f
        invariant CompactedBelow(lp, k, p, old(Now()), i)
        invariant valid == InUse(old(nodes)[k], i) && (valid > 0 ==> validPtr < i && old(nodes)[k][validPtr].ptr != NODE_NIL)
      {
        if nodes[k][i].ptr != NODE_NIL {
          validPtr, valid := i, valid + 1;
        }
        CompactEntry(lp, k, i, p, old(Now()));
      }
    }

    lemma ChildrenCounted(k: nat, p: Path, node: Node, v: nat, valid: nat)
      requires Valid() && k < |nodes| && places[k] == p && |node| == f == |nodes[k]|
      requires NodeOk(f, levels, places, node, p)
      requires forall j :: 0 <= j < f ==> (nodes[k][j].ptr == NODE_NIL <==> node[j].ptr == NODE_NIL)
      requires valid == InUse(node, f) && (valid > 0 ==> v < f && node[v].ptr != NODE_NIL)
      ensures valid != 1 ==> forall v: nat :: !OnlyEntry(nodes[k], v)
      ensures valid == 1 ==> nodes[k][v].ptr != NODE_NIL && |p| + 1 < levels
      ensures valid == 1 ==> forall j :: 0 <= j < f && j != v ==> node[j] == Entry(1, NODE_NIL) && nodes[k][j].ptr == NODE_NIL
    {
      if valid == 1 {
        InUseOne(node, f, v);
        var j := if v == 0 then 1 else 0;
        assert EntryOk(levels, places, node[j], p + [j]);
        forall j | 0 <= j < f && j != v
          ensures node[j] == Entry(1, NODE_NIL)
        {
          assert EntryOk(levels, places, node[j], p + [j]);
        }
      } else {
        InUseOnly(node);
        forall v: nat | OnlyEntry(nodes[k], v)
          ensures OnlyEntry(node, v)
        {
        }
      }
    }

    // The entries of node k before i have been compacted.
    ghost predicate CompactedBelow(lp: Slot, k: nat, p: Path, t0: Table, i: nat)
      reads this
    {
      Valid() && PartlyDone(f, levels, lp, k, p, t0, Now(), i)
    }

    method CompactEntry(lp: Slot, k: nat, i: nat, ghost p: Path, ghost t0: Table)
      requires i < f && k != NODE_NIL && CompactedBelow(lp, k, p, t0, i) && FreshBelow(t0.nodes, t0.places, p)
      modifies this`nodes, this`root
      ensures CompactedBelow(lp, k, p, t0, i + 1)
      decreases levels - |p|, 0
    {
      assert NodeOk(f, levels, places, nodes[k], places[k]);
      if nodes[k][i].ptr != NODE_NIL && nodes[k][i].skip != 0 {
        assert t0.nodes[k][i].skip <= 1;
        Compact(In(k, i), p + [i]);
        EntryDone(f, levels, lp, k, p, t0, old(Now()), Now(), i);
      } else {
        EntryPassed(f, levels, lp, k, p, t0, Now(), i);
      }
    }

    // address_space_dispatch_compact
    method CompactAll()
      requires Building()
      modifies this`nodes, this`root
      ensures Valid() && Mirrors(f, levels, old(nodes), old(root), nodes, root)
      // and nothing is left to compact
      ensures Tight(nodes, root, levels)
    {
      if root.skip != 0 {
        Compact(Root, []);
      }
    }

    // The page had no section in the table (nodes0, root0), and the table now
    // leads it to the section of some other page.
    ghost predicate Strays(page: nat, nodes0: seq<Node>, root0: Entry)
      reads this
    {
      && Walk(nodes0, root0, Digits(f, levels, page)) == SECTION_UNASSIGNED
      && exists other: nat :: other < Span(f, levels) && Walk(nodes0, root0, Digits(f, levels, other)) == Find(page)
    }

    lemma Mirrored(page: nat, nodes0: seq<Node>, root0: Entry)
      requires page < Span(f, levels) && Mirrors(f, levels, nodes0, root0, nodes, root)
      ensures Find(page) == Walk(nodes0, root0, Digits(f, levels, page)) || Strays(page, nodes0, root0)
    {
      assert Times(0, Span(f, levels)) == 0;
      DigitsSpell(f, levels, 0, page);
      if Find(page) != Walk(nodes0, root0, Digits(f, levels, page)) {
        var ds: Path :| |ds| == levels && AreDigits(f, ds) && Walk(nodes0, root0, ds) == Find(page);
        DigitsOf(ds);
      }
    }

    // The loop of phys_page_find.
    method FindLoop(page: nat) returns (s: nat)
      requires Valid()
      ensures s == Find(page)
    {
      var lp, i := root, levels;
      ghost var p: Path := [];
      while lp.skip != 0 && i - lp.skip >= 0
        invariant 0 <= i <= levels && |p| + i == levels && EntryOk(levels, places, lp, p)
        invariant Walk(nodes, lp, Digits(f, i, page)) == Find(page)
        decreases i
      {
        if lp.ptr == NODE_NIL {
          return SECTION_UNASSIGNED;
        }
        WalkSkip(f, nodes, lp, i, page);
        assert NodeOk(f, levels, places, nodes[lp.ptr], places[lp.ptr]);
        i := i - lp.skip;
        p := places[lp.ptr] + [Digit(f, page, i)];
        lp := nodes[lp.ptr][Digit(f, page, i)];
      }
      s := lp.ptr;
    }
  }
}
