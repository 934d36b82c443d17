// The radix table behind physical-memory dispatch, as values: what a walk over
// the nodes finds, which tables are well formed, and what filling a range and
// compacting a path do to the meaning of the table (exec.c, phys_page_*).
module PhysPageTable {
  import opened Arithmetic


  // One PhysPageEntry: `skip` levels to the next node (0 for a leaf) and an
  // index into the sections (leaf) or into the nodes.
  datatype Entry = Entry(skip: nat, ptr: nat)
  type Node = seq<Entry>

  // The digits of a page number from the most significant one, or some first
  // few of them: the place of an entry or of a node in the radix tree.
  type Path = seq<nat>

  type Fanout = f: nat | 2 <= f witness 2

  const NODE_NIL: nat := 0x3ff_ffff   // 26 bits of ones
  const SKIP_LIMIT: nat := 64         // `skip` has 6 bits
  const SECTION_UNASSIGNED: nat := 0

  function EntryAt(nodes: seq<Node>, k: nat, j: nat): Entry {
    if k < |nodes| && j < |nodes[k]| then nodes[k][j] else Entry(0, SECTION_UNASSIGNED)
  }

  // The section number that the loop of phys_page_find reaches from entry e when
  // ds are the digits still to be read.
  function Walk(nodes: seq<Node>, e: Entry, ds: Path): nat
    decreases |ds|
  {
    if e.skip == 0 || |ds| < e.skip then e.ptr
    else if e.ptr == NODE_NIL then SECTION_UNASSIGNED
    else Walk(nodes, EntryAt(nodes, e.ptr, ds[e.skip - 1]), ds[e.skip..])
  }

  ghost predicate AreDigits(f: Fanout, ds: Path) {
    forall i :: 0 <= i < |ds| ==> ds[i] < f
  }

  // ------------------------------------------------------------ well-formedness

  // Entry e at path p respects the places of the nodes: a leaf names a section,
  // an inner entry is empty or leads to a node below p.
  ghost predicate EntryOk(levels: nat, places: seq<Path>, e: Entry, p: Path) {
    && e.skip < SKIP_LIMIT
    && if e.skip == 0 then
         e.ptr != NODE_NIL && (|p| < levels ==> e.ptr != SECTION_UNASSIGNED)
       else
         && |p| + e.skip <= levels
         && if e.ptr == NODE_NIL then e.skip == 1
            else e.ptr < |places| && |places[e.ptr]| == |p| + e.skip - 1 && p <= places[e.ptr]
  }

  ghost predicate NodeOk(f: Fanout, levels: nat, places: seq<Path>, node: Node, place: Path) {
    && |node| == f
    && |place| < levels
    && forall j :: 0 <= j < f ==> EntryOk(levels, places, node[j], place + [j])
  }

  ghost predicate WellFormed(f: Fanout, levels: nat, nodes: seq<Node>, places: seq<Path>) {
    && |nodes| == |places| <= NODE_NIL
    && forall k {:trigger NodeOk(f, levels, places, nodes[k], places[k])} ::
         0 <= k < |nodes| ==> NodeOk(f, levels, places, nodes[k], places[k])
  }

  // No path compression yet: every inner entry skips exactly one level.
  ghost predicate Uncompressed(nodes: seq<Node>) {
    forall k, j :: 0 <= k < |nodes| && 0 <= j < |nodes[k]| ==> nodes[k][j].skip <= 1
  }

  // A walk from the entry at p reads only nodes below p.
  lemma {:induction false} WalkFrame(f: Fanout, levels: nat, nodes: seq<Node>, places: seq<Path>,
                                     nodes': seq<Node>, e: Entry, p: Path, ds: Path)
    requires WellFormed(f, levels, nodes, places) && EntryOk(levels, places, e, p)
    requires |nodes| <= |nodes'| && AreDigits(f, ds)
    requires forall k :: 0 <= k < |nodes| && p <= places[k] ==> nodes'[k] == nodes[k]
    ensures Walk(nodes', e, ds) == Walk(nodes, e, ds)
    decreases |ds|
  {
    if e.skip != 0 && e.skip <= |ds| && e.ptr != NODE_NIL {
      var d := ds[e.skip - 1];
      var c := places[e.ptr] + [d];
      assert NodeOk(f, levels, places, nodes[e.ptr], places[e.ptr]);
      assert p <= c;
      WalkFrame(f, levels, nodes, places, nodes', nodes[e.ptr][d], c, ds[e.skip..]);
    }
  }

  lemma GrowKeeps(f: Fanout, levels: nat, nodes: seq<Node>, places: seq<Path>, node: Node, place: Path)
    requires WellFormed(f, levels, nodes, places) && |nodes| < NODE_NIL
    requires NodeOk(f, levels, places, node, place)
    ensures WellFormed(f, levels, nodes + [node], places + [place])
  {
    forall k | 0 <= k < |nodes| + 1
      ensures NodeOk(f, levels, places + [place], (nodes + [node])[k], (places + [place])[k])
    {
      assert k < |nodes| ==> NodeOk(f, levels, places, nodes[k], places[k]);
    }
  }

  lemma PutKeeps(f: Fanout, levels: nat, nodes: seq<Node>, places: seq<Path>, k: nat, j: nat, e: Entry)
    requires WellFormed(f, levels, nodes, places) && k < |nodes| && j < f
    requires EntryOk(levels, places, e, places[k] + [j])
    ensures |nodes[k]| == f && WellFormed(f, levels, nodes[k := nodes[k][j := e]], places)
  {
    assert NodeOk(f, levels, places, nodes[k], places[k]);
    var nodes' := nodes[k := nodes[k][j := e]];
    forall m | 0 <= m < |nodes'|
      ensures NodeOk(f, levels, places, nodes'[m], places[m])
    {
      assert NodeOk(f, levels, places, nodes[m], places[m]);
    }
  }

  // ---------------------------------------------------------------- page numbers

  // n * s, as repeated addition.
  function Times(n: nat, s: nat): nat {
    if n == 0 then 0 else s + Times(n - 1, s)
  }

  lemma {:induction false} TimesMonotone(a: nat, b: nat, s: nat)
    requires a <= b
    ensures Times(a, s) <= Times(b, s)
    decreases b
  {
    if a < b {
      TimesMonotone(a, b - 1, s);
    }
  }

  // Where the loop over the entries of a node goes from entry j.
  lemma TimesStep(f: Fanout, base: nat, j: nat, s: nat)
    requires j < f && 1 <= s
    ensures base + Times(j + 1, s) == base + Times(j, s) + s
    ensures if j + 1 < f then Times(j, s) + s + s <= Times(f, s) else Times(j, s) + s == Times(f, s)
  {
    TimesMonotone(if j + 1 < f then j + 2 else f, f, s);
  }

  lemma {:induction false} TimesIsProduct(n: nat, s: nat)
    ensures Times(n, s) == n * s
  {
    if n > 0 {
      TimesIsProduct(n - 1, s);
    }
  }

  // Pages below one entry with h levels below it.
  function Span(f: Fanout, h: nat): (s: nat)
    ensures 1 <= s
  {
    if h == 0 then 1 else TimesMonotone(1, f, Span(f, h - 1)); Times(f, Span(f, h - 1))
  }

  // The page that digits spell, counted from the first page of the subtree.
  ghost function Spell(f: Fanout, ds: Path): nat {
    if ds == [] then 0 else Times(ds[0], Span(f, |ds| - 1)) + Spell(f, ds[1..])
  }

  lemma {:induction false} SpellBound(f: Fanout, ds: Path)
    requires AreDigits(f, ds)
    ensures Spell(f, ds) < Span(f, |ds|)
  {
    if ds != [] {
      SpellBound(f, ds[1..]);
      TimesMonotone(ds[0] + 1, f, Span(f, |ds| - 1));
    }
  }

  // Digits that begin differently spell pages below different children.
  lemma OtherRange(f: Fanout, j: nat, ds: Path)
    requires ds != [] && AreDigits(f, ds) && j < f && ds[0] != j
    ensures var s := Span(f, |ds| - 1); !(Times(j, s) <= Spell(f, ds) < Times(j, s) + s)
  {
    var d, s := ds[0], Span(f, |ds| - 1);
    SpellBound(f, ds[1..]);
    if d < j {
      TimesMonotone(d + 1, j, s);
    } else {
      TimesMonotone(j + 1, d, s);
    }
  }

  // (page >> (h * bits per level)) & (fanout - 1)
  function Digit(f: Fanout, page: nat, h: nat): (d: nat)
    ensures d < f
  {
    page / Span(f, h) % f
  }

  // base is a multiple of the pages below an entry of height h.
  ghost predicate Aligned(f: Fanout, h: nat, base: nat) {
    exists m: nat :: base == Times(m, Span(f, h))
  }

  lemma AlignedChild(f: Fanout, h: nat, base: nat, j: nat)
    requires 1 <= h && j < f && Aligned(f, h, base)
    ensures Aligned(f, h - 1, base + Times(j, Span(f, h - 1)))
  {
    var s := Span(f, h - 1);
    var m: nat :| base == Times(m, Span(f, h));
    TimesIsProduct(m, Span(f, h));
    TimesIsProduct(f, s);
    TimesIsProduct(j, s);
    MulAssociates(m, f, s);
    Distribute(m * f, j, s);
    TimesIsProduct(m * f + j, s);
  }

  // `(index & (step - 1)) == 0` holds exactly at the start of a subtree.
  lemma AlignedIsFirst(f: Fanout, h: nat, base: nat, index: nat)
    requires Aligned(f, h, base) && base <= index < base + Span(f, h)
    ensures index % Span(f, h) == 0 <==> index == base
  {
    var m: nat :| base == Times(m, Span(f, h));
    TimesIsProduct(m, Span(f, h));
    QuotientUnique(m, index - base, Span(f, h));
  }

  // The digit of a page of a subtree picks the child it is below.
  lemma DigitChild(f: Fanout, h: nat, base: nat, page: nat)
    requires 1 <= h && Aligned(f, h, base) && base <= page < base + Span(f, h)
    ensures var at := base + Times(Digit(f, page, h - 1), Span(f, h - 1));
            at <= page < at + Span(f, h - 1)
  {
    var s, r := Span(f, h - 1), page - base;
    var m: nat :| base == Times(m, Span(f, h));
    TimesIsProduct(m, Span(f, h));
    TimesIsProduct(f, s);
    DigitOfSum(f, s, m, r);
    SplitRemainder(f, s, r);
    TimesIsProduct(r / s, s);
  }

  lemma DigitOfSum(f: Fanout, s: nat, m: nat, r: nat)
    requires 1 <= s && r < f * s
    ensures (m * (f * s) + r) / s % f == r / s
  {
    SplitRemainder(f, s, r);
    MulAssociates(m, f, s);
    Distribute(m * f, r / s, s);
    QuotientUnique(m * f + r / s, r % s, s);
    QuotientUnique(m, r / s, f);
  }

  lemma SplitRemainder(f: Fanout, s: nat, r: nat)
    requires 1 <= s && r < f * s
    ensures r / s < f && r == r / s * s + r % s
  {
    if f <= r / s {
      MulMonotone(f, r / s, s);
    }
  }

  // The digits that a walk with h levels left reads for a page.
  function Digits(f: Fanout, h: nat, page: nat): (ds: Path)
    ensures |ds| == h
  {
    if h == 0 then [] else [Digit(f, page, h - 1)] + Digits(f, h - 1, page)
  }

  lemma {:induction false} DigitsSpell(f: Fanout, h: nat, base: nat, page: nat)
    requires Aligned(f, h, base) && base <= page < base + Span(f, h)
    ensures AreDigits(f, Digits(f, h, page)) && base + Spell(f, Digits(f, h, page)) == page
    decreases h
  {
    if h > 0 {
      var d := Digit(f, page, h - 1);
      DigitChild(f, h, base, page);
      AlignedChild(f, h, base, d);
      DigitsSpell(f, h - 1, base + Times(d, Span(f, h - 1)), page);
      assert Digits(f, h, page)[1..] == Digits(f, h - 1, page);
    }
  }

  // Skipping n levels leaves the digits of the lower ones.
  lemma {:induction false} DigitsSkip(f: Fanout, h: nat, page: nat, n: nat)
    requires 1 <= n <= h
    ensures Digits(f, h, page)[n - 1] == Digit(f, page, h - n)
    ensures Digits(f, h, page)[n..] == Digits(f, h - n, page)
  {
    var ds := Digits(f, h, page);
    assert ds[1..] == Digits(f, h - 1, page);
    if n > 1 {
      DigitsSkip(f, h - 1, page, n - 1);
      assert ds[n..] == ds[1..][n - 1..];
    }
  }

  // One step of the walk, skipping levels.
  lemma WalkSkip(f: Fanout, nodes: seq<Node>, e: Entry, h: nat, page: nat)
    requires 1 <= e.skip <= h
    ensures Walk(nodes, e, Digits(f, h, page)) ==
      if e.ptr == NODE_NIL then SECTION_UNASSIGNED
      else Walk(nodes, EntryAt(nodes, e.ptr, Digit(f, page, h - e.skip)), Digits(f, h - e.skip, page))
  {
    DigitsSkip(f, h, page, e.skip);
  }

  lemma {:induction false} DigitsUnique(f: Fanout, ds: Path, ds': Path)
    requires |ds| == |ds'| && AreDigits(f, ds) && AreDigits(f, ds') && Spell(f, ds) == Spell(f, ds')
    ensures ds == ds'
  {
    if ds != [] {
      SpellBound(f, ds[1..]);
      if ds[0] != ds'[0] {
        OtherRange(f, ds[0], ds');
      }
      DigitsUnique(f, ds[1..], ds'[1..]);
      assert ds == [ds[0]] + ds[1..] && ds' == [ds'[0]] + ds'[1..];
    }
  }

  // ------------------------------------------------------------ filling a range

  // Going from (nodes, e) to (nodes', e') mapped exactly the pages of [lo, hi)
  // in the subtree, whose first page is base and which has h levels, to `leaf`
  // and kept the meaning of every other page of the subtree.
  ghost predicate Filled(f: Fanout, h: nat, base: nat, nodes: seq<Node>, e: Entry,
                         nodes': seq<Node>, e': Entry, lo: nat, hi: nat, leaf: nat)
  {
    forall ds: Path {:trigger Walk(nodes', e', ds)} {:trigger Walk(nodes, e, ds)} ::
      |ds| == h && AreDigits(f, ds) ==>
      Walk(nodes', e', ds) == if lo <= base + Spell(f, ds) < hi then leaf else Walk(nodes, e, ds)
  }

  ghost predicate Unset(f: Fanout, h: nat, base: nat, nodes: seq<Node>, e: Entry, lo: nat, hi: nat) {
    forall ds: Path {:trigger Walk(nodes, e, ds)} ::
      |ds| == h && AreDigits(f, ds) && lo <= base + Spell(f, ds) < hi ==>
      Walk(nodes, e, ds) == SECTION_UNASSIGNED
  }

  // Nodes other than `except` that do not lie below p are as they were.
  ghost predicate SameOutside(nodes: seq<Node>, places: seq<Path>, nodes': seq<Node>, except: int, p: Path)
    requires |nodes| <= |places|
  {
    && |nodes| <= |nodes'|
    && forall m {:trigger nodes'[m]} ::
         0 <= m < |nodes| && m != except && !(p <= places[m]) ==> nodes'[m] == nodes[m]
  }

  // Entry e leads to the node at p.
  ghost predicate Leads(nodes: seq<Node>, places: seq<Path>, e: Entry, p: Path) {
    e.skip == 1 && e.ptr < |nodes| == |places| && e.ptr != NODE_NIL && places[e.ptr] == p
  }

  // What the pointer `lp` points at: the root entry or an entry of a node.
  datatype Slot = Root | In(node: nat, index: nat)

  // The changing part of the map, with the places of its nodes.
  datatype Table = Table(nodes: seq<Node>, places: seq<Path>, root: Entry) {
    ghost function Get(lp: Slot): Entry {
      match lp
      case Root => root
      case In(k, j) => EntryAt(nodes, k, j)
    }

    ghost function With(lp: Slot, e: Entry): Table
      requires lp.In? ==> lp.node < |nodes| && lp.index < |nodes[lp.node]|
    {
      match lp
      case Root => this.(root := e)
      case In(k, j) => this.(nodes := nodes[k := nodes[k][j := e]])
    }

    ghost predicate Has(f: Fanout, lp: Slot, p: Path) {
      match lp
      case Root => p == []
      case In(k, j) => k < |nodes| <= |places| && j < f == |nodes[k]| && p == places[k] + [j]
    }
  }

  // Going from t to t', only the entry at lp, whose path is p, and nodes below p
  // changed, and that filled exactly the pages [lo, hi) of the subtree at base.
  ghost predicate FilledThrough(f: Fanout, h: nat, base: nat, lp: Slot, p: Path, t: Table, t': Table,
                                lo: nat, hi: nat, leaf: nat)
  {
    && |t.nodes| <= |t.places| && t.places <= t'.places
    && t.Has(f, lp, p)
    && SameOutside(t.nodes, t.places, t'.nodes, if lp.In? then lp.node else -1, p)
    && (lp.In? ==> && t'.root == t.root
                   && t'.nodes[lp.node] == t.nodes[lp.node][lp.index := t'.Get(lp)])
    && Filled(f, h, base, t.nodes, t.Get(lp), t'.nodes, t'.Get(lp), lo, hi, leaf)
  }

  // Work on child j of a node does not show below another child.
  lemma OtherChild(f: Fanout, levels: nat, nodes: seq<Node>, places: seq<Path>, nodes': seq<Node>,
                   k: nat, j: nat, d: nat, ds: Path)
    requires WellFormed(f, levels, nodes, places) && k < |nodes| && j < f && d < f && d != j
    requires SameOutside(nodes, places, nodes', k, places[k] + [j]) && AreDigits(f, ds)
    ensures |nodes[k]| == f && Walk(nodes', nodes[k][d], ds) == Walk(nodes, nodes[k][d], ds)
  {
    var p := places[k];
    assert NodeOk(f, levels, places, nodes[k], p);
    forall m | 0 <= m < |nodes| && p + [d] <= places[m]
      ensures nodes'[m] == nodes[m]
    {
      assert places[m][|p|] == d;
    }
    WalkFrame(f, levels, nodes, places, nodes', nodes[k][d], p + [d], ds);
  }

  // Filling part of child j of a node fills that part of the node.
  lemma FilledChild(f: Fanout, levels: nat, h: nat, base: nat, nodes: seq<Node>, places: seq<Path>, nodes': seq<Node>,
                    e: Entry, p: Path, j: nat, lo: nat, hi: nat, leaf: nat)
    requires WellFormed(f, levels, nodes, places) && Leads(nodes, places, e, p) && 1 <= h && j < f
    requires SameOutside(nodes, places, nodes', e.ptr, p + [j])
    requires |nodes'[e.ptr]| == f == |nodes[e.ptr]| && nodes'[e.ptr] == nodes[e.ptr][j := nodes'[e.ptr][j]]
    requires base + Times(j, Span(f, h - 1)) <= lo && hi <= base + Times(j, Span(f, h - 1)) + Span(f, h - 1)
    requires Filled(f, h - 1, base + Times(j, Span(f, h - 1)), nodes, nodes[e.ptr][j], nodes', nodes'[e.ptr][j], lo, hi, leaf)
    ensures Filled(f, h, base, nodes, e, nodes', e, lo, hi, leaf)
  {
    forall ds: Path | |ds| == h && AreDigits(f, ds)
      ensures Walk(nodes', e, ds) == if lo <= base + Spell(f, ds) < hi then leaf else Walk(nodes, e, ds)
    {
      if ds[0] != j {
        OtherChild(f, levels, nodes, places, nodes', e.ptr, j, ds[0], ds[1..]);
        OtherRange(f, j, ds);
      }
    }
  }

  // Work on child j of the node below lp extends a fill of [start, mid) to one
  // of [start, hi).
  lemma ExtendFill(f: Fanout, levels: nat, h: nat, base: nat, lp: Slot, p: Path, t0: Table, t: Table, t': Table,
                   k: nat, j: nat, start: nat, mid: nat, hi: nat, leaf: nat)
    requires WellFormed(f, levels, t.nodes, t.places) && 1 <= h && j < f && start <= mid <= hi
    requires FilledThrough(f, h, base, lp, p, t0, t, start, mid, leaf)
    requires t.Get(lp).ptr == k && Leads(t.nodes, t.places, t.Get(lp), p)
    requires base + Times(j, Span(f, h - 1)) <= mid && hi <= base + Times(j, Span(f, h - 1)) + Span(f, h - 1)
    requires FilledThrough(f, h - 1, base + Times(j, Span(f, h - 1)), In(k, j), p + [j], t, t', mid, hi, leaf)
    ensures FilledThrough(f, h, base, lp, p, t0, t', start, hi, leaf)
    ensures t'.Get(lp) == t.Get(lp)
  {
    if lp.In? {
      assert |t.places[lp.node]| < |p|;
      assert t'.nodes[lp.node] == t.nodes[lp.node];
    }
    var e := t.Get(lp);
    FilledChild(f, levels, h, base, t.nodes, t.places, t'.nodes, e, p, j, mid, hi, leaf);
    forall ds: Path | |ds| == h && AreDigits(f, ds)
      ensures Walk(t'.nodes, e, ds) ==
              if start <= base + Spell(f, ds) < hi then leaf else Walk(t0.nodes, t0.Get(lp), ds)
    {
      assert Walk(t.nodes, e, ds) ==
             if start <= base + Spell(f, ds) < mid then leaf else Walk(t0.nodes, t0.Get(lp), ds);
    }
  }

  // A whole subtree is filled by a leaf.
  lemma FilledLeaf(f: Fanout, h: nat, base: nat, nodes: seq<Node>, e: Entry, nodes': seq<Node>, leaf: nat)
    ensures Filled(f, h, base, nodes, e, nodes', Entry(0, leaf), base, base + Span(f, h), leaf)
  {
    forall ds: Path | |ds| == h && AreDigits(f, ds)
      ensures Spell(f, ds) < Span(f, h)
    {
      SpellBound(f, ds);
    }
  }

  // A node of empty entries maps nothing.
  lemma EmptyNode(f: Fanout, h: nat, base: nat, nodes: seq<Node>, nodes': seq<Node>, n: nat, lo: nat, leaf: nat)
    requires 1 <= h && n < |nodes'| && n != NODE_NIL
    requires nodes'[n] == seq(f, _ => if h == 1 then Entry(0, SECTION_UNASSIGNED) else Entry(1, NODE_NIL))
    ensures Filled(f, h, base, nodes, Entry(1, NODE_NIL), nodes', Entry(1, n), lo, lo, leaf)
  {
  }

  lemma UnsetChild(f: Fanout, levels: nat, h: nat, base: nat, nodes: seq<Node>, places: seq<Path>,
                   e: Entry, p: Path, j: nat, lo: nat, hi: nat)
    requires WellFormed(f, levels, nodes, places) && Leads(nodes, places, e, p) && j < f && 1 <= h
    requires Unset(f, h, base, nodes, e, lo, hi)
    ensures |nodes[e.ptr]| == f
    ensures Unset(f, h - 1, base + Times(j, Span(f, h - 1)), nodes, nodes[e.ptr][j], lo, hi)
  {
    assert NodeOk(f, levels, places, nodes[e.ptr], places[e.ptr]);
    var at := base + Times(j, Span(f, h - 1));
    forall ds: Path | 1 + |ds| == h && AreDigits(f, ds) && lo <= at + Spell(f, ds) < hi
      ensures Walk(nodes, nodes[e.ptr][j], ds) == SECTION_UNASSIGNED
    {
      var all := [j] + ds;
      assert all[1..] == ds;
      assert Walk(nodes, e, all) == SECTION_UNASSIGNED;
    }
  }

  // How many nodes phys_page_set_level may allocate for an inner entry with h
  // levels below it, covering [lo, hi): one per level when the range starts or
  // ends with the subtree, else one for each level on each flank.
  ghost function NodeCost(h: nat, lo: nat, hi: nat, index: nat, nb: nat): nat
    requires 1 <= h
  {
    if index == lo || hi <= index + nb then h else 2 * h - 1
  }

  // Where the loop over the entries of a node stands: the node has height h and
  // covers [lo, hi), its entries span s pages each; the current one, if any is
  // left, starts at page `at`; nb pages are left from `index` on and `used`
  // nodes have been allocated.
  ghost predicate Stage(h: nat, lo: nat, hi: nat, s: nat, start: nat, total: nat,
                        at: nat, index: nat, nb: nat, used: int)
    requires 1 <= h
  {
    && start <= index <= hi && index + nb == start + total && lo <= at <= hi
    && (index == start ==> nb != 0 && at < hi)
    && (nb != 0 ==> if at < hi then at <= index < at + s <= hi else index == hi)
    && (if nb == 0 then used <= NodeCost(h, lo, hi, start, total)
        else if index == start then used <= 1
        else index == at && used <= if start == lo then 1 else h)
  }

  // The range from `index` on holds the whole of [lo, hi): phys_page_set_level
  // writes such an entry directly instead of descending.
  ghost predicate Whole(lo: nat, hi: nat, index: nat, nb: nat) {
    index == lo && hi <= index + nb
  }

  // The nodes that one round may allocate fit in the budget of the whole node.
  lemma StageCost(h: nat, lo: nat, hi: nat, s: nat, start: nat, total: nat,
                  at: nat, index: nat, nb: nat, used: nat)
    requires 1 <= h && lo <= start
    requires Stage(h, lo, hi, s, start, total, at, index, nb, used) && nb != 0 && at < hi
    requires !Whole(at, at + s, index, nb)
    ensures 1 < h ==> used + NodeCost(h - 1, at, at + s, index, nb) <= NodeCost(h, lo, hi, start, total)
  {
  }

  // The loop over the entries is over.
  lemma StageEnd(h: nat, lo: nat, hi: nat, s: nat, start: nat, total: nat, at: nat, index: nat, nb: nat, used: int)
    requires 1 <= h && lo <= start && Stage(h, lo, hi, s, start, total, at, index, nb, used) && (nb == 0 || at == hi)
    ensures used <= NodeCost(h, lo, hi, start, total)
    ensures start < index <= hi && index + nb == start + total && (nb == 0 || index == hi)
  {
  }

  // One round takes the pages of the current entry that are left to fill.
  lemma StageStep(h: nat, lo: nat, hi: nat, s: nat, start: nat, total: nat,
                  at: nat, index: nat, nb: nat, used: nat, index': nat, nb': nat, used': nat)
    requires 1 <= h && lo <= start && 1 <= s
    requires Stage(h, lo, hi, s, start, total, at, index, nb, used) && nb != 0 && at < hi
    requires at + s == hi || at + s + s <= hi
    requires index < index' <= at + s && index' + nb' == index + nb && (nb' == 0 || index' == at + s)
    requires if Whole(at, at + s, index, nb) then used' == used
             else 1 < h && used' <= used + NodeCost(h - 1, at, at + s, index, nb)
    ensures Stage(h, lo, hi, s, start, total, at + s, index', nb', used')
  {
  }

  // The loop is about to begin, at the entry that leads to page `start`.
  ghost predicate Entered(f: Fanout, level: nat, base: nat, start: nat, total: nat, used: int) {
    var at := base + Times(Digit(f, start, level), Span(f, level));
    && Digit(f, start, level) < f && at < base + Span(f, level + 1)
    && Stage(level + 1, base, base + Span(f, level + 1), Span(f, level), start, total, at, start, total, used)
  }

  lemma StageEntry(f: Fanout, level: nat, base: nat, start: nat, total: nat, used: nat)
    requires Aligned(f, level + 1, base) && base <= start < base + Span(f, level + 1) && 0 < total && used <= 1
    ensures Entered(f, level, base, start, total, used)
  {
    DigitChild(f, level + 1, base, start);
    TimesStep(f, base, Digit(f, start, level), Span(f, level));
  }

  // ------------------------------------------------------------ compacting

  // Some page of a subtree with h levels below entry e is mapped to section s.
  ghost predicate Occurs(f: Fanout, h: nat, nodes: seq<Node>, e: Entry, s: nat) {
    exists ds: Path :: |ds| == h && AreDigits(f, ds) && Walk(nodes, e, ds) == s
  }

  // Where the walk of (nodes', e') differs from that of (nodes, e), the latter
  // finds nothing and the former strays to a section mapped elsewhere below e.
  ghost predicate Mirrors(f: Fanout, h: nat, nodes: seq<Node>, e: Entry, nodes': seq<Node>, e': Entry) {
    forall ds: Path {:trigger Walk(nodes', e', ds)} {:trigger Walk(nodes, e, ds)} ::
      |ds| == h && AreDigits(f, ds) ==>
      || Walk(nodes', e', ds) == Walk(nodes, e, ds)
      || (Walk(nodes, e, ds) == SECTION_UNASSIGNED && Occurs(f, h, nodes, e, Walk(nodes', e', ds)))
  }

  // Digits that begin with i or more are walked as before.
  ghost predicate UntouchedFrom(f: Fanout, h: nat, nodes: seq<Node>, nodes': seq<Node>, e: Entry, i: nat)
    requires 1 <= h
  {
    forall ds: Path {:trigger Walk(nodes', e, ds)} {:trigger Walk(nodes, e, ds)} ::
      |ds| == h && AreDigits(f, ds) && i <= ds[0] ==> Walk(nodes', e, ds) == Walk(nodes, e, ds)
  }

  // Going from t to t' compacted through lp: see FilledThrough.
  ghost predicate CompactedThrough(f: Fanout, h: nat, lp: Slot, p: Path, t: Table, t': Table) {
    && |t.nodes| == |t'.nodes| <= |t.places| && t.places == t'.places
    && t.Has(f, lp, p)
    && SameOutside(t.nodes, t.places, t'.nodes, if lp.In? then lp.node else -1, p)
    && (lp.In? ==> && t'.root == t.root
                   && t'.nodes[lp.node] == t.nodes[lp.node][lp.index := t'.Get(lp)])
    && Mirrors(f, h, t.nodes, t.Get(lp), t'.nodes, t'.Get(lp))
  }

  // Entry v is the only one of the node that is in use.
  ghost predicate OnlyEntry(node: Node, v: nat) {
    v < |node| && node[v].ptr != NODE_NIL && forall j :: 0 <= j < |node| && j != v ==> node[j].ptr == NODE_NIL
  }

  // Nothing is left to compact h levels from e down: no entry leads to a node with one entry
  // in use, unless it cannot skip that many levels.
  ghost predicate Tight(nodes: seq<Node>, e: Entry, h: nat)
    decreases h
  {
    e.skip != 0 && e.ptr < |nodes| && e.ptr != NODE_NIL && e.skip <= h ==>
      var node := nodes[e.ptr];
      && (forall v: nat {:trigger OnlyEntry(node, v)} :: OnlyEntry(node, v) ==> e.skip + node[v].skip >= SKIP_LIMIT)
      && forall i :: 0 <= i < |node| ==> Tight(nodes, node[i], h - e.skip)
  }

  lemma {:induction false} TightFrame(f: Fanout, levels: nat, nodes: seq<Node>, places: seq<Path>,
                                      nodes': seq<Node>, e: Entry, p: Path, h: nat)
    requires WellFormed(f, levels, nodes, places) && EntryOk(levels, places, e, p) && |nodes| == |nodes'|
    requires forall k :: 0 <= k < |nodes| && p <= places[k] ==> nodes'[k] == nodes[k]
    requires Tight(nodes, e, h)
    ensures Tight(nodes', e, h)
    decreases h
  {
    if e.skip != 0 && e.ptr < |nodes| && e.ptr != NODE_NIL && e.skip <= h {
      var node := nodes[e.ptr];
      assert NodeOk(f, levels, places, node, places[e.ptr]);
      forall i | 0 <= i < |node|
        ensures Tight(nodes', node[i], h - e.skip)
      {
        var c := places[e.ptr] + [i];
        assert p <= c;
        TightFrame(f, levels, nodes, places, nodes', node[i], c, h - e.skip);
      }
    }
  }

  // Compacting child i leaves the other children as they are.
  lemma TightOther(f: Fanout, levels: nat, nodes: seq<Node>, places: seq<Path>, nodes': seq<Node>, k: nat, i: nat, j: nat, h: nat)
    requires WellFormed(f, levels, nodes, places) && |nodes| == |nodes'| && k < |nodes| && i != j && j < f == |nodes[k]|
    requires SameOutside(nodes, places, nodes', k, places[k] + [i])
    requires Tight(nodes, nodes[k][j], h)
    ensures Tight(nodes', nodes[k][j], h)
  {
    assert NodeOk(f, levels, places, nodes[k], places[k]);
    forall m | 0 <= m < |nodes| && places[k] + [j] <= places[m]
      ensures nodes'[m] == nodes[m]
    {
      assert places[m][|places[k]|] == j;
    }
    TightFrame(f, levels, nodes, places, nodes', nodes[k][j], places[k] + [j], h);
  }

  // The first i entries of node k are tight.
  ghost predicate TightUpTo(nodes: seq<Node>, k: nat, i: nat, h: nat)
    requires k < |nodes|
  {
    forall j {:trigger Tight(nodes, nodes[k][j], h)} :: 0 <= j < i && j < |nodes[k]| ==> Tight(nodes, nodes[k][j], h)
  }

  lemma TightExtend(f: Fanout, levels: nat, nodes: seq<Node>, places: seq<Path>, nodes': seq<Node>, k: nat, i: nat, h: nat)
    requires WellFormed(f, levels, nodes, places) && |nodes| == |nodes'| && k < |nodes| && i < f == |nodes[k]| == |nodes'[k]|
    requires SameOutside(nodes, places, nodes', k, places[k] + [i]) && nodes'[k] == nodes[k][i := nodes'[k][i]]
    requires TightUpTo(nodes, k, i, h) && Tight(nodes', nodes'[k][i], h)
    ensures TightUpTo(nodes', k, i + 1, h)
  {
    forall j | 0 <= j < i + 1 && j < |nodes'[k]|
      ensures Tight(nodes', nodes'[k][j], h)
    {
      if j < i {
        assert Tight(nodes, nodes[k][j], h);
        TightOther(f, levels, nodes, places, nodes', k, i, j, h);
      }
    }
  }

  // The entry that skips a node is tight if the entry of that node was.
  lemma TightJoined(nodes: seq<Node>, c: Entry, h: nat)
    requires 1 <= h && Tight(nodes, c, h - 1)
    ensures Tight(nodes, Joined(c), h)
  {
    if c.skip != 0 && c.ptr < |nodes| && c.ptr != NODE_NIL && c.skip <= h - 1 {
      assert h - 1 - c.skip == h - (1 + c.skip);
    }
  }

  // Writing a tight entry at lp, whose path is p, keeps it tight.
  lemma TightWith(f: Fanout, levels: nat, lp: Slot, p: Path, t: Table, e: Entry, h: nat)
    requires WellFormed(f, levels, t.nodes, t.places) && t.Has(f, lp, p) && EntryOk(levels, t.places, e, p)
    requires Tight(t.nodes, e, h)
    ensures Tight(t.With(lp, e).nodes, e, h)
  {
    if lp.In? {
      assert |t.places[lp.node]| < |p|;
      TightFrame(f, levels, t.nodes, t.places, t.With(lp, e).nodes, e, p, h);
    }
  }

  // The nodes below p have not been compacted.
  ghost predicate FreshBelow(nodes: seq<Node>, places: seq<Path>, p: Path)
    requires |nodes| <= |places|
  {
    forall k, j :: 0 <= k < |nodes| && p <= places[k] && 0 <= j < |nodes[k]| ==> nodes[k][j].skip <= 1
  }

  lemma FreshOther(nodes: seq<Node>, places: seq<Path>, nodes': seq<Node>, k: nat, i: nat, j: nat)
    requires |nodes| == |nodes'| <= |places| && k < |nodes| && i != j
    requires SameOutside(nodes, places, nodes', k, places[k] + [i])
    requires FreshBelow(nodes, places, places[k] + [j])
    ensures FreshBelow(nodes', places, places[k] + [j])
  {
    forall m | 0 <= m < |nodes| && places[k] + [j] <= places[m]
      ensures nodes'[m] == nodes[m]
    {
      assert places[m][|places[k]|] == j;
    }
  }

  // Compacting child i of a node after its children below i.
  lemma MirrorsChild(f: Fanout, levels: nat, h: nat, t0: Table, t: Table, t': Table, k: nat, i: nat)
    requires WellFormed(f, levels, t.nodes, t.places) && 1 <= h && i < f
    requires k < |t.nodes| && k != NODE_NIL
    requires Mirrors(f, h, t0.nodes, Entry(1, k), t.nodes, Entry(1, k))
    requires UntouchedFrom(f, h, t0.nodes, t.nodes, Entry(1, k), i)
    requires CompactedThrough(f, h - 1, In(k, i), t.places[k] + [i], t, t')
    ensures Mirrors(f, h, t0.nodes, Entry(1, k), t'.nodes, Entry(1, k))
    ensures UntouchedFrom(f, h, t0.nodes, t'.nodes, Entry(1, k), i + 1)
  {
    var e := Entry(1, k);
    forall ds: Path | |ds| == h && AreDigits(f, ds)
      ensures ds[0] != i ==> Walk(t'.nodes, e, ds) == Walk(t.nodes, e, ds)
      ensures ds[0] == i && Walk(t'.nodes, e, ds) != Walk(t0.nodes, e, ds) ==>
                Walk(t0.nodes, e, ds) == SECTION_UNASSIGNED && Occurs(f, h, t0.nodes, e, Walk(t'.nodes, e, ds))
    {
      if ds[0] != i {
        OtherChild(f, levels, t.nodes, t.places, t'.nodes, k, i, ds[0], ds[1..]);
      } else if Walk(t'.nodes, e, ds) != Walk(t0.nodes, e, ds) {
        var s := Walk(t'.nodes, t'.nodes[k][i], ds[1..]);
        assert Walk(t.nodes, e, ds) == Walk(t.nodes, t.nodes[k][i], ds[1..]);
        OccursAbove(f, h, t.nodes, e, i, s);
        var ds': Path :| |ds'| == h && AreDigits(f, ds') && ds'[0] == i && Walk(t.nodes, e, ds') == s;
        assert Walk(t0.nodes, e, ds') == s;
      }
    }
  }

  // Seen from the entry above the node: see ExtendFill.
  lemma ExtendCompact(f: Fanout, levels: nat, h: nat, lp: Slot, p: Path, t0: Table, t: Table, t': Table, k: nat, i: nat)
    requires WellFormed(f, levels, t.nodes, t.places) && 1 <= h && i < f
    requires k < |t.nodes| && k != NODE_NIL && t.places[k] == p
    requires t0.Get(lp) == t.Get(lp) == Entry(1, k) && CompactedThrough(f, h, lp, p, t0, t)
    requires UntouchedFrom(f, h, t0.nodes, t.nodes, Entry(1, k), i)
    requires CompactedThrough(f, h - 1, In(k, i), p + [i], t, t')
    ensures t'.Get(lp) == Entry(1, k) && CompactedThrough(f, h, lp, p, t0, t')
    ensures UntouchedFrom(f, h, t0.nodes, t'.nodes, Entry(1, k), i + 1)
  {
    if lp.In? {
      assert |t.places[lp.node]| < |p|;
      assert t'.nodes[lp.node] == t.nodes[lp.node];
    }
    MirrorsChild(f, levels, h, t0, t, t', k, i);
  }

  lemma OccursAbove(f: Fanout, h: nat, nodes: seq<Node>, e: Entry, i: nat, s: nat)
    requires 1 <= h && e.skip == 1 && e.ptr < |nodes| && e.ptr != NODE_NIL && i < f == |nodes[e.ptr]|
    requires Occurs(f, h - 1, nodes, nodes[e.ptr][i], s)
    ensures exists ds: Path :: |ds| == h && AreDigits(f, ds) && ds[0] == i && Walk(nodes, e, ds) == s
  {
    var rest: Path :| |rest| == h - 1 && AreDigits(f, rest) && Walk(nodes, nodes[e.ptr][i], rest) == s;
    var ds := [i] + rest;
    assert ds[1..] == rest;
    assert Walk(nodes, e, ds) == s;
  }

  // phys_page_compact is at entry i of node k, which lp leads to: the entries before it are
  // done, those from it on have not been touched.
  ghost predicate PartlyDone(f: Fanout, levels: nat, lp: Slot, k: nat, p: Path, t0: Table, t: Table, i: nat) {
    && |p| < levels && k < |t.nodes| == |t.places| && k < |t0.nodes| && t.places[k] == p
    && t0.Get(lp) == t.Get(lp) == Entry(1, k) && |t.nodes[k]| == f == |t0.nodes[k]|
    && CompactedThrough(f, levels - |p|, lp, p, t0, t)
    && UntouchedFrom(f, levels - |p|, t0.nodes, t.nodes, Entry(1, k), i)
    && (forall j :: i <= j < f ==> t.nodes[k][j] == t0.nodes[k][j] && FreshBelow(t.nodes, t.places, p + [j]))
    && (forall j :: 0 <= j < f ==> (t.nodes[k][j].ptr == NODE_NIL <==> t0.nodes[k][j].ptr == NODE_NIL))
    && TightUpTo(t.nodes, k, i, levels - |p| - 1)
  }

  lemma NothingDone(f: Fanout, levels: nat, lp: Slot, k: nat, p: Path, t: Table)
    requires WellFormed(f, levels, t.nodes, t.places) && t.Has(f, lp, p) && |p| < levels
    requires t.Get(lp) == Entry(1, k) && k < |t.nodes| && t.places[k] == p && FreshBelow(t.nodes, t.places, p)
    ensures PartlyDone(f, levels, lp, k, p, t, t, 0)
  {
    assert NodeOk(f, levels, t.places, t.nodes[k], t.places[k]);
    forall j, m, i | 0 <= j < f && 0 <= m < |t.nodes| && p + [j] <= t.places[m] && 0 <= i < |t.nodes[m]|
      ensures t.nodes[m][i].skip <= 1
    {
      assert p <= t.places[m];
    }
  }

  lemma EntryDone(f: Fanout, levels: nat, lp: Slot, k: nat, p: Path, t0: Table, t: Table, t': Table, i: nat)
    requires WellFormed(f, levels, t.nodes, t.places) && i < f && k != NODE_NIL && PartlyDone(f, levels, lp, k, p, t0, t, i)
    requires CompactedThrough(f, levels - |p| - 1, In(k, i), p + [i], t, t') && |t'.nodes| == |t'.places|
    requires t'.nodes[k][i].ptr == NODE_NIL <==> t.nodes[k][i].ptr == NODE_NIL
    requires Tight(t'.nodes, t'.nodes[k][i], levels - |p| - 1)
    ensures PartlyDone(f, levels, lp, k, p, t0, t', i + 1)
  {
    TightExtend(f, levels, t.nodes, t.places, t'.nodes, k, i, levels - |p| - 1);
    ExtendCompact(f, levels, levels - |p|, lp, p, t0, t, t', k, i);
    forall j: nat | i < j < f
      ensures FreshBelow(t'.nodes, t'.places, p + [j])
    {
      FreshOther(t.nodes, t.places, t'.nodes, k, i, j);
    }
  }

  lemma EntryPassed(f: Fanout, levels: nat, lp: Slot, k: nat, p: Path, t0: Table, t: Table, i: nat)
    requires i < f && PartlyDone(f, levels, lp, k, p, t0, t, i)
    requires t.nodes[k][i].ptr == NODE_NIL || t.nodes[k][i].skip == 0
    ensures PartlyDone(f, levels, lp, k, p, t0, t, i + 1)
  {
  }

  // How many of the first i entries are in use.
  ghost function InUse(node: Node, i: nat): nat
    requires i <= |node|
  {
    if i == 0 then 0 else InUse(node, i - 1) + if node[i - 1].ptr != NODE_NIL then 1 else 0
  }

  lemma {:induction false} InUseNone(node: Node, i: nat)
    requires i <= |node|
    ensures InUse(node, i) == 0 <==> forall j :: 0 <= j < i ==> node[j].ptr == NODE_NIL
  {
    if i > 0 {
      InUseNone(node, i - 1);
    }
  }

  // One entry is in use, and that is v, exactly if the count is one.
  lemma {:induction false} InUseOne(node: Node, i: nat, v: nat)
    requires v < i <= |node| && node[v].ptr != NODE_NIL
    ensures InUse(node, i) >= 1
    ensures InUse(node, i) == 1 <==> forall j :: 0 <= j < i && j != v ==> node[j].ptr == NODE_NIL
  {
    if v == i - 1 {
      InUseNone(node, i - 1);
    } else {
      InUseOne(node, i - 1, v);
    }
  }

  lemma InUseOnly(node: Node)
    ensures InUse(node, |node|) != 1 ==> forall v: nat :: !OnlyEntry(node, v)
  {
    forall v: nat | OnlyEntry(node, v)
      ensures InUse(node, |node|) == 1
    {
      InUseOne(node, |node|, v);
    }
  }

  // The entry that replaces one whose node has a single child entry c.
  function Joined(c: Entry): Entry {
    if c.skip == 0 then Entry(0, c.ptr) else Entry(1 + c.skip, c.ptr)
  }

  // Skipping a node whose only entry in use is v.
  lemma MirrorsJoined(f: Fanout, levels: nat, h: nat, nodes0: seq<Node>, nodes: seq<Node>, places: seq<Path>, k: nat, v: nat)
    requires WellFormed(f, levels, nodes, places) && k < |nodes| && |places[k]| + h == levels && v < f
    requires k < |nodes0| && |nodes0[k]| == f && k != NODE_NIL && 1 <= h
    requires Mirrors(f, h, nodes0, Entry(1, k), nodes, Entry(1, k))
    requires forall j :: 0 <= j < f && j != v ==> nodes0[k][j] == Entry(1, NODE_NIL) && 1 < h
    requires |nodes[k]| == f && nodes[k][v].ptr != NODE_NIL
    ensures Mirrors(f, h, nodes0, Entry(1, k), nodes, Joined(nodes[k][v]))
  {
    var e, c := Entry(1, k), nodes[k][v];
    assert NodeOk(f, levels, places, nodes[k], places[k]);
    forall ds: Path | |ds| == h && AreDigits(f, ds)
      ensures Walk(nodes, Joined(c), ds) == Walk(nodes, e, [v] + ds[1..])
    {
      assert ([v] + ds[1..])[1..] == ds[1..];
      if c.skip != 0 {
        assert ds[1..][c.skip..] == ds[1 + c.skip..];
      }
    }
    forall ds: Path | |ds| == h && AreDigits(f, ds)
      ensures || Walk(nodes, Joined(c), ds) == Walk(nodes0, e, ds)
              || (Walk(nodes0, e, ds) == SECTION_UNASSIGNED && Occurs(f, h, nodes0, e, Walk(nodes, Joined(c), ds)))
    {
      var ds' := [v] + ds[1..];
      assert Occurs(f, h, nodes0, e, Walk(nodes, e, ds'));
      if ds[0] == v {
        assert ds' == ds;
      } else {
        assert nodes0[k][ds[0]] == Entry(1, NODE_NIL);
      }
    }
  }

  // The joined entry fits where the entry above the node was.
  lemma JoinedOk(f: Fanout, levels: nat, nodes: seq<Node>, places: seq<Path>, p: Path, k: nat, v: nat)
    requires WellFormed(f, levels, nodes, places) && k < |nodes| && places[k] == p && v < f
    requires |nodes[k]| == f && nodes[k][v].ptr != NODE_NIL && |p| + 1 < levels
    requires Joined(nodes[k][v]).skip < SKIP_LIMIT
    ensures EntryOk(levels, places, Joined(nodes[k][v]), p)
  {
    assert NodeOk(f, levels, places, nodes[k], places[k]);
    assert EntryOk(levels, places, nodes[k][v], p + [v]);
    assert p <= p + [v];
  }

  lemma MirrorsFrame(f: Fanout, levels: nat, h: nat, nodes0: seq<Node>, e0: Entry, nodes: seq<Node>, places: seq<Path>,
                     nodes': seq<Node>, e: Entry, p: Path)
    requires WellFormed(f, levels, nodes, places) && EntryOk(levels, places, e, p) && |nodes| <= |nodes'|
    requires forall k :: 0 <= k < |nodes| && p <= places[k] ==> nodes'[k] == nodes[k]
    requires Mirrors(f, h, nodes0, e0, nodes, e)
    ensures Mirrors(f, h, nodes0, e0, nodes', e)
  {
    forall ds: Path | |ds| == h && AreDigits(f, ds)
      ensures Walk(nodes', e, ds) == Walk(nodes, e, ds)
    {
      WalkFrame(f, levels, nodes, places, nodes', e, p, ds);
    }
  }

  // phys_page_compact replaces its entry by the joined one.
  lemma ReplaceEntry(f: Fanout, levels: nat, lp: Slot, p: Path, t0: Table, t: Table, k: nat, v: nat)
    requires |p| + 1 < levels && CompactedThrough(f, levels - |p|, lp, p, t0, t)
    requires WellFormed(f, levels, t0.nodes, t0.places) && WellFormed(f, levels, t.nodes, t.places)
    requires t0.Get(lp) == t.Get(lp) == Entry(1, k) && k != NODE_NIL && k < |t.nodes| && t.places[k] == p && v < f
    requires |t.nodes[k]| == f == |t0.nodes[k]| && t.nodes[k][v].ptr != NODE_NIL
    requires forall j :: 0 <= j < f && j != v ==> t0.nodes[k][j] == Entry(1, NODE_NIL)
    requires Joined(t.nodes[k][v]).skip < SKIP_LIMIT
    ensures lp.In? ==> lp.node < |t.nodes| && lp.index < |t.nodes[lp.node]|
    ensures var t' := t.With(lp, Joined(t.nodes[k][v]));
            && t'.Get(lp) == Joined(t.nodes[k][v]) && EntryOk(levels, t'.places, t'.Get(lp), p)
            && WellFormed(f, levels, t'.nodes, t'.places) && CompactedThrough(f, levels - |p|, lp, p, t0, t')
  {
    var e := Joined(t.nodes[k][v]);
    JoinedOk(f, levels, t.nodes, t.places, p, k, v);
    MirrorsJoined(f, levels, levels - |p|, t0.nodes, t.nodes, t.places, k, v);
    if lp.In? {
      assert NodeOk(f, levels, t.places, t.nodes[lp.node], t.places[lp.node]);
      PutKeeps(f, levels, t.nodes, t.places, lp.node, lp.index, e);
      assert |t.places[lp.node]| < |p|;
    }
    MirrorsFrame(f, levels, levels - |p|, t0.nodes, Entry(1, k), t.nodes, t.places, t.With(lp, e).nodes, e, p);
  }
}
