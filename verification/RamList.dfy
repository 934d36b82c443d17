// The list of RAM blocks of exec.c: where a new block goes, how a block is found, and
// the dirty bits that go with it.
module RamLists {
  import opened Options
  import opened Arithmetic
  import opened DirtyMemories

  const TWO_64: nat := 0x1_0000_0000_0000_0000
  const RAM_ADDR_MAX: nat := TWO_64 - 1

  const CLIENTS: nat := 3
  const DIRTY_CLIENTS_ALL: set<nat> := {0, 1, 2}

  datatype RamBlock = RamBlock(id: nat, offset: nat, maxLength: nat, usedLength: nat) {
    function End(): nat {
      offset + maxLength
    }

    predicate Contains(addr: nat) {
      offset <= addr < End()
    }
  }

  // ------------------------------------------------------------------ placement

  // BITS_PER_LONG << TARGET_PAGE_BITS: blocks start on whole words of the bitmap
  function Alignment(page: nat): nat {
    BITS_PER_LONG * page
  }

  // ROUND_UP in 64 bits
  function RoundUp64(n: nat, d: nat): nat
    requires d > 0
  {
    RoundDown((n + d - 1) % TWO_64, d)
  }

  ghost predicate Disjoint(a: RamBlock, b: RamBlock) {
    a.End() <= b.offset || b.End() <= a.offset
  }

  ghost predicate BlockOk(b: RamBlock) {
    b.maxLength > 0 && b.End() <= RAM_ADDR_MAX && b.usedLength <= b.maxLength
  }

  // No two blocks overlap.
  ghost predicate Placed(blocks: seq<RamBlock>) {
    && (forall i {:trigger BlockOk(blocks[i])} :: 0 <= i < |blocks| ==> BlockOk(blocks[i]))
    && (forall i, j {:trigger Disjoint(blocks[i], blocks[j])} :: 0 <= i < j < |blocks| ==> Disjoint(blocks[i], blocks[j]))
  }

  // All blocks start on a multiple of d.
  ghost predicate Aligned(d: nat, blocks: seq<RamBlock>)
    requires d > 0
  {
    forall b {:trigger Multiple(b.offset, d)} :: b in blocks ==> Multiple(b.offset, d)
  }

  ghost predicate InOrder(a: RamBlock, b: RamBlock) {
    a.maxLength >= b.maxLength
  }

  // From the biggest to the smallest.
  ghost predicate Sorted(blocks: seq<RamBlock>) {
    forall i, j {:trigger InOrder(blocks[i], blocks[j])} :: 0 <= i < j < |blocks| ==> InOrder(blocks[i], blocks[j])
  }

  // The lowest offset of a block that is not below c.
  ghost function NextOffset(blocks: seq<RamBlock>, c: int): (r: nat)
    ensures r <= RAM_ADDR_MAX
    ensures forall b :: b in blocks && b.offset >= c ==> r <= b.offset
    ensures r == RAM_ADDR_MAX || exists b :: b in blocks && b.offset >= c && b.offset == r
  {
    if blocks == [] then RAM_ADDR_MAX
    else
      var k := |blocks| - 1;
      var r := NextOffset(blocks[..k], c);
      assert blocks == blocks[..k] + [blocks[k]];
      if blocks[k].offset >= c && blocks[k].offset < r then blocks[k].offset else r
  }

  // Where a block could go behind b.
  type Place = RamBlock -> nat

  function Behind(d: nat): Place
    requires d > 0
  {
    (b: RamBlock) => RoundUp64(b.End(), d)
  }

  // The room there is behind b.
  ghost function Gap(place: Place, blocks: seq<RamBlock>, b: RamBlock): int {
    NextOffset(blocks, place(b)) - place(b)
  }

  // A place is behind its block, or 0 where there is none, and no block begins between.
  ghost predicate PlaceOk(place: Place, blocks: seq<RamBlock>, b: RamBlock) {
    && 0 <= place(b) < RAM_ADDR_MAX
    && (place(b) == 0 || b.End() <= place(b))
    && forall x :: x in blocks && b.End() <= x.offset ==> place(b) <= x.offset
  }

  // Rounding up gives the lowest aligned address, or 0 when there is none.
  lemma RoundUpIs(n: nat, d: nat, x: nat)
    requires 0 < d && Multiple(TWO_64, d) && Multiple(x, d) && n <= x <= RAM_ADDR_MAX
    ensures n <= RoundUp64(n, d) <= x
  {
    RoundUpNoWrap(n, d, x);
    RoundDownIs(n + d - 1, d);
    QuotientLeast(Quot(n + d - 1, d), n + d - 1, d, x);
  }

  lemma QuotientLeast(q: nat, sum: nat, d: nat, x: nat)
    requires 0 < d && Multiple(x, d) && sum < x + d && q * d <= sum
    ensures q * d <= x
  {
    var k := Quot(x, d);
    MultipleIs(x, d);
    Distribute(k, 1, d);
    if k < q {
      MulMonotone(k + 1, q, d);
    } else {
      MulMonotone(q, k, d);
    }
  }

  lemma RoundUpNoWrap(n: nat, d: nat, x: nat)
    requires 0 < d && Multiple(TWO_64, d) && Multiple(x, d) && n <= x <= RAM_ADDR_MAX
    ensures n + d - 1 < TWO_64
  {
    var k, t := Quot(x, d), Quot(TWO_64, d);
    MultipleIs(x, d);
    MultipleIs(TWO_64, d);
    if t <= k {
      MulMonotone(t, k, d);
    }
    MulMonotone(k + 1, t, d);
    Distribute(k, 1, d);
  }

  lemma RoundUpAligned(n: nat, d: nat)
    requires 0 < d <= TWO_64 && n <= RAM_ADDR_MAX
    ensures RoundUp64(n, d) <= RAM_ADDR_MAX && Multiple(RoundUp64(n, d), d)
    ensures if n + d - 1 < TWO_64 then n <= RoundUp64(n, d) else RoundUp64(n, d) == 0
  {
    var sum := (n + d - 1) % TWO_64;
    RoundDownIs(sum, d);
    MultipleOf(Quot(sum, d), d);
  }

  lemma BehindOk(d: nat, blocks: seq<RamBlock>, b: RamBlock)
    requires 1 < d <= TWO_64 && Multiple(TWO_64, d) && Placed(blocks) && Aligned(d, blocks) && b in blocks
    ensures PlaceOk(Behind(d), blocks, b) && Multiple(Behind(d)(b), d)
  {
    assert BlockOk(b);
    RoundUpAligned(b.End(), d);
    assert Behind(d)(b) == RoundUp64(b.End(), d);
    MaxUnaligned(d);
    forall x | x in blocks && b.End() <= x.offset
      ensures Behind(d)(b) <= x.offset
    {
      assert BlockOk(x);
      RoundUpIs(b.End(), d, x.offset);
    }
  }

  lemma MaxUnaligned(d: nat)
    requires 1 < d && Multiple(TWO_64, d)
    ensures !Multiple(RAM_ADDR_MAX, d)
  {
    var t := Quot(TWO_64, d);
    MultipleIs(TWO_64, d);
    MultipleIs(RAM_ADDR_MAX, d);
    Distribute(t - 1, 1, d);
    QuotientUnique(t - 1, d - 1, d);
  }

  // ------------------------------------------------------------------- finding a gap

  // A gap behind a block is free, whether or not rounding up has wrapped round.
  lemma GapFree(place: Place, blocks: seq<RamBlock>, b: RamBlock, x: RamBlock, size: nat)
    requires Placed(blocks) && b in blocks && x in blocks && PlaceOk(place, blocks, b)
    requires 0 < size <= Gap(place, blocks, b)
    ensures place(b) + size <= RAM_ADDR_MAX && (x.End() <= place(b) || place(b) + size <= x.offset)
  {
    Apart(blocks, b, x);
  }

  // Two blocks of the list are the same or lie apart.
  lemma Apart(blocks: seq<RamBlock>, a: RamBlock, b: RamBlock)
    requires Placed(blocks) && a in blocks && b in blocks
    ensures BlockOk(a) && BlockOk(b) && (a == b || Disjoint(a, b))
  {
    var i :| 0 <= i < |blocks| && blocks[i] == a;
    var j :| 0 <= j < |blocks| && blocks[j] == b;
    assert BlockOk(blocks[i]) && BlockOk(blocks[j]);
    assert i < j ==> Disjoint(blocks[i], blocks[j]);
    assert j < i ==> Disjoint(blocks[j], blocks[i]);
  }

  // A gap never has the value that stands for none.
  lemma GapBound(place: Place, blocks: seq<RamBlock>, b: RamBlock)
    requires b in blocks && BlockOk(b) && PlaceOk(place, blocks, b)
    ensures 0 <= Gap(place, blocks, b) < RAM_ADDR_MAX
  {
    var next := NextOffset(blocks, place(b));
    assert next >= place(b);
    assert place(b) == 0 ==> next <= b.offset < b.End();
  }

  // The best fit: the smallest gap that is big enough, if there is one; of equal gaps the
  // first in the list.
  ghost predicate BestFit(place: Place, blocks: seq<RamBlock>, size: nat, r: Option<int>) {
    if r.None? then forall b :: b in blocks ==> Gap(place, blocks, b) < size
    else exists i: nat :: IsBest(place, blocks, size, i) && r.value == place(blocks[i])
  }

  ghost function Gaps(place: Place, blocks: seq<RamBlock>): (gaps: seq<int>)
    ensures |gaps| == |blocks| && forall j {:trigger gaps[j]} :: 0 <= j < |blocks| ==> gaps[j] == Gap(place, blocks, blocks[j])
  {
    seq(|blocks|, j requires 0 <= j < |blocks| => Gap(place, blocks, blocks[j]))
  }

  ghost predicate IsBest(place: Place, blocks: seq<RamBlock>, size: nat, i: nat) {
    i < |blocks| && Smallest(Gaps(place, blocks), |blocks|, size, i)
  }

  // Of the first n gaps, i is the first that is the smallest of those big enough.
  ghost predicate Smallest(gaps: seq<int>, n: nat, size: nat, i: nat)
    requires i < n <= |gaps|
  {
    && size <= gaps[i]
    && forall j :: 0 <= j < n && size <= gaps[j] ==> gaps[i] <= gaps[j] && (j < i ==> gaps[i] < gaps[j])
  }

  lemma FitExcludes(place: Place, blocks: seq<RamBlock>, size: nat, r: Option<int>)
    requires r.Some?
    ensures BestFit(place, blocks, size, r) ==> !BestFit(place, blocks, size, None)
  {
  }

  lemma NoFit(place: Place, blocks: seq<RamBlock>, size: nat)
    requires forall j :: 0 <= j < |blocks| ==> Gaps(place, blocks)[j] < size
    ensures BestFit(place, blocks, size, None)
  {
    forall b | b in blocks
      ensures Gap(place, blocks, b) < size
    {
      var j :| 0 <= j < |blocks| && blocks[j] == b;
      assert Gaps(place, blocks)[j] < size;
    }
  }

  // Where the room behind block i begins, and where it ends.
  method Room(place: Place, blocks: seq<RamBlock>, i: nat) returns (candidate: int, next: nat)
    requires Placed(blocks) && i < |blocks|
    requires forall b {:trigger PlaceOk(place, blocks, b)} :: b in blocks ==> PlaceOk(place, blocks, b)
    ensures candidate == place(blocks[i]) < RAM_ADDR_MAX
    ensures next - candidate == Gaps(place, blocks)[i] < RAM_ADDR_MAX
  {
    assert PlaceOk(place, blocks, blocks[i]);
    GapBound(place, blocks, blocks[i]);
    candidate := place(blocks[i]);
    next := FindNext(blocks, candidate);
  }

  method FindGap(place: Place, blocks: seq<RamBlock>, size: nat) returns (r: Option<int>)
    requires Placed(blocks) && 0 < size <= RAM_ADDR_MAX
    requires forall b {:trigger PlaceOk(place, blocks, b)} :: b in blocks ==> PlaceOk(place, blocks, b)
    ensures BestFit(place, blocks, size, r)
  {
    var offset, mingap := RAM_ADDR_MAX, RAM_ADDR_MAX;
    ghost var gaps, best: Option<nat> := Gaps(place, blocks), None;
    for i := 0 to |blocks|
      invariant best.None? ==> offset == RAM_ADDR_MAX && mingap == RAM_ADDR_MAX
      invariant best.None? ==> forall j :: 0 <= j < i ==> gaps[j] < size
      invariant best.Some? ==> best.value < i && Smallest(gaps, i, size, best.value)
      invariant best.Some? ==> offset == place(blocks[best.value]) < RAM_ADDR_MAX && mingap == gaps[best.value]
    {
      var candidate, next := Room(place, blocks, i);
      if next - candidate >= size && next - candidate < mingap {
        offset, mingap := candidate, next - candidate;
        best := Some(i);
      }
    }
    if offset == RAM_ADDR_MAX {
      NoFit(place, blocks, size);
      return None;
    }
    assert IsBest(place, blocks, size, best.value);
    r := Some(offset);
  }

  method FindRamOffset(d: nat, blocks: seq<RamBlock>, size: nat) returns (r: Option<int>)
    requires 1 < d <= TWO_64 && Multiple(TWO_64, d) && Placed(blocks) && Aligned(d, blocks) && 0 < size <= RAM_ADDR_MAX
    ensures blocks == [] ==> r == Some(0)
    ensures blocks != [] ==> BestFit(Behind(d), blocks, size, r)
    // what is handed out is aligned, in range and free
    ensures r.Some? ==> 0 <= r.value && Multiple(r.value, d) && r.value + size <= RAM_ADDR_MAX
    ensures r.Some? ==> forall x :: x in blocks ==> x.End() <= r.value || r.value + size <= x.offset
  {
    if blocks == [] {
      return Some(0);
    }
    forall b | b in blocks
      ensures PlaceOk(Behind(d), blocks, b) && Multiple(Behind(d)(b), d)
    {
      BehindOk(d, blocks, b);
    }
    r := FindGap(Behind(d), blocks, size);
    if r.Some? {
      ghost var i: nat :| IsBest(Behind(d), blocks, size, i) && r.value == Behind(d)(blocks[i]);
      BestFree(Behind(d), blocks, size, blocks[i]);
    }
  }

  lemma BestFree(place: Place, blocks: seq<RamBlock>, size: nat, best: RamBlock)
    requires Placed(blocks) && 0 < size <= Gap(place, blocks, best) && best in blocks && PlaceOk(place, blocks, best)
    ensures 0 <= place(best) && place(best) + size <= RAM_ADDR_MAX
    ensures forall x :: x in blocks ==> x.End() <= place(best) || place(best) + size <= x.offset
  {
    GapFree(place, blocks, best, best, size);
    forall x | x in blocks
      ensures x.End() <= place(best) || place(best) + size <= x.offset
    {
      GapFree(place, blocks, best, x, size);
    }
  }

  method FindNext(blocks: seq<RamBlock>, candidate: int) returns (next: nat)
    ensures next == NextOffset(blocks, candidate)
  {
    next := RAM_ADDR_MAX;
    for i := 0 to |blocks|
      invariant next == NextOffset(blocks[..i], candidate)
    {
      assert blocks[..i + 1][..i] == blocks[..i];
      if blocks[i].offset >= candidate {
        next := if blocks[i].offset < next then blocks[i].offset else next;
      }
    }
    assert blocks[..|blocks|] == blocks;
  }

  // ----------------------------------------------------------------- the end of RAM

  ghost function LastEnd(blocks: seq<RamBlock>): (r: nat)
    ensures forall b :: b in blocks ==> b.End() <= r
    ensures r == 0 || exists b :: b in blocks && b.End() == r
  {
    if blocks == [] then 0
    else
      var k := |blocks| - 1;
      var r := LastEnd(blocks[..k]);
      assert blocks == blocks[..k] + [blocks[k]];
      if r < blocks[k].End() then blocks[k].End() else r
  }

  method FindLastEnd(blocks: seq<RamBlock>) returns (last: nat)
    ensures last == LastEnd(blocks)
  {
    last := 0;
    for i := 0 to |blocks|
      invariant last == LastEnd(blocks[..i])
    {
      assert blocks[..i + 1][..i] == blocks[..i];
      last := if last < blocks[i].End() then blocks[i].End() else last;
    }
    assert blocks[..|blocks|] == blocks;
  }

  // The biggest end depends on what is in the list, not on its order.
  lemma LastEndSame(a: seq<RamBlock>, b: seq<RamBlock>)
    requires forall x :: x in a ==> x in b
    ensures LastEnd(a) <= LastEnd(b)
  {
  }

  // ------------------------------------------------------------------- the list

  // Before the first smaller one.
  method Insert(page: nat, blocks: seq<RamBlock>, b: RamBlock) returns (r: seq<RamBlock>)
    requires page > 0 && ListOk(page, blocks) && BlockOk(b) && Multiple(b.offset, Alignment(page)) && Multiple(b.maxLength, page)
    requires forall x :: x in blocks ==> Disjoint(x, b)
    ensures ListOk(page, r) && multiset(r) == multiset(blocks) + multiset{b}
    ensures b in r && forall x :: x in r ==> x == b || x in blocks
  {
    var i := 0;
    while i < |blocks| && blocks[i].maxLength >= b.maxLength
      invariant i <= |blocks|
      invariant forall j :: 0 <= j < i ==> InOrder(blocks[j], b)
    {
      i := i + 1;
    }
    r := blocks[..i] + [b] + blocks[i..];
    InsertSorted(blocks, b, i);
    AddedOk(page, blocks, b, i);
  }

  lemma InsertSorted(blocks: seq<RamBlock>, b: RamBlock, at: nat)
    requires Sorted(blocks) && at <= |blocks|
    requires forall j :: 0 <= j < at ==> InOrder(blocks[j], b)
    requires at < |blocks| ==> blocks[at].maxLength < b.maxLength
    ensures Sorted(blocks[..at] + [b] + blocks[at..])
  {
    var r := blocks[..at] + [b] + blocks[at..];
    forall i, j | 0 <= i < j < |r|
      ensures InOrder(r[i], r[j])
    {
      assert i < at && j < at ==> InOrder(blocks[i], blocks[j]);
      assert i < at && j > at && i < j - 1 ==> InOrder(blocks[i], blocks[j - 1]);
      assert i >= at && j - 1 > at ==> InOrder(blocks[at], blocks[j - 1]);
      assert i > at ==> InOrder(blocks[i - 1], blocks[j - 1]);
    }
  }

  lemma InsertPlaced(blocks: seq<RamBlock>, b: RamBlock, at: nat)
    requires Placed(blocks) && BlockOk(b) && at <= |blocks|
    requires forall x :: x in blocks ==> Disjoint(x, b)
    ensures Placed(blocks[..at] + [b] + blocks[at..])
  {
    var r := blocks[..at] + [b] + blocks[at..];
    forall i, j | 0 <= i < j < |r|
      ensures Disjoint(r[i], r[j])
    {
      assert r[i] == if i < at then blocks[i] else if i == at then b else blocks[i - 1];
      assert r[j] == if j < at then blocks[j] else if j == at then b else blocks[j - 1];
      assert i < at ==> blocks[i] in blocks;
      assert j > at ==> blocks[j - 1] in blocks;
    }
  }

  lemma RemovePlaced(blocks: seq<RamBlock>, i: nat)
    requires Placed(blocks) && Sorted(blocks) && i < |blocks|
    ensures Placed(blocks[..i] + blocks[i + 1..]) && Sorted(blocks[..i] + blocks[i + 1..])
  {
  }

  // ------------------------------------------------------------- the dirty bitmap

  // DIV_ROUND_UP(pages, DIRTY_MEMORY_BLOCK_SIZE)
  function BlocksFor(pages: nat): nat {
    (pages + BLOCK - 1) / BLOCK
  }

  // dirty_memory_extend, for one client
  method Extend(b: Blocks, oldPages: nat, newPages: nat) returns (b': Blocks)
    requires BlocksOk(b) && BlocksFor(oldPages) <= |b|
    ensures BlocksOk(b') && BlocksFor(oldPages) <= |b'| && (newPages <= oldPages ==> b' == b)
    ensures BlocksFor(newPages) <= |b'| || BlocksFor(newPages) <= BlocksFor(oldPages)
    // bits of pages there were are kept, all others are clean, unless nothing changes
    ensures b' == b || forall p: nat {:trigger IsDirty(b', p)} :: IsDirty(b', p) <==> p < BlocksFor(oldPages) * BLOCK && IsDirty(b, p)
    ensures forall p: nat {:trigger IsDirty(b', p)} :: p < oldPages ==> (IsDirty(b', p) <==> IsDirty(b, p))
  {
    var oldBlocks, newBlocks := BlocksFor(oldPages), BlocksFor(newPages);
    b' := b;
    if newBlocks <= oldBlocks {
      return;
    }
    b' := b[..oldBlocks];
    for j := oldBlocks to newBlocks
      invariant |b'| == j && BlocksOk(b')
      invariant b'[..oldBlocks] == b[..oldBlocks]
      invariant forall i :: oldBlocks <= i < j ==> true !in b'[i]
    {
      b' := b' + [seq(BLOCK, i => false)];
    }
    forall p: nat
      ensures IsDirty(b', p) <==> p < oldBlocks * BLOCK && IsDirty(b, p)
    {
      var i := p / BLOCK;
      if i < oldBlocks {
        assert b'[i] == b'[..oldBlocks][i] == b[i];
      } else if i < newBlocks {
        assert b'[i][p % BLOCK] in b'[i];
      }
    }
  }

  // The clients' bitmaps are well formed and have bits for that many pages.
  ghost predicate Roomy(dirty: seq<Blocks>, pages: nat) {
    |dirty| == CLIENTS && forall c :: 0 <= c < CLIENTS ==> BlocksOk(dirty[c]) && BlocksFor(pages) <= |dirty[c]|
  }

  ghost predicate KeptAll(dirty: seq<Blocks>, dirty': seq<Blocks>, n: nat, first: nat, end: nat) {
    && |dirty| == |dirty'| == CLIENTS
    && forall c {:trigger Kept(dirty[c], dirty'[c], n, first, end)} :: 0 <= c < CLIENTS ==> Kept(dirty[c], dirty'[c], n, first, end)
  }

  method ExtendAll(dirty: seq<Blocks>, oldSize: nat, newSize: nat) returns (dirty': seq<Blocks>)
    requires Roomy(dirty, oldSize)
    ensures Roomy(dirty', newSize) && KeptAll(dirty, dirty', oldSize, 0, 0)
  {
    var vga := Extend(dirty[0], oldSize, newSize);
    var code := Extend(dirty[1], oldSize, newSize);
    var migration := Extend(dirty[2], oldSize, newSize);
    dirty' := [vga, code, migration];
  }

  method GrowAll(dirty: seq<Blocks>, oldSize: nat, newSize: nat) returns (dirty': seq<Blocks>)
    requires Roomy(dirty, oldSize) && oldSize <= newSize
    ensures Roomy(dirty', newSize) && KeptAll(dirty, dirty', oldSize, 0, 0)
  {
    if newSize > oldSize {
      dirty' := ExtendAll(dirty, oldSize, newSize);
    } else {
      dirty' := dirty;
    }
  }

  // For the clients in the mask, the pages from `first` up to `end` have become dirty.
  ghost predicate SetFor(dirty: seq<Blocks>, dirty': seq<Blocks>, first: nat, end: nat, mask: set<nat>)
    requires |dirty| == CLIENTS && forall c :: 0 <= c < CLIENTS ==> BlocksOk(dirty[c])
  {
    && |dirty'| == CLIENTS
    && (forall c {:trigger Filled(dirty[c], dirty'[c], first, end, true)} :: 0 <= c < CLIENTS && c in mask ==>
          Filled(dirty[c], dirty'[c], first, end, true))
    && (forall c :: 0 <= c < CLIENTS && c !in mask ==> dirty'[c] == dirty[c])
  }

  method SetAll(dirty: seq<Blocks>, first: nat, end: nat, mask: set<nat>) returns (dirty': seq<Blocks>)
    requires |dirty| == CLIENTS && forall c :: 0 <= c < CLIENTS ==> BlocksOk(dirty[c]) && end <= |dirty[c]| * BLOCK
    ensures SetFor(dirty, dirty', first, end, mask)
  {
    var vga, code, migration := dirty[0], dirty[1], dirty[2];
    if 2 in mask {
      migration := SetRange(migration, first, end);
    }
    if 0 in mask {
      vga := SetRange(vga, first, end);
    }
    if 1 in mask {
      code := SetRange(code, first, end);
    }
    dirty' := [vga, code, migration];
  }

  // Every address up to the end of RAM has its bit.
  lemma Coverage(page: nat, last: nat, n: nat, addr: nat)
    requires page > 0 && Multiple(last, page) && addr <= last && BlocksFor(PageOf(page, last)) <= n
    ensures PageEnd(page, addr) <= PageOf(page, last) <= n * BLOCK
  {
    var k, e := PageOf(page, last), PageEnd(page, addr);
    MultipleIs(last, page);
    RoundDownIs(addr + page - 1, page);
    Distribute(k, 1, page);
    if k < e {
      MulMonotone(k + 1, e, page);
    }
  }

  lemma LastEndAligned(page: nat, blocks: seq<RamBlock>)
    requires page > 0 && forall b :: b in blocks ==> Multiple(b.End(), page)
    ensures Multiple(LastEnd(blocks), page)
  {
  }

  // ------------------------------------------------------------------ ram_list

  datatype AddResult = NoRoom | NoMemory | Added(block: RamBlock)

  // A part of the dirty bitmap as it was.
  datatype Snapshot = Snapshot(start: nat, end: nat, dirty: seq<bool>)

  // snap has the bits that b had.
  ghost predicate Captures(page: nat, snap: Snapshot, b: Blocks)
    requires page > 0 && BlocksOk(b)
  {
    && Multiple(snap.start, page) && Multiple(snap.end, page)
    && PageOf(page, snap.start) + |snap.dirty| == PageOf(page, snap.end)
    && forall i: nat :: i < |snap.dirty| ==> snap.dirty[i] == IsDirty(b, PageOf(page, snap.start) + i)
  }

  // Pages are small enough for a word of bits to cover a divisor of the address space.
  ghost predicate PageOk(page: nat) {
    page > 0 && Alignment(page) <= TWO_64 && Multiple(TWO_64, Alignment(page))
  }

  ghost predicate ListOk(page: nat, blocks: seq<RamBlock>)
    requires page > 0
  {
    && Placed(blocks) && Aligned(Alignment(page), blocks) && Sorted(blocks)
    && forall b {:trigger Multiple(b.End(), page)} :: b in blocks ==> Multiple(b.End(), page)
  }

  // b has been added: it starts out dirty for everybody, and RAM there was keeps its
  // bits.
  ghost predicate Grown(page: nat, blocks: seq<RamBlock>, dirty: seq<Blocks>, blocks': seq<RamBlock>, dirty': seq<Blocks>, b: RamBlock)
    requires page > 0
  {
    var first, end := PageOf(page, b.offset), PageEnd(page, b.offset + b.usedLength);
    && multiset(blocks') == multiset(blocks) + multiset{b}
    && KeptAll(dirty, dirty', PageOf(page, LastEnd(blocks)), first, end)
    && forall c {:trigger AllDirty(dirty'[c], first, end)} :: 0 <= c < CLIENTS ==> AllDirty(dirty'[c], first, end)
  }

  class RamList {
    const page: nat
    var blocks: seq<RamBlock>
    var mru: Option<RamBlock>
    var dirty: seq<Blocks>
    var version: nat

    ghost predicate Valid()
      reads this
    {
      && PageOk(page) && ListOk(page, blocks) && Roomy(dirty, PageOf(page, LastEnd(blocks)))
      && (mru.Some? ==> mru.value in blocks)
    }

    constructor (page: nat)
      requires PageOk(page)
      ensures Valid() && this.page == page && blocks == []
    {
      this.page, blocks, mru, version := page, [], None, 0;
      dirty := seq(CLIENTS, i => []);
    }

    // qemu_get_ram_block; None stands for its abort
    method GetRamBlock(addr: nat) returns (r: Option<RamBlock>)
      requires Valid() && addr <= RAM_ADDR_MAX
      modifies this`mru
      ensures Valid()
      // the one block that holds the address, whatever was used most recently
      ensures r.Some? ==> r.value in blocks && r.value.Contains(addr)
      ensures forall b :: b in blocks && b.Contains(addr) ==> r == Some(b)
      // and that is what was used most recently then
      ensures mru == if r.Some? then r else old(mru)
    {
      if mru.Some? && (addr - mru.value.offset) % TWO_64 < mru.value.maxLength {
        Found(blocks, mru.value, addr);
        return mru;
      }
      for i := 0 to |blocks|
        invariant mru == old(mru)
        invariant forall j :: 0 <= j < i ==> !blocks[j].Contains(addr)
      {
        Found(blocks, blocks[i], addr);
        if (addr - blocks[i].offset) % TWO_64 < blocks[i].maxLength {
          mru := Some(blocks[i]);
          r := mru;
          return;
        }
      }
      r := None;
    }

    // ram_block_add; hostOk says whether there is memory for the block
    method Add(id: nat, maxLength: nat, usedLength: nat, hostOk: bool) returns (r: AddResult)
      requires Valid() && 0 < maxLength <= RAM_ADDR_MAX && Multiple(maxLength, page) && usedLength <= maxLength
      modifies this
      ensures Valid()
      ensures !r.Added? ==> blocks == old(blocks) && dirty == old(dirty) && mru == old(mru) && version == old(version)
      ensures r.NoMemory? <==> !r.NoRoom? && !hostOk
      ensures r.Added? ==> mru == None && version == old(version) + 1
      ensures r.NoRoom? <==> old(blocks) != [] && BestFit(Behind(Alignment(page)), old(blocks), maxLength, None)
      ensures r.Added? ==> r.block.id == id && r.block.maxLength == maxLength && r.block.usedLength == usedLength
      ensures r.Added? ==> Grown(page, old(blocks), old(dirty), blocks, dirty, r.block)
      ensures r.Added? ==> if old(blocks) == [] then r.block.offset == 0
                           else BestFit(Behind(Alignment(page)), old(blocks), maxLength, Some(r.block.offset))
    {
      var d := BITS_PER_LONG * page;
      var last := FindLastEnd(blocks);
      var oldSize := PageOf(page, last);
      AlignmentOk(page);
      var offset := FindRamOffset(d, blocks, maxLength);
      if offset.None? {
        return NoRoom;
      }
      FitExcludes(Behind(d), blocks, maxLength, offset);
      if !hostOk {
        return NoMemory;
      }
      var b := RamBlock(id, offset.value, maxLength, usedLength);
      Install(b, oldSize);
      r := Added(b);
    }

    method Install(b: RamBlock, oldSize: nat)
      requires Valid() && oldSize == PageOf(page, LastEnd(blocks))
      requires BlockOk(b) && Multiple(b.offset, Alignment(page)) && Multiple(b.maxLength, page)
      requires forall x :: x in blocks ==> Disjoint(x, b)
      modifies this
      ensures Valid() && Grown(page, old(blocks), old(dirty), blocks, dirty, b)
      ensures mru == None && version == old(version) + 1
    {
      ghost var blocks0, dirty0 := blocks, dirty;
      MakeRoom(b, oldSize);
      ghost var dirty1 := dirty;
      SetDirtyRange(b.offset, b.usedLength, DIRTY_CLIENTS_ALL);
      AddedAll(page, blocks0, blocks, dirty0, dirty1, dirty, b);
    }

    // The block is in the list, and there are dirty bits for it.
    method MakeRoom(b: RamBlock, oldSize: nat)
      requires Valid() && oldSize == PageOf(page, LastEnd(blocks))
      requires BlockOk(b) && Multiple(b.offset, Alignment(page)) && Multiple(b.maxLength, page)
      requires forall x :: x in blocks ==> Disjoint(x, b)
      modifies this
      ensures Valid() && multiset(blocks) == multiset(old(blocks)) + multiset{b} && b.End() <= LastEnd(blocks)
      ensures KeptAll(old(dirty), dirty, PageOf(page, LastEnd(old(blocks))), 0, 0)
      ensures mru == None && version == old(version) + 1
    {
      ghost var blocks0 := blocks;
      var newSize := if oldSize < PageOf(page, b.End()) then PageOf(page, b.End()) else oldSize;
      dirty := GrowAll(dirty, oldSize, newSize);
      blocks := Insert(page, blocks, b);
      mru := None;
      version := version + 1;
      AddedEnd(page, blocks0, blocks, b, dirty, newSize);
    }

    // qemu_ram_free
    method Free(i: nat)
      requires Valid() && i < |blocks|
      modifies this`blocks, this`mru, this`version
      ensures Valid() && blocks == old(blocks)[..i] + old(blocks)[i + 1..] && mru == None && version == old(version) + 1
    {
      RemovePlaced(blocks, i);
      ghost var blocks0 := blocks;
      blocks := blocks[..i] + blocks[i + 1..];
      mru := None;
      version := version + 1;
      LastEndSame(blocks, blocks0);
      QuotMonotone(LastEnd(blocks), LastEnd(blocks0), page);
    }

    // cpu_physical_memory_set_dirty_range
    method SetDirtyRange(start: nat, length: nat, mask: set<nat>)
      requires Valid() && start + length <= LastEnd(blocks)
      modifies this`dirty
      ensures Valid() && Roomy(old(dirty), PageOf(page, LastEnd(blocks)))
      ensures SetFor(old(dirty), dirty, PageOf(page, start), PageEnd(page, start + length), mask)
    {
      ghost var last, dirty0 := LastEnd(blocks), dirty;
      LastEndAligned(page, blocks);
      RoomyFor(page, last, dirty, start + length);
      dirty := SetAll(dirty, PageOf(page, start), PageEnd(page, start + length), mask);
      SetRoomy(dirty0, dirty, PageOf(page, start), PageEnd(page, start + length), mask, PageOf(page, last));
    }

    // cpu_physical_memory_test_and_clear_dirty
    method TestAndClearDirty(start: nat, length: nat, client: nat) returns (r: bool)
      requires Valid() && client < CLIENTS && start + length <= LastEnd(blocks)
      modifies this`dirty
      ensures Valid() && BlocksOk(old(dirty)[client])
      // the answer is about the pages that hold a byte of the range
      ensures r <==> length > 0 && AnyByteDirty(page, old(dirty)[client], start, length)
      ensures length == 0 ==> dirty == old(dirty)
      ensures length > 0 ==> Filled(old(dirty)[client], dirty[client], PageOf(page, start), PageEnd(page, start + length), false)
      ensures forall c :: 0 <= c < CLIENTS && c != client ==> dirty[c] == old(dirty)[c]
    {
      if length == 0 {
        return false;
      }
      LastEndAligned(page, blocks);
      Coverage(page, LastEnd(blocks), |dirty[client]|, start + length);
      AnyHolds(page, start, length, dirty[client]);
      var b;
      r, b := TestAndClear(dirty[client], PageOf(page, start), PageEnd(page, start + length));
      dirty := dirty[client := b];
    }

    // cpu_physical_memory_snapshot_and_clear_dirty
    method SnapshotAndClearDirty(start: nat, length: nat, client: nat) returns (snap: Snapshot)
      requires Valid() && client < CLIENTS && start + length <= LastEnd(blocks)
      modifies this`dirty
      ensures Valid() && BlocksOk(old(dirty)[client])
      ensures snap.start == RoundDown(start, page * BITS_PER_LONG) && snap.end == RoundUp(start + length, page * BITS_PER_LONG)
      ensures snap.start <= start && start + length <= snap.end
      ensures Captures(page, snap, old(dirty)[client])
      // exactly the words that hold the range are cleared
      ensures Filled(old(dirty)[client], dirty[client], PageOf(page, snap.start), PageOf(page, snap.end), false)
      ensures forall c :: 0 <= c < CLIENTS && c != client ==> dirty[c] == old(dirty)[c]
    {
      LastEndAligned(page, blocks);
      Coverage(page, LastEnd(blocks), |dirty[client]|, start + length);
      var b;
      snap, b := TakeSnapshot(page, dirty[client], start, length);
      dirty := dirty[client := b];
    }
  }

  method TakeSnapshot(page: nat, b: Blocks, start: nat, length: nat) returns (snap: Snapshot, b': Blocks)
    requires page > 0 && BlocksOk(b) && PageEnd(page, start + length) <= |b| * BLOCK
    ensures snap.start == RoundDown(start, page * BITS_PER_LONG) && snap.end == RoundUp(start + length, page * BITS_PER_LONG)
    ensures snap.start <= start && start + length <= snap.end
    ensures Captures(page, snap, b)
    ensures Filled(b, b', PageOf(page, snap.start), PageOf(page, snap.end), false)
  {
    var align := page * BITS_PER_LONG;
    var first, last := RoundDown(start, align), RoundUp(start + length, align);
    SnapshotFirst(page, start);
    SnapshotLast(page, start + length, |b|);
    QuotMonotone(first, last, page);
    var bits;
    bits, b' := CopyAndClear(b, PageOf(page, first), PageOf(page, last));
    snap := Snapshot(first, last, bits);
  }

  // A block is found by address alone.
  lemma Found(blocks: seq<RamBlock>, b: RamBlock, addr: nat)
    requires Placed(blocks) && b in blocks && addr <= RAM_ADDR_MAX
    ensures (addr - b.offset) % TWO_64 < b.maxLength <==> b.Contains(addr)
    ensures forall x :: x in blocks && x.Contains(addr) && b.Contains(addr) ==> x == b
  {
    assert BlockOk(b);
    if addr < b.offset {
      assert (addr - b.offset) % TWO_64 == addr - b.offset + TWO_64;
    }
    var i :| 0 <= i < |blocks| && blocks[i] == b;
    forall x | x in blocks && x.Contains(addr) && b.Contains(addr)
      ensures x == b
    {
      var j :| 0 <= j < |blocks| && blocks[j] == x;
      assert i < j ==> Disjoint(blocks[i], blocks[j]);
      assert j < i ==> Disjoint(blocks[j], blocks[i]);
    }
  }

  lemma AlignmentOk(page: nat)
    requires PageOk(page)
    ensures 1 < Alignment(page)
  {
  }

  // The list with the new block.
  lemma AddedOk(page: nat, blocks: seq<RamBlock>, b: RamBlock, at: nat)
    requires page > 0 && ListOk(page, blocks) && BlockOk(b) && at <= |blocks| && Multiple(b.offset, Alignment(page)) && Multiple(b.maxLength, page)
    requires forall x :: x in blocks ==> Disjoint(x, b)
    requires Sorted(blocks[..at] + [b] + blocks[at..])
    ensures ListOk(page, blocks[..at] + [b] + blocks[at..])
    ensures multiset(blocks[..at] + [b] + blocks[at..]) == multiset(blocks) + multiset{b}
    ensures b in blocks[..at] + [b] + blocks[at..]
    ensures forall x :: x in blocks[..at] + [b] + blocks[at..] ==> x == b || x in blocks
  {
    assert (blocks[..at] + [b] + blocks[at..])[at] == b;
    InsertPlaced(blocks, b, at);
    EndAligned(page, b);
    assert blocks == blocks[..at] + blocks[at..];
  }

  lemma AddedEnd(page: nat, blocks: seq<RamBlock>, r: seq<RamBlock>, b: RamBlock, dirty: seq<Blocks>, newSize: nat)
    requires page > 0 && b in r && forall x :: x in r ==> x == b || x in blocks
    requires PageOf(page, LastEnd(blocks)) <= newSize && PageOf(page, b.End()) <= newSize && Roomy(dirty, newSize)
    ensures Roomy(dirty, PageOf(page, LastEnd(r))) && b.End() <= LastEnd(r)
  {
    assert LastEnd(r) == b.End() || LastEnd(r) <= LastEnd(blocks);
    if LastEnd(r) != b.End() {
      QuotMonotone(LastEnd(r), LastEnd(blocks), page);
    }
  }

  lemma RoomyFor(page: nat, last: nat, dirty: seq<Blocks>, addr: nat)
    requires page > 0 && Multiple(last, page) && addr <= last && Roomy(dirty, PageOf(page, last))
    ensures forall c :: 0 <= c < CLIENTS ==> PageEnd(page, addr) <= |dirty[c]| * BLOCK
  {
    forall c | 0 <= c < CLIENTS
      ensures PageEnd(page, addr) <= |dirty[c]| * BLOCK
    {
      Coverage(page, last, |dirty[c]|, addr);
    }
  }

  lemma SetRoomy(dirty: seq<Blocks>, dirty': seq<Blocks>, first: nat, end: nat, mask: set<nat>, pages: nat)
    requires Roomy(dirty, pages) && SetFor(dirty, dirty', first, end, mask)
    ensures Roomy(dirty', pages)
  {
    forall c | 0 <= c < CLIENTS
      ensures BlocksOk(dirty'[c]) && BlocksFor(pages) <= |dirty'[c]|
    {
      assert c in mask ==> Filled(dirty[c], dirty'[c], first, end, true);
    }
  }

  lemma EndAligned(page: nat, b: RamBlock)
    requires page > 0 && Multiple(b.offset, Alignment(page)) && Multiple(b.maxLength, page)
    ensures Multiple(b.End(), page)
  {
    var d := Alignment(page);
    var j, k := Quot(b.offset, d), Quot(b.maxLength, page);
    MultipleIs(b.offset, d);
    MultipleIs(b.maxLength, page);
    MulAssociates(j, BITS_PER_LONG, page);
    Distribute(j * BITS_PER_LONG, k, page);
    MultipleOf(j * BITS_PER_LONG + k, page);
  }

  lemma AddedDirty(dirty0: seq<Blocks>, dirty1: seq<Blocks>, dirty: seq<Blocks>, n: nat, first: nat, end: nat)
    requires KeptAll(dirty0, dirty1, n, 0, 0)
    requires forall c :: 0 <= c < CLIENTS ==> BlocksOk(dirty1[c]) && end <= |dirty1[c]| * BLOCK
    requires SetFor(dirty1, dirty, first, end, DIRTY_CLIENTS_ALL)
    ensures KeptAll(dirty0, dirty, n, first, end)
    ensures forall c {:trigger AllDirty(dirty[c], first, end)} :: 0 <= c < CLIENTS ==> AllDirty(dirty[c], first, end)
  {
    forall c | 0 <= c < CLIENTS
      ensures Kept(dirty0[c], dirty[c], n, first, end) && AllDirty(dirty[c], first, end)
    {
      assert c in DIRTY_CLIENTS_ALL;
      assert Kept(dirty0[c], dirty1[c], n, 0, 0) && Filled(dirty1[c], dirty[c], first, end, true);
      KeptFilled(dirty0[c], dirty1[c], dirty[c], n, first, end);
    }
  }

  lemma AddedAll(page: nat, blocks0: seq<RamBlock>, blocks: seq<RamBlock>,
                 dirty0: seq<Blocks>, dirty1: seq<Blocks>, dirty: seq<Blocks>, b: RamBlock)
    requires page > 0 && ListOk(page, blocks) && multiset(blocks) == multiset(blocks0) + multiset{b}
    requires b.usedLength <= b.maxLength && b.End() <= LastEnd(blocks) && Roomy(dirty1, PageOf(page, LastEnd(blocks)))
    requires KeptAll(dirty0, dirty1, PageOf(page, LastEnd(blocks0)), 0, 0)
    requires SetFor(dirty1, dirty, PageOf(page, b.offset), PageEnd(page, b.offset + b.usedLength), DIRTY_CLIENTS_ALL)
    ensures Grown(page, blocks0, dirty0, blocks, dirty, b)
  {
    LastEndAligned(page, blocks);
    RoomyFor(page, LastEnd(blocks), dirty1, b.offset + b.usedLength);
    AddedDirty(dirty0, dirty1, dirty, PageOf(page, LastEnd(blocks0)), PageOf(page, b.offset), PageEnd(page, b.offset + b.usedLength));
  }

  // In bytes: some page that holds a byte of the range is dirty.
  ghost predicate AnyByteDirty(page: nat, b: Blocks, start: nat, length: nat)
    requires BlocksOk(b)
  {
    exists p: nat :: Holds(page, start, length, p) && IsDirty(b, p)
  }

  lemma AnyHolds(page: nat, start: nat, length: nat, b: Blocks)
    requires page > 0 && length > 0 && BlocksOk(b)
    ensures AnyDirty(b, PageOf(page, start), PageEnd(page, start + length)) <==> AnyByteDirty(page, b, start, length)
  {
    forall p: nat
      ensures PageOf(page, start) <= p < PageEnd(page, start + length) <==> Holds(page, start, length, p)
    {
      PagesOfRange(page, start, length, p);
    }
  }

  // Pages relative to the start of a snapshot.
  lemma SnapshotPages(page: nat, first: nat, last: nat, start: nat, length: nat)
    requires page > 0 && Multiple(first, page) && Multiple(last, page) && first <= start && start + length <= last
    ensures PageOf(page, start - first) == PageOf(page, start) - PageOf(page, first)
    ensures PageEnd(page, start + length - first) == PageEnd(page, start + length) - PageOf(page, first)
    ensures PageEnd(page, start + length) <= PageOf(page, last)
  {
    Shifted(page, start - first, first);
    Shifted(page, start + length - first + page - 1, first);
    var n, e := start + length, PageOf(page, last);
    RoundDownIs(n + page - 1, page);
    MultipleIs(last, page);
    Distribute(e, 1, page);
    if e < PageEnd(page, n) {
      MulMonotone(e + 1, PageEnd(page, n), page);
    }
  }

  lemma {:induction false} Shifted(page: nat, n: nat, s: nat)
    requires page > 0 && Multiple(s, page)
    ensures Quot(n + s, page) == Quot(n, page) + Quot(s, page)
    decreases s
  {
    if s >= page {
      Shifted(page, n, s - page);
    }
  }

  // cpu_physical_memory_snapshot_get_dirty: the answer is about the time of the
  // snapshot, whatever has happened since
  method SnapshotGetDirty(page: nat, snap: Snapshot, start: nat, length: nat, ghost b: Blocks) returns (r: bool)
    requires page > 0 && BlocksOk(b) && Captures(page, snap, b)
    requires snap.start <= start && start + length <= snap.end
    ensures r <==> AnyDirty(b, PageOf(page, start), PageEnd(page, start + length))
    ensures length > 0 ==> (r <==> AnyByteDirty(page, b, start, length))
  {
    if length > 0 {
      AnyHolds(page, start, length, b);
    }
    SnapshotPages(page, snap.start, snap.end, start, length);
    var end := PageEnd(page, start + length - snap.start);
    var p := PageOf(page, start - snap.start);
    ghost var base := PageOf(page, snap.start);
    while p < end
      invariant p == PageOf(page, start) - base || p <= end
      invariant PageOf(page, start) - base <= p
      invariant !AnyDirty(b, PageOf(page, start), base + p)
    {
      if snap.dirty[p] {
        assert IsDirty(b, base + p);
        return true;
      }
      p := p + 1;
    }
    r := false;
  }
}
