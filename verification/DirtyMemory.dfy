// The two-level dirty bitmap of exec.c: one bit for every page of RAM, in blocks of
// fixed size, and snapshots of parts of it.
module DirtyMemories {
  import opened Arithmetic

  // pages in a block, DIRTY_MEMORY_BLOCK_SIZE
  const BLOCK: nat := 2097152
  const BITS_PER_LONG: nat := 64

  type Blocks = seq<seq<bool>>

  ghost predicate BlocksOk(b: Blocks) {
    forall i :: 0 <= i < |b| ==> |b[i]| == BLOCK
  }

  // The flat view: is this page dirty?
  ghost predicate IsDirty(b: Blocks, page: nat)
    requires BlocksOk(b)
  {
    page / BLOCK < |b| && b[page / BLOCK][page % BLOCK]
  }

  ghost predicate AnyDirty(b: Blocks, page: nat, end: nat)
    requires BlocksOk(b)
  {
    exists p: nat :: page <= p < end && IsDirty(b, p)
  }

  // b' is b except that the pages from `page` up to `end` have value v.
  ghost predicate Filled(b: Blocks, b': Blocks, page: nat, end: nat, v: bool)
    requires BlocksOk(b)
  {
    && BlocksOk(b') && |b'| == |b|
    && forall p: nat {:trigger IsDirty(b', p)} :: IsDirty(b', p) <==> if page <= p < end then v && p / BLOCK < |b| else IsDirty(b, p)
  }

  // Of the first n pages, those outside a range have the bits they had.
  ghost predicate Kept(b: Blocks, b': Blocks, n: nat, first: nat, end: nat) {
    && BlocksOk(b) && BlocksOk(b')
    && forall p: nat {:trigger IsDirty(b', p)} :: p < n && !(first <= p < end) ==> (IsDirty(b', p) <==> IsDirty(b, p))
  }

  ghost predicate AllDirty(b: Blocks, first: nat, end: nat) {
    BlocksOk(b) && forall p: nat {:trigger IsDirty(b, p)} :: first <= p < end ==> IsDirty(b, p)
  }

  lemma KeptFilled(b: Blocks, b1: Blocks, b2: Blocks, n: nat, first: nat, end: nat)
    requires Kept(b, b1, n, 0, 0) && Filled(b1, b2, first, end, true) && end <= |b1| * BLOCK
    ensures Kept(b, b2, n, first, end) && AllDirty(b2, first, end)
  {
    forall p: nat | p < n && !(first <= p < end)
      ensures IsDirty(b2, p) <==> IsDirty(b, p)
    {
      assert IsDirty(b1, p) <==> IsDirty(b, p);
    }
  }

  // --------------------------------------------------------------- one run of pages

  // Pages offset up to offset + num of one block.
  function FillRun(s: seq<bool>, offset: nat, num: nat, v: bool): (r: seq<bool>)
    requires offset + num <= |s|
    ensures |r| == |s|
  {
    s[..offset] + seq(num, i => v) + s[offset + num..]
  }

  lemma FilledRun(b: Blocks, page: nat, num: nat, v: bool)
    requires BlocksOk(b) && page / BLOCK < |b| && page % BLOCK + num <= BLOCK
    ensures Filled(b, b[page / BLOCK := FillRun(b[page / BLOCK], page % BLOCK, num, v)], page, page + num, v)
  {
    var idx, offset := page / BLOCK, page % BLOCK;
    var b' := b[idx := FillRun(b[idx], offset, num, v)];
    forall p: nat
      ensures IsDirty(b', p) <==> if page <= p < page + num then v && p / BLOCK < |b| else IsDirty(b, p)
    {
      if p / BLOCK == idx {
        assert page <= p < page + num <==> offset <= p % BLOCK < offset + num;
      }
    }
  }

  lemma FilledJoin(b: Blocks, b1: Blocks, b2: Blocks, page: nat, mid: nat, end: nat, v: bool)
    requires BlocksOk(b) && page <= mid <= end && Filled(b, b1, page, mid, v) && Filled(b1, b2, mid, end, v)
    ensures Filled(b, b2, page, end, v)
  {
    forall p: nat
      ensures IsDirty(b2, p) <==> if page <= p < end then v && p / BLOCK < |b| else IsDirty(b, p)
    {
      assert IsDirty(b1, p) <==> if page <= p < mid then v && p / BLOCK < |b| else IsDirty(b, p);
    }
  }

  // The bits of a run, as they are in its block.
  function RunBits(b: Blocks, page: nat, num: nat): (r: seq<bool>)
    requires page / BLOCK < |b| && page % BLOCK + num <= |b[page / BLOCK]|
    ensures |r| == num
  {
    b[page / BLOCK][page % BLOCK..page % BLOCK + num]
  }

  // The pages from `page` on that lie in one block and before `end`.
  function RunLength(page: nat, end: nat): (num: nat)
    requires page < end
    ensures 0 < num <= end - page && page % BLOCK + num <= BLOCK
  {
    var left := BLOCK - page % BLOCK;
    if end - page < left then end - page else left
  }

  // Between words, runs are whole words.
  lemma RunAligned(page: nat, end: nat)
    requires page < end && page % BITS_PER_LONG == 0 && end % BITS_PER_LONG == 0
    ensures page % BLOCK % BITS_PER_LONG == 0 && RunLength(page, end) % BITS_PER_LONG == 0
    ensures (page + RunLength(page, end)) % BITS_PER_LONG == 0
  {
    var k, l := page / BITS_PER_LONG, end / BITS_PER_LONG;
    var q, r := k / 32768, k % 32768;
    assert page == q * BLOCK + r * BITS_PER_LONG;
    QuotientUnique(q, r * BITS_PER_LONG, BLOCK);
    var run := RunLength(page, end);
    assert run == (l - k) * BITS_PER_LONG || run == (32768 - r) * BITS_PER_LONG;
  }

  // -------------------------------------------------------------------- the loops

  // the loop of cpu_physical_memory_set_dirty_range, for one client
  method SetRange(b: Blocks, page0: nat, end: nat) returns (b': Blocks)
    requires BlocksOk(b) && end <= |b| * BLOCK
    ensures Filled(b, b', page0, end, true)
  {
    b' := b;
    var page := page0;
    var idx, offset := page / BLOCK, page % BLOCK;
    var base := page - offset;
    while page < end
      invariant page0 <= page && (page <= end || page == page0)
      invariant page < end ==> idx == page / BLOCK && offset == page % BLOCK && base == page - offset
      invariant Filled(b, b', page0, page, true)
    {
      var next := if end < base + BLOCK then end else base + BLOCK;
      FilledRun(b', page, next - page, true);
      FilledJoin(b, b', b'[idx := FillRun(b'[idx], offset, next - page, true)], page0, page, next, true);
      b' := b'[idx := FillRun(b'[idx], offset, next - page, true)];
      page, idx, offset, base := next, idx + 1, 0, base + BLOCK;
    }
  }

  // the loop of cpu_physical_memory_test_and_clear_dirty
  method TestAndClear(b: Blocks, page0: nat, end: nat) returns (dirty: bool, b': Blocks)
    requires BlocksOk(b) && end <= |b| * BLOCK
    ensures dirty <==> AnyDirty(b, page0, end)
    ensures Filled(b, b', page0, end, false)
  {
    b', dirty := b, false;
    var page := page0;
    while page < end
      invariant page0 <= page && (page <= end || page == page0)
      invariant Filled(b, b', page0, page, false)
      invariant dirty <==> AnyDirty(b, page0, page)
    {
      var idx, offset := page / BLOCK, page % BLOCK;
      var num := RunLength(page, end);
      var run := RunBits(b', page, num);
      RunDirty(b, b', page0, page, num);
      dirty := dirty || true in run;
      FilledRun(b', page, num, false);
      FilledJoin(b, b', b'[idx := FillRun(b'[idx], offset, num, false)], page0, page, page + num, false);
      b' := b'[idx := FillRun(b'[idx], offset, num, false)];
      page := page + num;
    }
  }

  // What is still there of a run, from `page` on, is what was there at first.
  lemma RunDirty(b: Blocks, b': Blocks, page0: nat, page: nat, num: nat)
    requires BlocksOk(b) && Filled(b, b', page0, page, false) && page0 <= page
    requires page / BLOCK < |b| && page % BLOCK + num <= BLOCK
    ensures forall i: nat :: i < num ==> RunBits(b', page, num)[i] == IsDirty(b, page + i)
    ensures AnyDirty(b, page0, page + num) <==> AnyDirty(b, page0, page) || true in RunBits(b', page, num)
  {
    var idx, offset := page / BLOCK, page % BLOCK;
    var run := RunBits(b', page, num);
    forall i: nat | i < num
      ensures run[i] == IsDirty(b, page + i)
    {
      assert (page + i) / BLOCK == idx && (page + i) % BLOCK == offset + i;
      assert IsDirty(b', page + i) == IsDirty(b, page + i);
    }
    if AnyDirty(b, page0, page + num) {
      var p: nat :| page0 <= p < page + num && IsDirty(b, p);
      if p >= page {
        assert run[p - page] == IsDirty(b, page + (p - page));
      }
    }
    if true in run {
      var i :| 0 <= i < |run| && run[i];
      assert IsDirty(b, page + i);
    }
  }

  // the loop of cpu_physical_memory_snapshot_and_clear_dirty, which copies whole words
  method CopyAndClear(b: Blocks, page0: nat, end: nat) returns (bits: seq<bool>, b': Blocks)
    requires BlocksOk(b) && page0 <= end <= |b| * BLOCK && page0 % BITS_PER_LONG == 0 && end % BITS_PER_LONG == 0
    ensures |bits| == end - page0
    ensures forall i: nat :: i < |bits| ==> bits[i] == IsDirty(b, page0 + i)
    ensures Filled(b, b', page0, end, false)
  {
    bits, b' := [], b;
    var page := page0;
    while page < end
      invariant page0 <= page <= end && page % BITS_PER_LONG == 0
      invariant Filled(b, b', page0, page, false)
      invariant |bits| == page - page0
      invariant forall i: nat :: i < |bits| ==> bits[i] == IsDirty(b, page0 + i)
    {
      var idx, offset := page / BLOCK, page % BLOCK;
      var num := RunLength(page, end);
      RunAligned(page, end);
      assert offset % BITS_PER_LONG == 0 && num % BITS_PER_LONG == 0;
      RunDirty(b, b', page0, page, num);
      bits := bits + RunBits(b', page, num);
      FilledRun(b', page, num, false);
      FilledJoin(b, b', b'[idx := FillRun(b'[idx], offset, num, false)], page0, page, page + num, false);
      b' := b'[idx := FillRun(b'[idx], offset, num, false)];
      page := page + num;
    }
  }

  // ------------------------------------------------------------------- addresses

  // addr >> TARGET_PAGE_BITS
  function PageOf(page: nat, addr: nat): nat
    requires page > 0
  {
    Quot(addr, page)
  }

  // TARGET_PAGE_ALIGN(addr) >> TARGET_PAGE_BITS
  function PageEnd(page: nat, addr: nat): nat
    requires page > 0
  {
    Quot(addr + page - 1, page)
  }

  // Some byte of the range lies in page p.
  ghost predicate Holds(page: nat, start: nat, length: nat, p: nat) {
    p * page < start + length && start < (p + 1) * page
  }

  // The pages between the bounds are those that hold bytes of the range.
  lemma PagesOfRange(page: nat, start: nat, length: nat, p: nat)
    requires page > 0 && length > 0
    ensures PageOf(page, start) <= p < PageEnd(page, start + length) <==> Holds(page, start, length, p)
  {
    var s, e := PageOf(page, start), PageEnd(page, start + length);
    RoundDownIs(start, page);
    RoundDownIs(start + length + page - 1, page);
    Distribute(p, 1, page);
    Distribute(s, 1, page);
    if s <= p {
      MulMonotone(s + 1, p + 1, page);
    } else {
      MulMonotone(p + 1, s, page);
    }
    if p < e {
      MulMonotone(p + 1, e, page);
    } else {
      MulMonotone(e, p, page);
    }
  }

  function RoundUp(n: nat, d: nat): nat
    requires d > 0
  {
    RoundDown(n + d - 1, d)
  }

  lemma WholeWords(page: nat, k: nat)
    requires page > 0
    ensures k * (page * BITS_PER_LONG) == (k * BITS_PER_LONG) * page
    ensures Multiple(k * (page * BITS_PER_LONG), page) && PageOf(page, k * (page * BITS_PER_LONG)) == k * BITS_PER_LONG
  {
    MulAssociates(k, BITS_PER_LONG, page);
    MultipleOf(k * BITS_PER_LONG, page);
  }

  // The words that hold a range begin and end on whole words, hold the range, and have
  // bits if the range has.
  lemma SnapshotFirst(page: nat, start: nat)
    requires page > 0
    ensures var first := RoundDown(start, page * BITS_PER_LONG);
      && first <= start && PageOf(page, first) <= PageOf(page, start)
      && PageOf(page, first) % BITS_PER_LONG == 0 && Multiple(first, page)
  {
    var align := page * BITS_PER_LONG;
    RoundDownIs(start, align);
    WholeWords(page, Quot(start, align));
    QuotMonotone(RoundDown(start, align), start, page);
  }

  lemma SnapshotLast(page: nat, n: nat, blocks: nat)
    requires page > 0 && PageEnd(page, n) <= blocks * BLOCK
    ensures var last := RoundUp(n, page * BITS_PER_LONG);
      && n <= last && PageEnd(page, n) <= PageOf(page, last) <= blocks * BLOCK
      && PageOf(page, last) % BITS_PER_LONG == 0 && Multiple(last, page)
  {
    var align := page * BITS_PER_LONG;
    var l := Quot(n + align - 1, align);
    RoundDownIs(n + align - 1, align);
    WholeWords(page, l);
    SnapshotFits(page, n, l, blocks);
  }

  lemma SnapshotFits(page: nat, n: nat, l: nat, blocks: nat)
    requires page > 0 && PageEnd(page, n) <= blocks * BLOCK && l == Quot(n + page * BITS_PER_LONG - 1, page * BITS_PER_LONG)
    ensures PageEnd(page, n) <= l * BITS_PER_LONG <= blocks * BLOCK
  {
    var align, e := page * BITS_PER_LONG, PageEnd(page, n);
    RoundDownIs(n + page - 1, page);
    RoundDownIs(n + align - 1, align);
    WholeWords(page, l);
    Distribute(l * BITS_PER_LONG, 1, page);
    if l * BITS_PER_LONG < e {
      MulMonotone(l * BITS_PER_LONG + 1, e, page);
    }
    var words := blocks * (BLOCK / BITS_PER_LONG);
    Distribute(words, 1, align);
    WholeWords(page, words);
    MulMonotone(e, words * BITS_PER_LONG, page);
    if words < l {
      MulMonotone(words + 1, l, align);
    }
  }
}
