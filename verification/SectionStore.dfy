// The sections and subpage tables of a dispatch, as values: what each section
// number answers for the addresses it covers, while sections are registered.
module SectionStores {
  import opened Arithmetic
  import opened PhysPageTable
  import opened FlatViews

  // Size of the address space and of a page.
  datatype Geometry = Geometry(space: nat, page: nat) {
    predicate Ok() {
      0 < page < space && Multiple(space, page)
    }

    function Count(): nat
      requires 0 < page
    {
      Quot(space, page)
    }

    function PageOf(addr: nat): (p: nat)
      requires Ok() && addr < space
      ensures p < Count()
    {
      QuotLess(addr, space, page);
      Quot(addr, page)
    }

    // SUBPAGE_IDX
    function ByteOf(addr: nat): (b: nat)
      requires 0 < page
      ensures b < page
    {
      Wrap(addr, page)
    }
  }

  // `view` lists what has been registered so far.
  datatype Store = Store(sections: seq<Section>, subpages: seq<seq<nat>>, view: seq<Section>)

  ghost predicate StoreOk(g: Geometry, st: Store)
    requires g.Ok()
  {
    && 1 <= |st.sections| && st.sections[SECTION_UNASSIGNED] == Section(0, g.space, Unassigned, 0)
    && (forall i :: 0 <= i < |st.view| ==> SectionOk(g.space, st.view[i]))
    && (forall s {:trigger NumberOk(g, st, s)} :: 1 <= s < |st.sections| ==> NumberOk(g, st, s))
    && (forall k {:trigger TableOk(g, st, k)} :: 0 <= k < |st.subpages| ==> TableOk(g, st, k))
    && OwnTables(st)
  }

  // No two sections share a subpage table.
  ghost predicate OwnTables(st: Store) {
    forall s, s' :: 1 <= s < s' < |st.sections| && st.sections[s].mr.Subpage? ==>
      st.sections[s].mr != st.sections[s'].mr
  }

  ghost predicate NumberOk(g: Geometry, st: Store, s: nat)
    requires g.Ok() && s < |st.sections|
  {
    var x := st.sections[s];
    && 0 < x.size && x.base + x.size <= g.space && !x.mr.Unassigned?
    && (x.mr.Subpage? ==> x.mr.table < |st.subpages| && x.size == g.page && Multiple(x.base, g.page))
  }

  ghost predicate TableOk(g: Geometry, st: Store, k: nat)
    requires k < |st.subpages|
  {
    var table := st.subpages[k];
    && |table| == g.page
    && forall b :: 0 <= b < g.page ==>
         table[b] < |st.sections| && (table[b] == SECTION_UNASSIGNED || st.sections[table[b]].mr.Region?)
  }

  // The section number after resolving subpages.
  ghost function Resolve(g: Geometry, st: Store, s: nat, addr: nat): nat
    requires g.Ok() && StoreOk(g, st) && s < |st.sections|
  {
    if s != SECTION_UNASSIGNED && st.sections[s].mr.Subpage? then
      assert NumberOk(g, st, s);
      assert TableOk(g, st, st.sections[s].mr.table);
      st.subpages[st.sections[s].mr.table][g.ByteOf(addr)]
    else s
  }

  ghost predicate Right(g: Geometry, st: Store, s: nat, addr: nat)
    requires g.Ok() && StoreOk(g, st) && s < |st.sections|
  {
    && Resolve(g, st, s, addr) < |st.sections|
    && Covers(g.space, st.sections[Resolve(g, st, s, addr)], addr)
    && HitOf(g.space, st.sections[Resolve(g, st, s, addr)], addr) == Linear(g.space, st.view, addr)
  }

  // What section number s is to a caller who asked for addr: the section itself, or the
  // subpage of the page, whose table leads to the section; and it is unassigned only where
  // the view has nothing.
  ghost predicate Answers(g: Geometry, st: Store, s: nat, addr: nat)
    requires g.Ok() && StoreOk(g, st) && s < |st.sections|
  {
    && Covers(g.space, st.sections[s], addr) && Right(g, st, s, addr)
    && (s == SECTION_UNASSIGNED ==> Free(g.space, st.view, addr))
    && (st.sections[s].mr.Region? ==> HitOf(g.space, st.sections[s], addr) == Linear(g.space, st.view, addr))
  }

  lemma RightAnswers(g: Geometry, st: Store, s: nat, addr: nat)
    requires g.Ok() && StoreOk(g, st) && s < |st.sections| && addr < g.space
    requires Right(g, st, s, addr) && Covers(g.space, st.sections[s], addr)
    ensures var r := Resolve(g, st, s, addr); r < |st.sections| && Answers(g, st, r, addr) && !st.sections[r].mr.Subpage?
    ensures Answers(g, st, s, addr)
  {
    var r := Resolve(g, st, s, addr);
    if s != SECTION_UNASSIGNED && st.sections[s].mr.Subpage? {
      assert NumberOk(g, st, s) && TableOk(g, st, st.sections[s].mr.table);
    }
    LinearFree(g.space, st.view, addr);
  }

  // Every section number other than 0 answers rightly where it covers.
  ghost predicate Sound(g: Geometry, st: Store)
    requires g.Ok() && StoreOk(g, st)
  {
    forall s, addr: nat {:trigger Right(g, st, s, addr)} ::
      1 <= s < |st.sections| && addr < g.space && Covers(g.space, st.sections[s], addr) ==> Right(g, st, s, addr)
  }

  // A section number of a region never covers a vacant byte.
  lemma RegionOccupies(g: Geometry, st: Store, s: nat, addr: nat)
    requires g.Ok() && StoreOk(g, st) && Sound(g, st) && 1 <= s < |st.sections| && addr < g.space
    requires st.sections[s].mr.Region? && Covers(g.space, st.sections[s], addr)
    ensures !Free(g.space, st.view, addr)
  {
    assert Right(g, st, s, addr);
    LinearFree(g.space, st.view, addr);
  }

  // Registering a section whose bytes no subpage table serves.
  lemma SoundAppend(g: Geometry, st: Store, st': Store, sec: Section)
    requires g.Ok() && StoreOk(g, st) && Sound(g, st) && SectionOk(g.space, sec) && Vacant(g.space, st.view, sec)
    requires st' == Store(st.sections + [sec], st.subpages, st.view + [sec])
    requires forall s, addr: nat :: 1 <= s < |st.sections| && addr < g.space && st.sections[s].mr.Subpage? ==>
               !(Covers(g.space, st.sections[s], addr) && Covers(g.space, sec, addr))
    ensures StoreOk(g, st') && Sound(g, st')
  {
    StoreAppend(g, st, st', sec);
    forall s, addr: nat | 1 <= s < |st'.sections| && addr < g.space && Covers(g.space, st'.sections[s], addr)
      ensures Right(g, st', s, addr)
    {
      AppendedHit(g, st, sec, addr);
      if s < |st.sections| {
        assert Right(g, st, s, addr) && NumberOk(g, st, s);
        if Covers(g.space, sec, addr) {
          RegionOccupies(g, st, s, addr);
        }
        SameAnswer(g, st, st', s, addr);
      }
    }
  }

  lemma StoreAppend(g: Geometry, st: Store, st': Store, sec: Section)
    requires g.Ok() && StoreOk(g, st) && SectionOk(g.space, sec)
    requires st'.sections == st.sections + [sec] && st'.subpages == st.subpages
    requires st'.view == st.view + [sec]
    ensures StoreOk(g, st')
  {
    forall s | 1 <= s < |st'.sections|
      ensures NumberOk(g, st', s)
    {
      assert s < |st.sections| ==> NumberOk(g, st, s);
    }
    forall k | 0 <= k < |st'.subpages|
      ensures TableOk(g, st', k)
    {
      assert TableOk(g, st, k);
    }
  }

  // A fresh table of unassigned bytes for a page with nothing on it.
  lemma SoundNewTable(g: Geometry, st: Store, st': Store, base: nat)
    requires g.Ok() && StoreOk(g, st) && Sound(g, st) && Multiple(base, g.page) && base + g.page <= g.space
    requires forall addr: nat :: base <= addr < base + g.page ==> Free(g.space, st.view, addr)
    requires st'.sections == st.sections + [Section(base, g.page, Subpage(|st.subpages|), 0)]
    requires st'.subpages == st.subpages + [seq(g.page, _ => SECTION_UNASSIGNED)] && st'.view == st.view
    ensures StoreOk(g, st') && Sound(g, st')
  {
    StoreNewTable(g, st, st', base);
    forall s, addr: nat | 1 <= s < |st'.sections| && addr < g.space && Covers(g.space, st'.sections[s], addr)
      ensures Right(g, st', s, addr)
    {
      if s < |st.sections| {
        assert Right(g, st, s, addr);
        SameAnswer(g, st, st', s, addr);
      } else {
        LinearFree(g.space, st.view, addr);
        UnassignedHit(g.space, addr);
      }
    }
  }

  lemma UnassignedHit(space: nat, addr: nat)
    requires addr < space
    ensures HitOf(space, Section(0, space, Unassigned, 0), addr) == Hit(Unassigned, addr)
  {
  }

  // Section s keeps its answer when its table entry and the reference do.
  lemma SameAnswer(g: Geometry, st: Store, st': Store, s: nat, addr: nat)
    requires g.Ok() && StoreOk(g, st) && StoreOk(g, st') && 1 <= s < |st.sections|
    requires st.sections <= st'.sections && |st.subpages| <= |st'.subpages| && addr < g.space
    requires st.sections[s].mr.Subpage? && st.sections[s].mr.table < |st.subpages| ==>
               st'.subpages[st.sections[s].mr.table] == st.subpages[st.sections[s].mr.table]
    requires Right(g, st, s, addr) && Linear(g.space, st'.view, addr) == Linear(g.space, st.view, addr)
    ensures Right(g, st', s, addr)
  {
    assert NumberOk(g, st, s) && NumberOk(g, st', s);
  }

  lemma StoreNewTable(g: Geometry, st: Store, st': Store, base: nat)
    requires g.Ok() && StoreOk(g, st) && Multiple(base, g.page) && base + g.page <= g.space
    requires st'.sections == st.sections + [Section(base, g.page, Subpage(|st.subpages|), 0)]
    requires st'.subpages == st.subpages + [seq(g.page, _ => SECTION_UNASSIGNED)] && st'.view == st.view
    ensures StoreOk(g, st')
  {
    forall s | 1 <= s < |st'.sections|
      ensures NumberOk(g, st', s)
    {
      assert s < |st.sections| ==> NumberOk(g, st, s);
    }
    forall k | 0 <= k < |st'.subpages|
      ensures TableOk(g, st', k)
    {
      assert k < |st.subpages| ==> TableOk(g, st, k);
    }
    forall s, s' | 1 <= s < s' < |st'.sections| && st'.sections[s].mr.Subpage?
      ensures st'.sections[s].mr != st'.sections[s'].mr
    {
      assert NumberOk(g, st, s);
    }
  }

  // Writing the bytes of sec into the table that serves its page.
  lemma SoundWriteTable(g: Geometry, st: Store, st': Store, n: nat, sec: Section)
    requires g.Ok() && StoreOk(g, st) && Sound(g, st) && SectionOk(g.space, sec) && Vacant(g.space, st.view, sec)
    requires 1 <= n < |st.sections| && st.sections[n].mr.Subpage? && st.sections[n].mr.table < |st.subpages|
    requires st.sections[n].base <= sec.base && sec.base + sec.size <= st.sections[n].base + g.page
    requires forall s, addr: nat :: 1 <= s < |st.sections| && s != n && addr < g.space && st.sections[s].mr.Subpage? ==>
               !(Covers(g.space, st.sections[s], addr) && Covers(g.space, sec, addr))
    requires st'.sections == st.sections + [sec] && st'.view == st.view + [sec]
    requires st'.subpages == st.subpages[st.sections[n].mr.table := Overwritten(g, st, n, sec)]
    ensures StoreOk(g, st') && Sound(g, st')
  {
    StoreWriteTable(g, st, st', n, sec);
    forall s, addr: nat | 1 <= s < |st'.sections| && addr < g.space && Covers(g.space, st'.sections[s], addr)
      ensures Right(g, st', s, addr)
    {
      AppendedHit(g, st, sec, addr);
      if s == |st.sections| {
      } else if s == n {
        assert Right(g, st, n, addr);
        WrittenAnswer(g, st, st', n, sec, addr);
      } else {
        assert Right(g, st, s, addr) && NumberOk(g, st, s);
        if Covers(g.space, sec, addr) {
          RegionOccupies(g, st, s, addr);
        }
        OtherTable(st, n, s);
        SameAnswer(g, st, st', s, addr);
      }
    }
  }

  lemma OtherTable(st: Store, n: nat, s: nat)
    requires OwnTables(st) && 1 <= n < |st.sections| && 1 <= s < |st.sections| && n != s && st.sections[n].mr.Subpage?
    ensures st.sections[s].mr != st.sections[n].mr
  {
    if s < n && st.sections[s].mr.Subpage? {
      assert st.sections[s].mr != st.sections[n].mr;
    }
  }

  // The reference after a vacant section was added.
  lemma AppendedHit(g: Geometry, st: Store, sec: Section, addr: nat)
    requires g.Ok() && StoreOk(g, st) && Vacant(g.space, st.view, sec) && addr < g.space
    ensures Linear(g.space, st.view + [sec], addr) ==
            if Covers(g.space, sec, addr) then HitOf(g.space, sec, addr) else Linear(g.space, st.view, addr)
  {
    LinearAppend(g.space, st.view, sec, addr);
    LinearFree(g.space, st.view, addr);
    assert [sec][1..] == [];
  }

  // The subpage section whose table was written answers rightly.
  lemma WrittenAnswer(g: Geometry, st: Store, st': Store, n: nat, sec: Section, addr: nat)
    requires g.Ok() && StoreOk(g, st) && StoreOk(g, st') && addr < g.space
    requires 1 <= n < |st.sections| && st.sections[n].mr.Subpage? && st.sections[n].mr.table < |st.subpages|
    requires st.sections[n].base <= sec.base && Covers(g.space, st.sections[n], addr) && Right(g, st, n, addr)
    requires SectionOk(g.space, sec) && sec.size < g.space
    requires st'.sections == st.sections + [sec]
    requires st'.subpages == st.subpages[st.sections[n].mr.table := Overwritten(g, st, n, sec)]
    requires Linear(g.space, st'.view, addr) ==
             if Covers(g.space, sec, addr) then HitOf(g.space, sec, addr) else Linear(g.space, st.view, addr)
    ensures Right(g, st', n, addr)
  {
    assert NumberOk(g, st, n) && TableOk(g, st, st.sections[n].mr.table);
    ByteInPage(g, st.sections[n].base, addr);
    var b := g.ByteOf(addr);
    assert Resolve(g, st', n, addr) == Overwritten(g, st, n, sec)[b];
    assert Covers(g.space, sec, addr) <==> sec.base - st.sections[n].base <= b < sec.base - st.sections[n].base + sec.size;
  }

  // subpage_register: bytes lo to lo + n - 1 of a table get section number x.
  ghost function Written(table: seq<nat>, lo: int, n: nat, x: nat): (t: seq<nat>)
    ensures |t| == |table|
    ensures forall b :: 0 <= b < |t| ==> t[b] == if lo <= b < lo + n then x else table[b]
  {
    seq(|table|, b requires 0 <= b < |table| => if lo <= b < lo + n then x else table[b])
  }

  // The table of section n after the number that sec gets was written.
  ghost function Overwritten(g: Geometry, st: Store, n: nat, sec: Section): seq<nat>
    requires n < |st.sections| && st.sections[n].mr.Subpage? && st.sections[n].mr.table < |st.subpages|
  {
    Written(st.subpages[st.sections[n].mr.table], sec.base - st.sections[n].base, sec.size, |st.sections|)
  }

  lemma ByteInPage(g: Geometry, base: nat, addr: nat)
    requires g.Ok() && Multiple(base, g.page) && base <= addr < base + g.page && addr < g.space
    ensures g.ByteOf(addr) == addr - base && g.PageOf(addr) == Quot(base, g.page)
  {
    InBlock(base, addr - base, g.page);
  }

  lemma StoreWriteTable(g: Geometry, st: Store, st': Store, n: nat, sec: Section)
    requires g.Ok() && StoreOk(g, st) && SectionOk(g.space, sec)
    requires 1 <= n < |st.sections| && st.sections[n].mr.Subpage? && st.sections[n].mr.table < |st.subpages|
    requires st'.sections == st.sections + [sec] && st'.view == st.view + [sec]
    requires st'.subpages == st.subpages[st.sections[n].mr.table := Overwritten(g, st, n, sec)]
    ensures StoreOk(g, st')
  {
    forall s | 1 <= s < |st'.sections|
      ensures NumberOk(g, st', s)
    {
      assert s < |st.sections| ==> NumberOk(g, st, s);
    }
    forall k | 0 <= k < |st'.subpages|
      ensures TableOk(g, st', k)
    {
      assert TableOk(g, st, k);
    }
  }

  // A section of whole pages covers the addresses of a run of pages.
  lemma WholePages(g: Geometry, sec: Section, addr: nat)
    requires g.Ok() && SectionOk(g.space, sec) && Multiple(sec.base, g.page) && Multiple(sec.size, g.page) && addr < g.space
    ensures Covers(g.space, sec, addr) <==> Quot(sec.base, g.page) <= g.PageOf(addr) < Quot(sec.base, g.page) + Quot(sec.size, g.page)
  {
    assert Covers(g.space, sec, addr) <==> sec.base <= addr < sec.base + sec.size;
    RunOfPages(sec.base, sec.size, g.page, addr);
  }

  lemma RunOfPages(base: nat, size: nat, page: nat, addr: nat)
    requires 0 < page && Multiple(base, page) && Multiple(size, page)
    ensures base <= addr < base + size <==> Quot(base, page) <= Quot(addr, page) < Quot(base, page) + Quot(size, page)
  {
    MultipleAdd(base, size, page);
    QuotAtLeast(addr, base, page);
    QuotAtLeast(addr, base + size, page);
  }

  // The first address of a page of a section of whole pages.
  lemma PageStart(g: Geometry, sec: Section, page: nat) returns (addr: nat)
    requires g.Ok() && SectionOk(g.space, sec) && Multiple(sec.base, g.page) && Multiple(sec.size, g.page)
    requires Quot(sec.base, g.page) <= page < Quot(sec.base, g.page) + Quot(sec.size, g.page)
    ensures addr < g.space && g.PageOf(addr) == page && Covers(g.space, sec, addr)
  {
    addr := page * g.page;
    MultipleOf(page, g.page);
    RunOfPages(sec.base, sec.size, g.page, addr);
  }

  // ------------------------------------------------------------ the page table

  // Section s covers a registered byte.
  ghost predicate Occupied(g: Geometry, st: Store, s: nat) {
    && s < |st.sections|
    && exists addr: nat :: addr < g.space && Covers(g.space, st.sections[s], addr) && !Free(g.space, st.view, addr)
  }

  // The page table, which gives table[page] for each page and holds the section
  // numbers in `paged`, maps each of these to exactly the pages it covers and
  // leaves no registered byte out. Each of them covers a registered byte, except
  // perhaps `hollow`, a subpage still without sections.
  ghost predicate PagesOk(g: Geometry, st: Store, paged: set<nat>, table: seq<nat>, hollow: int) {
    && g.Ok() && |table| == g.Count()
    && (forall s {:trigger PagedOk(g, st, paged, hollow, s)} :: 0 <= s < |st.sections| ==> PagedOk(g, st, paged, hollow, s))
    && (forall s :: s in paged ==> s < |st.sections|)
    && (forall page :: 0 <= page < |table| ==> table[page] < |st.sections|)
    && (forall page {:trigger EntryPaged(paged, table, page)} :: 0 <= page < |table| ==> EntryPaged(paged, table, page))
    && (forall s, addr: nat {:trigger Maps(g, st, table, s, addr)} :: s in paged && addr < g.space ==> Maps(g, st, table, s, addr))
    && (forall addr: nat {:trigger Kept(g, st, table, addr)} :: addr < g.space ==> Kept(g, st, table, addr))
  }

  // Only section numbers that cover a registered byte are in the page table, and all
  // subpages are.
  ghost predicate PagedOk(g: Geometry, st: Store, paged: set<nat>, hollow: int, s: nat)
    requires s < |st.sections|
  {
    && (s in paged ==> 1 <= s && (s == hollow || Occupied(g, st, s)))
    && (1 <= s && st.sections[s].mr.Subpage? ==> s in paged)
  }

  ghost predicate EntryPaged(paged: set<nat>, table: seq<nat>, page: nat)
    requires page < |table|
  {
    table[page] == SECTION_UNASSIGNED || table[page] in paged
  }

  // Section s is at the page of addr exactly if it covers addr.
  ghost predicate Maps(g: Geometry, st: Store, table: seq<nat>, s: nat, addr: nat)
    requires g.Ok() && |table| == g.Count() && s < |st.sections| && addr < g.space
  {
    Covers(g.space, st.sections[s], addr) <==> table[g.PageOf(addr)] == s
  }

  // A registered byte is not left out.
  ghost predicate Kept(g: Geometry, st: Store, table: seq<nat>, addr: nat)
    requires g.Ok() && |table| == g.Count() && addr < g.space
  {
    !Free(g.space, st.view, addr) ==> table[g.PageOf(addr)] != SECTION_UNASSIGNED
  }

  // A section that covers no registered byte only meets unassigned pages and
  // subpages.
  lemma VacantPage(g: Geometry, st: Store, paged: set<nat>, table: seq<nat>, sec: Section, addr: nat)
    requires g.Ok() && StoreOk(g, st) && Sound(g, st) && PagesOk(g, st, paged, table, -1)
    requires Vacant(g.space, st.view, sec) && addr < g.space && Covers(g.space, sec, addr)
    ensures var s := table[g.PageOf(addr)];
            s == SECTION_UNASSIGNED || (s in paged && st.sections[s].mr.Subpage?)
  {
    var s := table[g.PageOf(addr)];
    assert EntryPaged(paged, table, g.PageOf(addr));
    if s != SECTION_UNASSIGNED {
      assert Maps(g, st, table, s, addr) && NumberOk(g, st, s);
      if st.sections[s].mr.Region? {
        RegionOccupies(g, st, s, addr);
      }
    }
  }

  // A vacant section of whole pages only meets unassigned pages: a subpage holds
  // a registered byte of its one page.
  lemma VacantPages(g: Geometry, st: Store, paged: set<nat>, table: seq<nat>, sec: Section, addr: nat)
    requires g.Ok() && StoreOk(g, st) && Sound(g, st) && PagesOk(g, st, paged, table, -1)
    requires SectionOk(g.space, sec) && Multiple(sec.base, g.page) && Multiple(sec.size, g.page)
    requires Vacant(g.space, st.view, sec) && addr < g.space && Covers(g.space, sec, addr)
    ensures table[g.PageOf(addr)] == SECTION_UNASSIGNED
  {
    VacantPage(g, st, paged, table, sec, addr);
    var s := table[g.PageOf(addr)];
    if s != SECTION_UNASSIGNED {
      assert PagedOk(g, st, paged, -1, s) && NumberOk(g, st, s) && Maps(g, st, table, s, addr);
      var byte: nat :| byte < g.space && Covers(g.space, st.sections[s], byte) && !Free(g.space, st.view, byte);
      ByteInPage(g, st.sections[s].base, byte);
      ByteInPage(g, st.sections[s].base, addr);
      WholePages(g, sec, addr);
      WholePages(g, sec, byte);
      assert false;
    }
  }

  // register_multipage keeps the page table right.
  lemma PagesAppend(g: Geometry, st: Store, st': Store, paged: set<nat>, table: seq<nat>, table': seq<nat>,
                    sec: Section, first: nat, n: nat)
    requires g.Ok() && StoreOk(g, st) && Sound(g, st) && PagesOk(g, st, paged, table, -1)
    requires SectionOk(g.space, sec) && Multiple(sec.base, g.page) && Multiple(sec.size, g.page) && Vacant(g.space, st.view, sec)
    requires st' == Store(st.sections + [sec], st.subpages, st.view + [sec])
    requires |table'| == |table| && first == Quot(sec.base, g.page) && n == Quot(sec.size, g.page)
    requires forall page :: 0 <= page < |table| ==>
               table'[page] == if first <= page < first + n then |st.sections| else table[page]
    ensures StoreOk(g, st') && Sound(g, st') && PagesOk(g, st', paged + {|st.sections|}, table', -1)
  {
    forall addr: nat | addr < g.space
      ensures Covers(g.space, sec, addr) ==> table[g.PageOf(addr)] == SECTION_UNASSIGNED
      ensures table'[g.PageOf(addr)] == if Covers(g.space, sec, addr) then |st.sections| else table[g.PageOf(addr)]
    {
      WholePages(g, sec, addr);
      if Covers(g.space, sec, addr) {
        VacantPages(g, st, paged, table, sec, addr);
      }
    }
    forall s, addr: nat | 1 <= s < |st.sections| && addr < g.space && st.sections[s].mr.Subpage?
      ensures !(Covers(g.space, st.sections[s], addr) && Covers(g.space, sec, addr))
    {
      assert PagedOk(g, st, paged, -1, s) && Maps(g, st, table, s, addr);
    }
    SoundAppend(g, st, st', sec);
    PagesAdd(g, st, st', paged, table, table', sec, sec);
    OccupiedKept(g, st, st', sec);
    OccupiedBy(g, st', |st.sections|, sec);
    PagedAdd(g, st, st', paged, -1, -1);
  }

  // The page table after the pages that x covers, all unassigned, were given to x, and
  // the view grew by no more than what x covers.
  lemma PagesAdd(g: Geometry, st: Store, st': Store, paged: set<nat>, table: seq<nat>, table': seq<nat>, x: Section, sec: Section)
    requires PagesOk(g, st, paged, table, -1) && |table'| == |table| && 1 <= |st.sections|
    requires st'.sections == st.sections + [x]
    requires forall page :: 0 <= page < |table| ==> table'[page] == table[page] || table'[page] == |st.sections|
    requires forall addr: nat :: addr < g.space ==>
               table'[g.PageOf(addr)] == if Covers(g.space, x, addr) then |st.sections| else table[g.PageOf(addr)]
    requires forall addr: nat :: addr < g.space && Covers(g.space, x, addr) ==> table[g.PageOf(addr)] == SECTION_UNASSIGNED
    requires st'.view == st.view || (st'.view == st.view + [sec] && sec == x)
    ensures forall page {:trigger EntryPaged(paged + {|st.sections|}, table', page)} :: 0 <= page < |table'| ==>
              EntryPaged(paged + {|st.sections|}, table', page)
    ensures forall s, addr: nat {:trigger Maps(g, st', table', s, addr)} :: s in paged + {|st.sections|} && addr < g.space ==>
              s < |st'.sections| && Maps(g, st', table', s, addr)
    ensures forall addr: nat {:trigger Kept(g, st', table', addr)} :: addr < g.space ==> Kept(g, st', table', addr)
  {
    forall page | 0 <= page < |table'|
      ensures EntryPaged(paged + {|st.sections|}, table', page)
    {
      assert EntryPaged(paged, table, page);
    }
    forall s, addr: nat | s in paged + {|st.sections|} && addr < g.space
      ensures s < |st'.sections| && Maps(g, st', table', s, addr)
    {
      assert EntryPaged(paged, table, g.PageOf(addr));
      if s in paged {
        assert Maps(g, st, table, s, addr) && PagedOk(g, st, paged, -1, s);
      }
    }
    forall addr: nat | addr < g.space
      ensures Kept(g, st', table', addr)
    {
      assert Kept(g, st, table, addr);
      if !Free(g.space, st'.view, addr) && Free(g.space, st.view, addr) {
        FreeAppend(g.space, st.view, sec, addr);
      }
    }
  }

  // The set of section numbers grows by the last one.
  lemma PagedAdd(g: Geometry, st: Store, st': Store, paged: set<nat>, hollow: int, hollow': int)
    requires |st'.sections| == |st.sections| + 1 && st.sections == st'.sections[..|st.sections|] && 1 <= |st.sections|
    requires forall s {:trigger PagedOk(g, st, paged, hollow, s)} :: 0 <= s < |st.sections| ==> PagedOk(g, st, paged, hollow, s)
    requires forall s: nat :: Occupied(g, st, s) ==> Occupied(g, st', s)
    requires hollow == -1 && (hollow' == |st.sections| || Occupied(g, st', |st.sections|))
    ensures forall s {:trigger PagedOk(g, st', paged + {|st.sections|}, hollow', s)} :: 0 <= s < |st'.sections| ==>
              PagedOk(g, st', paged + {|st.sections|}, hollow', s)
  {
    forall s | 0 <= s < |st'.sections|
      ensures PagedOk(g, st', paged + {|st.sections|}, hollow', s)
    {
      assert s < |st.sections| ==> PagedOk(g, st, paged, hollow, s) && st'.sections[s] == st.sections[s];
    }
  }

  lemma OccupiedBy(g: Geometry, st: Store, s: nat, sec: Section)
    requires s < |st.sections| && |st.view| > 0 && st.view[|st.view| - 1] == sec && SectionOk(g.space, sec)
    requires Covers(g.space, st.sections[s], sec.base)
    ensures Occupied(g, st, s)
  {
    assert Covers(g.space, st.view[|st.view| - 1], sec.base);
  }

  lemma OccupiedKept(g: Geometry, st: Store, st': Store, sec: Section)
    requires st.sections <= st'.sections && st'.view == st.view + [sec]
    ensures forall s: nat :: Occupied(g, st, s) ==> Occupied(g, st', s)
  {
    forall s: nat | Occupied(g, st, s)
      ensures Occupied(g, st', s)
    {
      var addr: nat :| addr < g.space && Covers(g.space, st.sections[s], addr) && !Free(g.space, st.view, addr);
      var i :| 0 <= i < |st.view| && Covers(g.space, st.view[i], addr);
      assert st'.view[i] == st.view[i];
    }
  }

  // A new subpage for an unassigned page.
  lemma PagesNewTable(g: Geometry, st: Store, st': Store, paged: set<nat>, table: seq<nat>, table': seq<nat>, base: nat, page: nat)
    requires g.Ok() && StoreOk(g, st) && Sound(g, st) && PagesOk(g, st, paged, table, -1)
    requires Multiple(base, g.page) && base < g.space && page == g.PageOf(base) && table[page] == SECTION_UNASSIGNED
    requires |table'| == |table|
    requires forall p :: 0 <= p < |table| ==> table'[p] == if page <= p < page + 1 then |st.sections| else table[p]
    requires st'.sections == st.sections + [Section(base, g.page, Subpage(|st.subpages|), 0)]
    requires st'.subpages == st.subpages + [seq(g.page, _ => SECTION_UNASSIGNED)] && st'.view == st.view
    ensures StoreOk(g, st') && Sound(g, st')
    ensures PagesOk(g, st', paged + {|st.sections|}, table', |st.sections|)
  {
    PageInside(g, base);
    forall addr: nat | addr < g.space
      ensures g.PageOf(addr) == g.PageOf(base) <==> base <= addr < base + g.page
    {
      RunOfPages(base, g.page, g.page, addr);
    }
    forall addr: nat | addr < g.space
      ensures table'[g.PageOf(addr)] == if base <= addr < base + g.page then |st.sections| else table[g.PageOf(addr)]
      ensures base <= addr < base + g.page ==> Free(g.space, st.view, addr)
    {
      assert Kept(g, st, table, addr);
    }
    SoundNewTable(g, st, st', base);
    PagesAdd(g, st, st', paged, table, table', Section(base, g.page, Subpage(|st.subpages|), 0), Section(base, g.page, Unassigned, 0));
    OccupiedSame(g, st, st');
    PagedAdd(g, st, st', paged, -1, |st.sections|);
  }

  lemma OccupiedSame(g: Geometry, st: Store, st': Store)
    requires st.sections <= st'.sections && st'.view == st.view
    ensures forall s: nat :: Occupied(g, st, s) ==> Occupied(g, st', s)
  {
  }

  lemma PageInside(g: Geometry, base: nat)
    requires g.Ok() && Multiple(base, g.page) && base < g.space
    ensures base + g.page <= g.space && Multiple(g.page, g.page) && Quot(g.page, g.page) == 1
  {
    InBlock(base, g.page - 1, g.page);
    QuotLess(base, g.space, g.page);
    MultipleAdd(base, g.page, g.page);
    QuotAtLeast(g.space, base + g.page, g.page);
  }

  // addr & TARGET_PAGE_MASK
  lemma PageStartOf(g: Geometry, addr: nat)
    requires g.Ok() && addr < g.space
    ensures RoundDown(addr, g.page) + Wrap(addr, g.page) == addr
    ensures Multiple(RoundDown(addr, g.page), g.page) && g.PageOf(RoundDown(addr, g.page)) == g.PageOf(addr)
  {
    RoundWrap(addr, g.page);
  }

  // subpage_register keeps the page table right.
  lemma PagesWriteTable(g: Geometry, st: Store, st': Store, paged: set<nat>, table: seq<nat>, n: nat, sec: Section)
    requires g.Ok() && StoreOk(g, st) && Sound(g, st) && PagesOk(g, st, paged, table, n)
    requires SectionOk(g.space, sec) && Vacant(g.space, st.view, sec)
    requires n in paged && st.sections[n].mr.Subpage? && st.sections[n].mr.table < |st.subpages|
    requires st.sections[n].base <= sec.base && sec.base + sec.size <= st.sections[n].base + g.page
    requires st'.sections == st.sections + [sec] && st'.view == st.view + [sec]
    requires st'.subpages == st.subpages[st.sections[n].mr.table := Overwritten(g, st, n, sec)]
    ensures StoreOk(g, st') && Sound(g, st') && PagesOk(g, st', paged, table, -1)
  {
    assert NumberOk(g, st, n);
    assert forall addr: nat :: addr < g.space && Covers(g.space, sec, addr) ==> Covers(g.space, st.sections[n], addr);
    forall s, addr: nat | 1 <= s < |st.sections| && s != n && addr < g.space && st.sections[s].mr.Subpage?
      ensures !(Covers(g.space, st.sections[s], addr) && Covers(g.space, sec, addr))
    {
      assert PagedOk(g, st, paged, n, s) && Maps(g, st, table, s, addr) && Maps(g, st, table, n, addr);
    }
    SoundWriteTable(g, st, st', n, sec);
    OccupiedKept(g, st, st', sec);
    OccupiedBy(g, st', n, sec);
    PagesWritten(g, st, st', paged, table, n, sec);
  }

  lemma PagesWritten(g: Geometry, st: Store, st': Store, paged: set<nat>, table: seq<nat>, n: nat, sec: Section)
    requires PagesOk(g, st, paged, table, n) && n in paged && !sec.mr.Subpage?
    requires st'.sections == st.sections + [sec] && st'.view == st.view + [sec]
    requires forall s: nat :: Occupied(g, st, s) ==> Occupied(g, st', s)
    requires Occupied(g, st', n)
    requires forall addr: nat :: addr < g.space && Covers(g.space, sec, addr) ==> Covers(g.space, st.sections[n], addr)
    ensures PagesOk(g, st', paged, table, -1)
  {
    forall s | 0 <= s < |st'.sections|
      ensures PagedOk(g, st', paged, -1, s)
    {
      assert s < |st.sections| ==> PagedOk(g, st, paged, n, s);
    }
    forall page | 0 <= page < |table|
      ensures EntryPaged(paged, table, page)
    {
    }
    forall s, addr: nat | s in paged && addr < g.space
      ensures Maps(g, st', table, s, addr)
    {
      assert Maps(g, st, table, s, addr);
    }
    assert PagedOk(g, st, paged, n, n);
    forall addr: nat | addr < g.space
      ensures Kept(g, st', table, addr)
    {
      assert Kept(g, st, table, addr) && Maps(g, st, table, n, addr);
      FreeAppend(g.space, st.view, sec, addr);
    }
  }

  // The coverage check at the end of phys_page_find.
  // The whole page of addr lies in sec.
  ghost predicate WholePage(g: Geometry, sec: Section, addr: nat)
    requires 0 < g.page
  {
    sec.base <= RoundDown(addr, g.page) && RoundDown(addr, g.page) + g.page <= sec.base + sec.size
  }

  // Pages that lie in sec as a whole lead to it, and not to a subpage.
  ghost predicate Direct(g: Geometry, sec: Section, sections: seq<Section>, table: seq<nat>)
    requires g.Ok() && |table| == g.Count()
  {
    forall addr: nat {:trigger WholePage(g, sec, addr)} :: addr < g.space && WholePage(g, sec, addr) ==>
      var s := table[g.PageOf(addr)]; s < |sections| && sections[s].mr == sec.mr
  }

  // Sections and pages that were there are there still.
  ghost predicate Grew(sections: seq<Section>, table: seq<nat>, sections': seq<Section>, table': seq<nat>) {
    && sections <= sections' && |table'| == |table|
    && forall p :: 0 <= p < |table| && table[p] != SECTION_UNASSIGNED ==> table'[p] == table[p]
  }

  // Of a section that starts on a page, the whole pages are those of its greatest multiple of
  // a page.
  lemma WholePart(g: Geometry, sec: Section, addr: nat)
    requires g.Ok() && Multiple(sec.base, g.page) && WholePage(g, sec, addr)
    ensures RoundDown(addr, g.page) + g.page <= sec.base + RoundDown(sec.size, g.page)
  {
    var start := RoundDown(addr, g.page);
    RoundWrap(addr, g.page);
    MultipleAdd(start, g.page, g.page);
    MultipleBelow(start + g.page, sec.base + sec.size, g.page);
    RoundDownAdd(sec.base, sec.size, g.page);
  }

  // Before the first page boundary there is no whole page.
  lemma WholeRest(g: Geometry, sec: Section, left: nat, addr: nat)
    requires g.Ok() && !Multiple(sec.base, g.page) && left == g.page - Wrap(sec.base, g.page) && WholePage(g, sec, addr)
    ensures left < sec.size && sec.base + left <= RoundDown(addr, g.page)
  {
    var start := RoundDown(addr, g.page);
    RoundWrap(addr, g.page);
    RoundWrap(sec.base, g.page);
    var below := RoundDown(sec.base, g.page);
    if start < below + g.page {
      MultipleBelow(start, below + g.page - 1, g.page);
      InBlock(below, g.page - 1, g.page);
    }
  }

  // What registering sec adds: whole pages are not served through a subpage.
  ghost predicate Placed(g: Geometry, sec: Section, sections: seq<Section>, table: seq<nat>,
                         sections': seq<Section>, table': seq<nat>)
    requires g.Ok() && |table'| == g.Count()
  {
    Grew(sections, table, sections', table') && Direct(g, sec, sections', table')
  }

  lemma PlacedRun(g: Geometry, sec: Section, sections: seq<Section>, table: seq<nat>, table': seq<nat>, first: nat, n: nat)
    requires g.Ok() && SectionOk(g.space, sec) && Multiple(sec.base, g.page) && Multiple(sec.size, g.page)
    requires |table'| == |table| == g.Count() && first == Quot(sec.base, g.page) && n == Quot(sec.size, g.page)
    requires forall page :: first <= page < first + n && page < |table| ==> table[page] == SECTION_UNASSIGNED
    requires forall page :: 0 <= page < |table| ==>
               table'[page] == if first <= page < first + n then |sections| else table[page]
    ensures Placed(g, sec, sections, table, sections + [sec], table')
  {
    forall addr: nat | addr < g.space && WholePage(g, sec, addr)
      ensures table'[g.PageOf(addr)] == |sections|
    {
      RoundWrap(addr, g.page);
      WholePages(g, sec, addr);
    }
  }

  // A section of which only the part `whole` can hold whole pages.
  ghost predicate Holds(g: Geometry, sec: Section, whole: Section)
    requires 0 < g.page
  {
    && whole.mr == sec.mr && sec.mr != Unassigned
    && forall addr: nat {:trigger WholePage(g, sec, addr)} :: WholePage(g, sec, addr) ==> WholePage(g, whole, addr)
  }

  lemma HoldsFront(g: Geometry, sec: Section)
    requires g.Ok() && SectionOk(g.space, sec) && Multiple(sec.base, g.page)
    ensures Holds(g, sec, Front(sec, RoundDown(sec.size, g.page)))
  {
    forall addr: nat | WholePage(g, sec, addr)
      ensures WholePage(g, Front(sec, RoundDown(sec.size, g.page)), addr)
    {
      WholePart(g, sec, addr);
    }
  }

  lemma HoldsRest(g: Geometry, sec: Section, left: nat)
    requires g.Ok() && SectionOk(g.space, sec) && !Multiple(sec.base, g.page)
    requires left == g.page - Wrap(sec.base, g.page) && left < sec.size
    ensures Holds(g, sec, Rest(g.space, sec, left))
  {
    forall addr: nat | WholePage(g, sec, addr)
      ensures WholePage(g, Rest(g.space, sec, left), addr)
    {
      WholeRest(g, sec, left, addr);
    }
  }

  // What lies on one page and is less than a page holds no whole page.
  lemma HoldsNone(g: Geometry, sec: Section, sections: seq<Section>, table: seq<nat>)
    requires g.Ok() && SectionOk(g.space, sec) && |table| == g.Count()
    requires sec.size < g.page && Wrap(sec.base, g.page) + sec.size <= g.page
    ensures Direct(g, sec, sections, table)
  {
    forall addr: nat | addr < g.space
      ensures !WholePage(g, sec, addr)
    {
    }
  }

  lemma PlacedAfter(g: Geometry, sec: Section, whole: Section, sections: seq<Section>, table: seq<nat>,
                    sections': seq<Section>, table': seq<nat>, sections'': seq<Section>, table'': seq<nat>)
    requires g.Ok() && |table''| == |table'| == g.Count() && Holds(g, sec, whole)
    requires Grew(sections, table, sections', table') && Placed(g, whole, sections', table', sections'', table'')
    ensures Placed(g, sec, sections, table, sections'', table'')
  {
  }

  lemma PlacedBefore(g: Geometry, sec: Section, whole: Section, sections: seq<Section>, table: seq<nat>,
                     sections': seq<Section>, table': seq<nat>, sections'': seq<Section>, table'': seq<nat>)
    requires g.Ok() && |table''| == |table'| == g.Count() && Holds(g, sec, whole)
    requires Placed(g, whole, sections, table, sections', table') && Grew(sections', table', sections'', table'')
    requires sections' != [] && sections'[SECTION_UNASSIGNED].mr == Unassigned
    ensures Placed(g, sec, sections, table, sections'', table'')
  {
    forall addr: nat | addr < g.space && WholePage(g, sec, addr)
      ensures table''[g.PageOf(addr)] == table'[g.PageOf(addr)] < |sections'| && sections'[table'[g.PageOf(addr)]].mr == sec.mr
    {
      assert WholePage(g, whole, addr);
    }
  }

  function FoundIn(g: Geometry, st: Store, s: nat, addr: nat): nat
    requires s < |st.sections|
  {
    if Covers(g.space, st.sections[s], addr) then s else SECTION_UNASSIGNED
  }

  // A compacted table gives entry s for an address; where that differs from the
  // table it came from, s is mapped elsewhere and does not cover the address.
  lemma FoundAfterCompact(g: Geometry, st: Store, paged: set<nat>, table: seq<nat>, addr: nat, s: nat)
    requires g.Ok() && StoreOk(g, st) && PagesOk(g, st, paged, table, -1) && addr < g.space
    requires s == table[g.PageOf(addr)] || s == SECTION_UNASSIGNED || (table[g.PageOf(addr)] == SECTION_UNASSIGNED && s in table)
    requires s == SECTION_UNASSIGNED ==> table[g.PageOf(addr)] == SECTION_UNASSIGNED
    ensures s < |st.sections| && table[g.PageOf(addr)] < |st.sections|
    ensures FoundIn(g, st, s, addr) == FoundIn(g, st, table[g.PageOf(addr)], addr)
    ensures !Free(g.space, st.view, addr) ==> FoundIn(g, st, s, addr) != SECTION_UNASSIGNED
  {
    var t := table[g.PageOf(addr)];
    assert EntryPaged(paged, table, g.PageOf(addr)) && Kept(g, st, table, addr);
    if t != SECTION_UNASSIGNED {
      assert Maps(g, st, table, t, addr);
    }
    if s != t && s != SECTION_UNASSIGNED {
      var other :| 0 <= other < |table| && table[other] == s;
      assert EntryPaged(paged, table, other);
      assert Maps(g, st, table, s, addr);
    }
  }

  ghost predicate AllDirect(g: Geometry, fv: seq<Section>, n: nat, sections: seq<Section>, table: seq<nat>)
    requires g.Ok() && |table| == g.Count() && n <= |fv|
  {
    forall k :: 0 <= k < n ==> Direct(g, fv[k], sections, table)
  }

  lemma DirectNext(g: Geometry, fv: seq<Section>, n: nat, sections: seq<Section>, table: seq<nat>, sections': seq<Section>, table': seq<nat>)
    requires g.Ok() && |table| == |table'| == g.Count() && n < |fv| && AllDirect(g, fv, n, sections, table)
    requires Placed(g, fv[n], sections, table, sections', table')
    requires sections != [] && sections[SECTION_UNASSIGNED].mr == Unassigned
    requires forall k :: 0 <= k < |fv| ==> SectionOk(g.space, fv[k])
    ensures AllDirect(g, fv, n + 1, sections', table')
  {
    forall k | 0 <= k < n
      ensures Direct(g, fv[k], sections', table')
    {
      forall addr: nat | addr < g.space && WholePage(g, fv[k], addr)
        ensures table'[g.PageOf(addr)] == table[g.PageOf(addr)] < |sections| && sections[table[g.PageOf(addr)]].mr == fv[k].mr
      {
        assert Direct(g, fv[k], sections, table);
      }
    }
  }

  lemma DirectFound(g: Geometry, st: Store, paged: set<nat>, table: seq<nat>, sec: Section, addr: nat)
    requires g.Ok() && StoreOk(g, st) && PagesOk(g, st, paged, table, -1) && addr < g.space && SectionOk(g.space, sec)
    requires Direct(g, sec, st.sections, table) && WholePage(g, sec, addr)
    ensures st.sections[FoundIn(g, st, table[g.PageOf(addr)], addr)].mr == sec.mr
  {
    var t := table[g.PageOf(addr)];
    assert EntryPaged(paged, table, g.PageOf(addr)) && st.sections[t].mr == sec.mr;
    assert Maps(g, st, table, t, addr);
  }

  // The page of a vacant section is unassigned or has a subpage.
  lemma SubpageThere(g: Geometry, st: Store, paged: set<nat>, table: seq<nat>, sec: Section)
    requires g.Ok() && StoreOk(g, st) && Sound(g, st) && PagesOk(g, st, paged, table, -1)
    requires SectionOk(g.space, sec) && Vacant(g.space, st.view, sec)
    ensures var base := RoundDown(sec.base, g.page);
      && base <= sec.base && table[g.PageOf(base)] < |st.sections|
      && var e := FoundIn(g, st, table[g.PageOf(base)], base);
         if e == SECTION_UNASSIGNED || !st.sections[e].mr.Subpage? then table[g.PageOf(base)] == SECTION_UNASSIGNED
         else e in paged && st.sections[e].base == base
  {
    var base := RoundDown(sec.base, g.page);
    PageStartOf(g, sec.base);
    VacantPage(g, st, paged, table, sec, sec.base);
    var s := table[g.PageOf(base)];
    if s != SECTION_UNASSIGNED {
      assert Maps(g, st, table, s, base) && NumberOk(g, st, s);
      ByteInPage(g, st.sections[s].base, base);
      SameStart(base, st.sections[s].base, g.page);
    }
  }

  lemma SameStart(a: nat, b: nat, d: nat)
    requires 0 < d && Multiple(a, d) && Multiple(b, d) && Quot(a, d) == Quot(b, d)
    ensures a == b
  {
    QuotAtLeast(a, b, d);
    QuotAtLeast(b, a, d);
  }

  lemma PagesHollow(g: Geometry, st: Store, paged: set<nat>, table: seq<nat>, hollow: int)
    requires PagesOk(g, st, paged, table, -1)
    ensures PagesOk(g, st, paged, table, hollow)
  {
    forall s | 0 <= s < |st.sections|
      ensures PagedOk(g, st, paged, hollow, s)
    {
      assert PagedOk(g, st, paged, -1, s);
    }
  }
}
