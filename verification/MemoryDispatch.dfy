// AddressSpaceDispatch of exec.c: a flat view is registered section by section in
// the page table and in subpage tables, the page table is compacted, and lookups
// go through the most recently used section. Every lookup agrees with a linear
// search of the flat view.
module MemoryDispatch {
  import opened Options
  import opened Arithmetic
  import opened PhysPageTable
  import opened PhysPageMaps
  import opened FlatViews
  import opened SectionStores

  class AddressSpaceDispatch {
    const g: Geometry
    const pages: PhysPageMap
    var sections: seq<Section>
    var subpages: seq<seq<nat>>   // sub_section of each subpage_t
    var mru: Option<nat>          // mru_section, as a section number
    ghost var view: seq<Section>  // what has been registered
    ghost var paged: set<nat>     // the section numbers that the page table holds

    ghost function Now(): Store
      reads this`sections, this`subpages, this`view
    {
      Store(sections, subpages, view)
    }

    // The section number that the page table gives to each page.
    ghost function PageTable(): (t: seq<nat>)
      requires g.Ok()
      reads pages
      ensures |t| == g.Count() && forall page :: 0 <= page < |t| ==> t[page] == pages.Find(page)
    {
      seq(g.Count(), page requires 0 <= page reads pages => pages.Find(page))
    }

    ghost predicate Valid()
      reads this`sections, this`subpages, this`view, this`mru, pages
    {
      Stored() && (mru.Some? ==> mru.value < |sections|)
    }

    ghost predicate Stored()
      reads this`sections, this`subpages, this`view, pages
    {
      && g.Ok() && pages.Valid() && StoreOk(g, Now()) && Sound(g, Now()) && |sections| <= g.page
      && g.Count() <= Span(pages.f, pages.levels)
      && Times(g.page, 2 * pages.levels - 1) <= NODE_NIL
      && |pages.nodes| <= Times(|sections| - 1, 2 * pages.levels - 1)
    }

    // While sections are added; see PagesOk for `hollow`.
    ghost predicate Building(hollow: int)
      reads this, pages
    {
      && Valid() && pages.Building() && PagesOk(g, Now(), paged, PageTable(), hollow)
      && forall page: nat :: g.Count() <= page < Span(pages.f, pages.levels) ==> pages.Find(page) == SECTION_UNASSIGNED
    }

    constructor (g: Geometry, pages: PhysPageMap)
      requires g.Ok() && pages.Building() && pages.nodes == []
      requires forall page: nat :: pages.Find(page) == SECTION_UNASSIGNED
      requires g.Count() <= Span(pages.f, pages.levels) && Times(g.page, 2 * pages.levels - 1) <= NODE_NIL
      ensures this.g == g && this.pages == pages && Building(-1) && view == [] && |sections| == 1
    {
      this.g, this.pages := g, pages;
      sections := [Section(0, g.space, Unassigned, 0)];
      subpages, mru, view, paged := [], None, [], {};
    }

    // phys_section_add; None when its assert fails.
    method SectionAdd(s: Section) returns (r: Option<nat>)
      requires |sections| <= g.page
      modifies this`sections
      ensures if |old(sections)| < g.page then r == Some(|old(sections)|) && sections == old(sections) + [s]
              else r == None && sections == old(sections)
    {
      if |sections| < g.page {
        sections := sections + [s];
        r := Some(|sections| - 1);
      } else {
        r := None;
      }
    }

    // phys_page_set for the section added last: its nodes fit.
    method PageSet(index: nat, nb: nat, leaf: nat)
      requires g.Ok() && pages.Building() && 2 <= |sections| <= g.page && leaf == |sections| - 1
      requires Times(g.page, 2 * pages.levels - 1) <= NODE_NIL && g.Count() <= Span(pages.f, pages.levels)
      requires |pages.nodes| <= Times(|sections| - 2, 2 * pages.levels - 1)
      requires 0 < nb && index + nb <= g.Count()
      requires forall page :: index <= page < index + nb ==> PageTable()[page] == SECTION_UNASSIGNED
      modifies pages
      ensures pages.Building() && |pages.nodes| <= Times(|sections| - 1, 2 * pages.levels - 1)
      ensures forall page :: 0 <= page < g.Count() ==>
                PageTable()[page] == if index <= page < index + nb then leaf else old(PageTable())[page]
      ensures forall page: nat :: g.Count() <= page < Span(pages.f, pages.levels) ==> pages.Find(page) == old(pages.Find(page))
    {
      var c := 2 * pages.levels - 1;
      TimesMonotone(|sections| - 1, g.page, c);
      LeafFits(c);
      forall page | index <= page < index + nb
        ensures pages.Find(page) == SECTION_UNASSIGNED
      {
        assert PageTable()[page] == SECTION_UNASSIGNED;
      }
      pages.Set(index, nb, leaf);
    }

    lemma LeafFits(c: nat)
      requires 1 <= c && Times(g.page, c) <= NODE_NIL
      ensures g.page <= NODE_NIL
    {
      TimesIsProduct(g.page, c);
      MulMonotone(1, c, g.page);
    }

    // register_multipage; false when the section table is full.
    method RegisterMultipage(sec: Section) returns (ok: bool)
      requires Building(-1) && SectionOk(g.space, sec) && Vacant(g.space, view, sec)
      requires Multiple(sec.base, g.page) && Multiple(sec.size, g.page)
      modifies this`sections, this`subpages, this`view, this`paged, pages
      ensures ok ==> Building(-1) && view == old(view) + [sec]
      ensures !ok ==> |sections| >= g.page
      ensures ok ==> Placed(g, sec, old(sections), old(PageTable()), sections, PageTable())
    {
      var first, numPages := Quot(sec.base, g.page), Quot(sec.size, g.page);
      VacantRun(sec, first, numPages);
      var index := SectionAdd(sec);
      if index == None {
        return false;
      }
      PageSet(first, numPages, index.value);
      PlacedRun(g, sec, old(sections), old(PageTable()), PageTable(), first, numPages);
      PagesAppend(g, old(Now()), Store(sections, subpages, view + [sec]), paged, old(PageTable()), PageTable(), sec, first, numPages);
      view, paged := view + [sec], paged + {index.value};
      ok := true;
    }

    lemma VacantRun(sec: Section, first: nat, n: nat)
      requires Building(-1) && SectionOk(g.space, sec) && Vacant(g.space, view, sec)
      requires Multiple(sec.base, g.page) && Multiple(sec.size, g.page)
      requires first == Quot(sec.base, g.page) && n == Quot(sec.size, g.page)
      ensures 0 < n && first + n <= g.Count()
      ensures forall page :: first <= page < first + n ==> PageTable()[page] == SECTION_UNASSIGNED
    {
      WholePages(g, sec, sec.base);
      var last := PageStart(g, sec, first + n - 1);
      forall page | first <= page < first + n
        ensures PageTable()[page] == SECTION_UNASSIGNED
      {
        var addr := PageStart(g, sec, page);
        VacantPages(g, Now(), paged, PageTable(), sec, addr);
      }
    }

    // phys_page_find
    method PageFind(addr: nat) returns (s: nat)
      requires Stored() && addr < g.space && PageTable()[g.PageOf(addr)] < |sections|
      ensures s == Found(addr)
    {
      s := pages.FindLoop(Quot(addr, g.page));
      if !Covers(g.space, sections[s], addr) {
        s := SECTION_UNASSIGNED;
      }
    }

    ghost function Found(addr: nat): nat
      requires g.Ok() && addr < g.space && PageTable()[g.PageOf(addr)] < |sections|
      reads this`sections, this`subpages, this`view, pages
    {
      FoundIn(g, Now(), PageTable()[g.PageOf(addr)], addr)
    }

    // subpage_init and the phys_page_set that publishes it, for an unassigned page.
    method NewSubpage(base: nat) returns (r: Option<nat>)
      requires Building(-1) && Multiple(base, g.page) && base < g.space && PageTable()[g.PageOf(base)] == SECTION_UNASSIGNED
      modifies this`sections, this`subpages, this`paged, pages
      ensures r == None ==> |sections| >= g.page
      ensures r.Some? ==>
                && Building(r.value) && r.value in paged
                && sections[r.value] == Section(base, g.page, Subpage(|old(subpages)|), 0)
      ensures r.Some? ==> Grew(old(sections), old(PageTable()), sections, PageTable())
    {
      r := SectionAdd(Section(base, g.page, Subpage(|subpages|), 0));
      if r == None {
        return;
      }
      var page := Quot(base, g.page);
      assert page == g.PageOf(base);
      PageSet(page, 1, r.value);
      AttachTable(base, page, old(Now()), old(PageTable()));
    }

    // Gives the subsection added last its table of unassigned bytes.
    method AttachTable(ghost base: nat, ghost page: nat, ghost st: Store, ghost table: seq<nat>)
      requires g.Ok() && StoreOk(g, st) && Sound(g, st) && PagesOk(g, st, paged, table, -1) && pages.Building()
      requires Multiple(base, g.page) && base < g.space && page == g.PageOf(base) && table[page] == SECTION_UNASSIGNED
      requires Now() == st.(sections := st.sections + [Section(base, g.page, Subpage(|subpages|), 0)])
      requires forall p :: 0 <= p < |table| ==> PageTable()[p] == if page <= p < page + 1 then |st.sections| else table[p]
      requires forall p: nat :: g.Count() <= p < Span(pages.f, pages.levels) ==> pages.Find(p) == SECTION_UNASSIGNED
      requires |sections| <= g.page && g.Count() <= Span(pages.f, pages.levels)
      requires Times(g.page, 2 * pages.levels - 1) <= NODE_NIL && |pages.nodes| <= Times(|sections| - 1, 2 * pages.levels - 1)
      requires mru.Some? ==> mru.value < |sections|
      modifies this`subpages, this`paged
      ensures Building(|sections| - 1) && |sections| - 1 in paged
    {
      var zeros: seq<nat> := seq(g.page, _ => SECTION_UNASSIGNED);
      PagesNewTable(g, st, Store(sections, subpages + [zeros], view), paged, table, PageTable(), base, page);
      subpages, paged := subpages + [zeros], paged + {|sections| - 1};
    }

    // subpage_register
    method SubpageRegister(k: nat, start: nat, end: nat, section: nat)
      requires k < |subpages| && |subpages[k]| == g.page && start <= end < g.page
      modifies this`subpages
      ensures subpages == old(subpages)[k := Written(old(subpages)[k], start, end - start + 1, section)]
    {
      var idx := start;
      while idx <= end
        invariant start <= idx <= end + 1
        invariant |subpages| == |old(subpages)| && |subpages[k]| == g.page
        invariant forall i :: 0 <= i < |subpages| && i != k ==> subpages[i] == old(subpages)[i]
        invariant forall b :: 0 <= b < g.page ==>
                    subpages[k][b] == if start <= b < idx then section else old(subpages)[k][b]
      {
        var table: seq<nat> := subpages[k][idx := section];
        subpages := subpages[k := table];
        idx := idx + 1;
      }
      assert subpages[k] == Written(old(subpages)[k], start, end - start + 1, section);
    }

    // The subpage section that serves a page, made when there is none yet.
    method SubpageFor(sec: Section) returns (r: Option<nat>)
      requires Building(-1) && SectionOk(g.space, sec) && Vacant(g.space, view, sec)
      modifies this`sections, this`subpages, this`paged, pages
      ensures r == None ==> |sections| >= g.page
      ensures r.Some? ==>
                && Building(r.value) && r.value in paged && sections[r.value].mr.Subpage?
                && sections[r.value].base == RoundDown(sec.base, g.page)
      ensures r.Some? ==> Grew(old(sections), old(PageTable()), sections, PageTable())
    {
      var base := RoundDown(sec.base, g.page);
      PageStartOf(g, sec.base);
      SubpageThere(g, Now(), paged, PageTable(), sec);
      var existing := PageFind(base);
      if existing == SECTION_UNASSIGNED || !sections[existing].mr.Subpage? {
        r := NewSubpage(base);
      } else {
        r := Some(existing);
        PagesHollow(g, Now(), paged, PageTable(), existing);
      }
    }

    // register_subpage: sec lies on one page. False when the section table is full.
    method RegisterSubpage(sec: Section) returns (ok: bool)
      requires Building(-1) && SectionOk(g.space, sec) && Vacant(g.space, view, sec)
      requires Wrap(sec.base, g.page) + sec.size <= g.page
      modifies this`sections, this`subpages, this`view, this`paged, pages
      ensures ok ==> Building(-1) && view == old(view) + [sec]
      ensures !ok ==> |sections| >= g.page
      ensures ok ==> Grew(old(sections), old(PageTable()), sections, PageTable())
    {
      var subsection := SubpageFor(sec);
      if subsection == None {
        return false;
      }
      ok := RegisterBytes(subsection.value, sec);
    }

    // The second half of register_subpage: sec lies on the page of subpage section n.
    method RegisterBytes(n: nat, sec: Section) returns (ok: bool)
      requires Building(n) && SectionOk(g.space, sec) && Vacant(g.space, view, sec)
      requires n in paged && sections[n].mr.Subpage? && sections[n].base == RoundDown(sec.base, g.page)
      requires Wrap(sec.base, g.page) + sec.size <= g.page
      modifies this`sections, this`subpages, this`view
      ensures ok ==> Building(-1) && view == old(view) + [sec]
      ensures !ok ==> |sections| >= g.page
      ensures ok ==> old(sections) <= sections
    {
      assert NumberOk(g, Now(), n) && TableOk(g, Now(), sections[n].mr.table);
      var start := Wrap(sec.base, g.page);
      PageStartOf(g, sec.base);
      var end := start + sec.size - 1;
      var index := SectionAdd(sec);
      if index == None {
        return false;
      }
      SubpageRegister(sections[n].mr.table, start, end, index.value);
      PagesWriteTable(g, old(Now()), Store(sections, subpages, view + [sec]), paged, PageTable(), n, sec);
      view := view + [sec];
      ok := true;
    }

    // flatview_add_to_dispatch: a first subpage, whole pages, a last subpage.
    // False when the section table is full.
    method Add(section: Section) returns (ok: bool)
      requires Building(-1) && SectionOk(g.space, section) && Vacant(g.space, view, section)
      modifies this`sections, this`subpages, this`view, this`paged, pages
      ensures ok ==> Building(-1) && Same(g.space, view, old(view) + [section])
      ensures !ok ==> |sections| >= g.page
      // whole pages are served without a subpage
      ensures ok ==> Placed(g, section, old(sections), old(PageTable()), sections, PageTable())
    {
      if Multiple(section.base, g.page) {
        ok := AddAligned(section);
      } else {
        ok := AddUnaligned(section);
      }
    }

    // The first branch of flatview_add_to_dispatch, for what comes before a page boundary.
    method AddUnaligned(section: Section) returns (ok: bool)
      requires Building(-1) && SectionOk(g.space, section) && Vacant(g.space, view, section)
      requires !Multiple(section.base, g.page)
      modifies this`sections, this`subpages, this`view, this`paged, pages
      ensures ok ==> Building(-1) && Same(g.space, view, old(view) + [section])
      ensures !ok ==> |sections| >= g.page
      ensures ok ==> Placed(g, section, old(sections), old(PageTable()), sections, PageTable())
    {
      // unsigned: TARGET_PAGE_ALIGN wraps to 0 on the last page
      var left := Wrap(Wrap(RoundDown(section.base + g.page - 1, g.page), g.space) + g.space - section.base, g.space);
      LeftOnPage(g, section.base);
      if section.size <= left {
        ok := RegisterSubpage(section);
        HoldsNone(g, section, sections, PageTable());
        return;
      }
      SplitSame(g.space, view, section, left);
      ok := RegisterSubpage(section.(size := left));
      ghost var sections', table' := sections, PageTable();
      if ok {
        ok := AddAligned(Rest(g.space, section, left));
        HoldsRest(g, section, left);
        if ok {
          PlacedAfter(g, section, Rest(g.space, section, left), old(sections), old(PageTable()), sections', table', sections, PageTable());
        }
      }
    }

    // The rest of flatview_add_to_dispatch, from the first page boundary on.
    method AddAligned(section: Section) returns (ok: bool)
      requires Building(-1) && SectionOk(g.space, section) && Vacant(g.space, view, section)
      requires Multiple(section.base, g.page)
      modifies this`sections, this`subpages, this`view, this`paged, pages
      ensures ok ==> Building(-1) && Same(g.space, view, old(view) + [section])
      ensures !ok ==> |sections| >= g.page
      ensures ok ==> Placed(g, section, old(sections), old(PageTable()), sections, PageTable())
    {
      var remain := section;
      if remain.size >= g.page {
        var now := remain.(size := RoundDown(remain.size, g.page));
        WholeSize(remain.base, remain.size, g.page);
        if now.size == remain.size {
          ok := RegisterMultipage(now);
          return;
        }
        ok := AddWholeAndRest(remain, now);
        return;
      }
      RoundWrap(remain.base, g.page);
      ok := RegisterSubpage(remain);
      HoldsNone(g, section, sections, PageTable());
    }

    method AddWholeAndRest(section: Section, now: Section) returns (ok: bool)
      requires Building(-1) && SectionOk(g.space, section) && Vacant(g.space, view, section)
      requires Multiple(section.base, g.page) && now == Front(section, RoundDown(section.size, g.page)) && 0 < now.size < section.size
      modifies this`sections, this`subpages, this`view, this`paged, pages
      ensures ok ==> Building(-1) && Same(g.space, view, old(view) + [section])
      ensures !ok ==> |sections| >= g.page
      ensures ok ==> Placed(g, section, old(sections), old(PageTable()), sections, PageTable())
    {
      SplitSame(g.space, view, section, now.size);
      WholeSize(section.base, section.size, g.page);
      ok := RegisterMultipage(now);
      if !ok {
        return;
      }
      ghost var sections', table' := sections, PageTable();
      var remain := Rest(g.space, section, now.size);
      RoundWrap(remain.base, g.page);
      ok := RegisterSubpage(remain);
      HoldsFront(g, section);
      if ok {
        PlacedBefore(g, section, now, old(sections), old(PageTable()), sections', table', sections, PageTable());
      }
    }

    // What lookups rely on: the page table holds section numbers, and leads every
    // registered byte to a section that covers it.
    ghost predicate Ready()
      reads this`sections, this`subpages, this`view, this`mru, pages
    {
      Serving() && (mru.Some? ==> mru.value < |sections|)
    }

    ghost predicate Serving()
      reads this`sections, this`subpages, this`view, pages
    {
      && Stored()
      && forall addr: nat {:trigger g.PageOf(addr)} :: addr < g.space ==>
           && PageTable()[g.PageOf(addr)] < |sections|
           && (!Free(g.space, view, addr) ==> Found(addr) != SECTION_UNASSIGNED)
    }

    // address_space_dispatch_compact: where the compacted table strays, the section
    // it strays to does not cover the address.
    method Compact()
      requires Building(-1)
      modifies pages
      ensures Ready()
      ensures forall addr: nat :: addr < g.space ==>
                Found(addr) == FoundIn(g, Now(), old(PageTable())[g.PageOf(addr)], addr)
    {
      ghost var table := PageTable();
      assert Tabulates(pages.f, pages.levels, pages.nodes, pages.root, table) by {
        assert forall p: nat :: pages.Find(p) == Walk(pages.nodes, pages.root, Digits(pages.f, pages.levels, p));
      }
      pages.CompactAll();
      forall addr: nat | addr < g.space
        ensures PageTable()[g.PageOf(addr)] < |sections| && table[g.PageOf(addr)] < |sections|
        ensures Found(addr) == FoundIn(g, Now(), table[g.PageOf(addr)], addr)
        ensures !Free(g.space, view, addr) ==> Found(addr) != SECTION_UNASSIGNED
      {
        CompactedPage(table, old(pages.nodes), old(pages.root), g.PageOf(addr));
        FoundAfterCompact(g, Now(), paged, table, addr, pages.Find(g.PageOf(addr)));
      }
    }

    // What CompactAll promises, in terms of the page table before it.
    lemma CompactedPage(table: seq<nat>, nodes0: seq<Node>, root0: Entry, page: nat)
      requires g.Ok() && |table| == g.Count() <= Span(pages.f, pages.levels) && page < |table|
      requires Tabulates(pages.f, pages.levels, nodes0, root0, table)
      requires Mirrors(pages.f, pages.levels, nodes0, root0, pages.nodes, pages.root)
      ensures var s := pages.Find(page);
              || s == table[page]
              || (table[page] == SECTION_UNASSIGNED && s in table)
    {
      var s := pages.Find(page);
      pages.Mirrored(page, nodes0, root0);
      if s != table[page] {
        var other: nat :| other < Span(pages.f, pages.levels) && Walk(nodes0, root0, Digits(pages.f, pages.levels, other)) == s;
        assert other < |table| ==> s == table[other];
      }
    }

    // generate_memory_topology fills a fresh dispatch from a flat view and compacts
    // it. False when the section table is full.
    method Populate(fv: seq<Section>) returns (ok: bool)
      requires Building(-1) && view == []
      requires forall i :: 0 <= i < |fv| ==> SectionOk(g.space, fv[i])
      requires Disjoint(g.space, fv)
      modifies this`sections, this`subpages, this`view, this`paged, pages
      ensures ok ==> Ready() && Same(g.space, view, fv)
      ensures !ok ==> |sections| >= g.page
      // whole pages are served without a subpage
      ensures ok ==> forall i, addr: nat {:trigger WholePage(g, fv[i], addr)} ::
                       0 <= i < |fv| && addr < g.space && WholePage(g, fv[i], addr) ==> sections[Found(addr)].mr == fv[i].mr
    {
      ok := AddAll(fv);
      if !ok {
        return;
      }
      ghost var table := PageTable();
      forall i, addr: nat | 0 <= i < |fv| && addr < g.space && WholePage(g, fv[i], addr)
        ensures sections[FoundIn(g, Now(), table[g.PageOf(addr)], addr)].mr == fv[i].mr
      {
        DirectFound(g, Now(), paged, table, fv[i], addr);
      }
      Compact();
    }

    method AddAll(fv: seq<Section>) returns (ok: bool)
      requires Building(-1) && view == []
      requires forall i :: 0 <= i < |fv| ==> SectionOk(g.space, fv[i])
      requires Disjoint(g.space, fv)
      modifies this`sections, this`subpages, this`view, this`paged, pages
      ensures ok ==> Building(-1) && Same(g.space, view, fv) && AllDirect(g, fv, |fv|, sections, PageTable())
      ensures !ok ==> |sections| >= g.page
    {
      for i := 0 to |fv|
        invariant Building(-1) && Same(g.space, view, fv[..i]) && AllDirect(g, fv, i, sections, PageTable())
      {
        assert Vacant(g.space, view, fv[i]) by {
          DisjointVacant(g.space, fv, i);
        }
        ghost var was, sections0, table0 := view, sections, PageTable();
        ok := Add(fv[i]);
        if !ok {
          return;
        }
        DirectNext(g, fv, i, sections0, table0, sections, PageTable());
        SameAppend(g.space, was, fv[..i], fv[i]);
        assert fv[..i + 1] == fv[..i] + [fv[i]];
      }
      assert fv[..|fv|] == fv;
      ok := true;
    }

    // The section used last covers the address.
    ghost predicate Serves(last: Option<nat>, addr: nat)
      reads this`sections
    {
      last.Some? && last.value != SECTION_UNASSIGNED && last.value < |sections| && Covers(g.space, sections[last.value], addr)
    }

    // address_space_lookup_region
    method Lookup(addr: nat, resolveSubpage: bool) returns (s: nat)
      requires Ready() && addr < g.space
      modifies this`mru
      ensures Ready() && s < |sections| && Answers(g, Now(), s, addr)
      ensures resolveSubpage ==> HitOf(g.space, sections[s], addr) == Linear(g.space, view, addr)
      ensures mru.Some? && s == if resolveSubpage then Resolve(g, Now(), mru.value, addr) else mru.value
      // the page table is consulted only if the section used last will not do
      ensures mru == if Serves(old(mru), addr) then old(mru) else Some(Found(addr))
    {
      s := LookupPage(addr);
      RightAnswers(g, Now(), s, addr);
      if resolveSubpage && sections[s].mr.Subpage? {
        assert NumberOk(g, Now(), s) && TableOk(g, Now(), sections[s].mr.table);
        s := subpages[sections[s].mr.table][Wrap(addr, g.page)];
      }
    }

    // The first half of it, through the section used last.
    method LookupPage(addr: nat) returns (s: nat)
      requires Ready() && addr < g.space
      modifies this`mru
      ensures Ready() && mru == Some(s) && s < |sections|
      ensures Covers(g.space, sections[s], addr) && Right(g, Now(), s, addr)
      ensures mru == if Serves(old(mru), addr) then old(mru) else Some(Found(addr))
    {
      if mru == None || mru.value == SECTION_UNASSIGNED || !Covers(g.space, sections[mru.value], addr) {
        s := PageFind(addr);
        mru := Some(s);
      } else {
        s := mru.value;
      }
      CoveringAnswer(s, addr);
    }

    lemma CoveringAnswer(s: nat, addr: nat)
      requires Serving() && addr < g.space && s < |sections| && Covers(g.space, sections[s], addr)
      requires s == SECTION_UNASSIGNED ==> Found(addr) == SECTION_UNASSIGNED
      ensures Right(g, Now(), s, addr)
    {
      if s == SECTION_UNASSIGNED {
        assert Free(g.space, view, addr);
        LinearFree(g.space, view, addr);
        UnassignedHit(g.space, addr);
      }
    }

    // address_space_translate_internal, resolving subpages
    method Translate(addr: nat, len: nat) returns (hit: Hit, plen: nat)
      requires Ready() && addr < g.space
      modifies this`mru
      ensures Ready() && hit == Linear(g.space, view, addr) && plen <= len
      ensures !(hit.mr.Region? && hit.mr.ram) ==> plen == len
      ensures hit.mr.Region? && hit.mr.ram ==> (0 < len ==> 0 < plen) && RunsOn(g.space, view, addr, hit, plen)
      // it is cut short only where the section found ends
      ensures plen < len ==> exists s :: 0 <= s < |sections| && EndsAt(sections[s], addr, hit, plen)
    {
      var s := Lookup(addr, true);
      var section := sections[s];
      hit := Hit(section.mr, Wrap(addr - section.base + section.offset, g.space));
      plen := len;
      if section.mr.Region? && section.mr.ram {
        var diff := section.size - (addr - section.base);
        assert NumberOk(g, Now(), s);
        plen := if diff < len then diff else len;
        RunsOnSection(s, addr, plen);
      }
    }

    // From addr, which hit translates, the section goes on for n more bytes.
    ghost predicate EndsAt(sec: Section, addr: nat, hit: Hit, n: nat) {
      0 < g.space && Covers(g.space, sec, addr) && HitOf(g.space, sec, addr) == hit && sec.base + sec.size == addr + n
    }

    lemma RunsOnSection(s: nat, addr: nat, n: nat)
      requires Serving() && addr < g.space && 1 <= s < |sections| && sections[s].mr.Region?
      requires Covers(g.space, sections[s], addr) && n <= sections[s].size - (addr - sections[s].base)
      ensures RunsOn(g.space, view, addr, HitOf(g.space, sections[s], addr), n)
    {
      assert NumberOk(g, Now(), s);
      forall b: nat | addr <= b < addr + n
        ensures RunsAt(g.space, view, addr, HitOf(g.space, sections[s], addr), b)
      {
        assert Right(g, Now(), s, b);
        HitStep(g.space, sections[s], addr, b);
      }
    }
  }

  // The table lists what the nodes give to each page; later pages get nothing.
  ghost predicate Tabulates(f: Fanout, levels: nat, nodes: seq<Node>, root: Entry, table: seq<nat>) {
    forall p: nat {:trigger Digits(f, levels, p)} :: p < Span(f, levels) ==>
      Walk(nodes, root, Digits(f, levels, p)) == if p < |table| then table[p] else SECTION_UNASSIGNED
  }

  lemma LeftOnPage(g: Geometry, base: nat)
    requires g.Ok() && base < g.space && !Multiple(base, g.page)
    ensures Wrap(Wrap(RoundDown(base + g.page - 1, g.page), g.space) + g.space - base, g.space) == g.page - Wrap(base, g.page)
    ensures base + (g.page - Wrap(base, g.page)) <= g.space
    ensures Multiple(base + (g.page - Wrap(base, g.page)), g.page)
  {
    var start, r := RoundDown(base, g.page), Wrap(base, g.page);
    RoundWrap(base, g.page);
    PageInside(g, start);
    MultipleAdd(start, g.page, g.page);
    InBlock(start + g.page, r - 1, g.page);
    assert base + g.page - 1 == start + g.page + (r - 1);
  }

  lemma WholeSize(base: nat, size: nat, page: nat)
    requires 0 < page <= size && Multiple(base, page)
    ensures Multiple(RoundDown(size, page), page) && 0 < RoundDown(size, page) <= size && size - RoundDown(size, page) < page
    ensures Multiple(base + RoundDown(size, page), page)
  {
    RoundWrap(size, page);
    MultipleAdd(base, RoundDown(size, page), page);
  }
}
