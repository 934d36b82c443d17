// A flat view as the reference for dispatch: a list of sections, searched from
// the front.
module FlatViews {
  import opened Arithmetic

  // What a section maps to: nothing, a region of the guest, or the table of
  // per-byte section numbers that serves one page.
  datatype MemoryRegion = Unassigned | Region(id: nat, ram: bool) | Subpage(table: nat)

  // base is offset_within_address_space, offset is offset_within_region
  datatype Section = Section(base: nat, size: nat, mr: MemoryRegion, offset: nat)

  // A region and the offset in it that an access goes to.
  datatype Hit = Hit(mr: MemoryRegion, xlat: nat)

  // section_covers_addr, in an address space of `space` bytes: a section of that
  // size or more covers everything.
  predicate Covers(space: nat, s: Section, addr: nat) {
    s.size >= space || s.base <= addr < s.base + s.size
  }

  // Offsets are unsigned and wrap at the size of the address space.
  function HitOf(space: nat, s: Section, addr: nat): Hit
    requires 0 < space
  {
    Hit(s.mr, Wrap(addr - s.base + s.offset, space))
  }

  // The reference: a linear search; what no section covers is unassigned.
  function Linear(space: nat, view: seq<Section>, addr: nat): Hit
    requires 0 < space
  {
    if view == [] then Hit(Unassigned, addr)
    else if Covers(space, view[0], addr) then HitOf(space, view[0], addr)
    else Linear(space, view[1..], addr)
  }

  ghost predicate Free(space: nat, view: seq<Section>, addr: nat) {
    forall i :: 0 <= i < |view| ==> !Covers(space, view[i], addr)
  }

  // No section of the view covers any byte of s.
  ghost predicate Vacant(space: nat, view: seq<Section>, s: Section) {
    forall addr: nat :: addr < space && Covers(space, s, addr) ==> Free(space, view, addr)
  }

  // The two views translate every address alike.
  ghost predicate Same(space: nat, view: seq<Section>, view': seq<Section>)
    requires 0 < space
  {
    forall addr: nat :: addr < space ==>
      && (Free(space, view, addr) <==> Free(space, view', addr))
      && Linear(space, view, addr) == Linear(space, view', addr)
  }

  // A section of a flat view: non-empty, inside the address space, and backed
  // by a region.
  predicate SectionOk(space: nat, s: Section) {
    0 < s.size && s.base + s.size <= space && s.mr.Region?
  }

  ghost predicate Disjoint(space: nat, view: seq<Section>) {
    forall i, j, addr: nat :: 0 <= i < j < |view| && addr < space ==>
      !(Covers(space, view[i], addr) && Covers(space, view[j], addr))
  }

  lemma {:induction false} LinearFree(space: nat, view: seq<Section>, addr: nat)
    requires 0 < space && forall i :: 0 <= i < |view| ==> view[i].mr.Region?
    ensures Free(space, view, addr) <==> Linear(space, view, addr) == Hit(Unassigned, addr)
    ensures !Free(space, view, addr) <==> Linear(space, view, addr).mr.Region?
  {
    if view != [] {
      LinearFree(space, view[1..], addr);
      assert forall i :: 1 <= i < |view| ==> view[i] == view[1..][i - 1];
    }
  }

  lemma {:induction false} LinearAppend(space: nat, view: seq<Section>, s: Section, addr: nat)
    requires 0 < space
    ensures Linear(space, view + [s], addr) ==
            if Free(space, view, addr) then Linear(space, [s], addr) else Linear(space, view, addr)
  {
    if view == [] {
      assert view + [s] == [s];
    } else {
      assert (view + [s])[1..] == view[1..] + [s];
      LinearAppend(space, view[1..], s, addr);
      assert forall i :: 1 <= i < |view| ==> view[i] == view[1..][i - 1];
    }
  }

  // The first `size` bytes of a section, and the rest of it.
  function Front(s: Section, size: nat): Section {
    s.(size := size)
  }

  function Rest(space: nat, s: Section, size: nat): Section
    requires 0 < space && size <= s.size
  {
    Section(s.base + size, s.size - size, s.mr, Wrap(s.offset + size, space))
  }

  // Cutting a section in two changes no translation.
  lemma SplitSection(space: nat, s: Section, size: nat, addr: nat)
    requires SectionOk(space, s) && 0 < size < s.size && addr < space
    ensures Covers(space, s, addr) <==> Covers(space, Front(s, size), addr) || Covers(space, Rest(space, s, size), addr)
    ensures !(Covers(space, Front(s, size), addr) && Covers(space, Rest(space, s, size), addr))
    ensures HitOf(space, Front(s, size), addr) == HitOf(space, s, addr)
    ensures Covers(space, Rest(space, s, size), addr) ==> HitOf(space, Rest(space, s, size), addr) == HitOf(space, s, addr)
  {
    if Covers(space, Rest(space, s, size), addr) {
      WrapAdd(addr - s.base - size, s.offset + size, space);
    }
  }

  // Registering a section in two parts is like registering it whole.
  lemma SplitSame(space: nat, view: seq<Section>, s: Section, size: nat)
    requires SectionOk(space, s) && 0 < size < s.size && Vacant(space, view, s)
    ensures SectionOk(space, Front(s, size)) && SectionOk(space, Rest(space, s, size))
    ensures Vacant(space, view, Front(s, size)) && Vacant(space, view + [Front(s, size)], Rest(space, s, size))
    ensures Same(space, view + [Front(s, size)] + [Rest(space, s, size)], view + [s])
  {
    var a, b := Front(s, size), Rest(space, s, size);
    forall addr: nat | addr < space
      ensures Covers(space, s, addr) <==> Covers(space, a, addr) || Covers(space, b, addr)
      ensures Covers(space, b, addr) ==> !Covers(space, a, addr)
      ensures Free(space, view + [a] + [b], addr) <==> Free(space, view + [s], addr)
      ensures Linear(space, view + [a] + [b], addr) == Linear(space, view + [s], addr)
    {
      SplitSection(space, s, size, addr);
      FreeAppend(space, view, s, addr);
      FreeAppend(space, view, a, addr);
      FreeAppend(space, view + [a], b, addr);
      LinearAppend(space, view, s, addr);
      LinearAppend(space, view, a, addr);
      LinearAppend(space, view + [a], b, addr);
      LinearOne(space, s, addr);
      LinearOne(space, a, addr);
      LinearOne(space, b, addr);
    }
    forall addr: nat | addr < space && Covers(space, b, addr)
      ensures Free(space, view + [a], addr)
    {
      FreeAppend(space, view, a, addr);
    }
  }

  lemma FreeAppend(space: nat, view: seq<Section>, s: Section, addr: nat)
    ensures Free(space, view + [s], addr) <==> Free(space, view, addr) && !Covers(space, s, addr)
  {
    assert (view + [s])[|view|] == s;
    assert forall i :: 0 <= i < |view| ==> (view + [s])[i] == view[i];
  }

  lemma LinearOne(space: nat, s: Section, addr: nat)
    requires 0 < space
    ensures Linear(space, [s], addr) == if Covers(space, s, addr) then HitOf(space, s, addr) else Hit(Unassigned, addr)
  {
    assert [s][1..] == [];
  }

  // Appending the same section keeps two views alike.
  lemma SameAppend(space: nat, view: seq<Section>, view': seq<Section>, s: Section)
    requires 0 < space && Same(space, view, view')
    ensures Same(space, view + [s], view' + [s])
  {
    forall addr: nat | addr < space
      ensures Free(space, view + [s], addr) <==> Free(space, view' + [s], addr)
      ensures Linear(space, view + [s], addr) == Linear(space, view' + [s], addr)
    {
      FreeAppend(space, view, s, addr);
      FreeAppend(space, view', s, addr);
      LinearAppend(space, view, s, addr);
      LinearAppend(space, view', s, addr);
    }
  }

  lemma DisjointVacant(space: nat, fv: seq<Section>, i: nat)
    requires i < |fv| && Disjoint(space, fv)
    ensures Vacant(space, fv[..i], fv[i])
  {
  }

  // The hit k bytes further on in the same region.
  function Step(space: nat, hit: Hit, k: nat): Hit
    requires 0 < space
  {
    Hit(hit.mr, Wrap(hit.xlat + k, space))
  }

  lemma HitStep(space: nat, s: Section, addr: nat, b: nat)
    requires 0 < space && s.base <= addr <= b
    ensures HitOf(space, s, b) == Step(space, HitOf(space, s, addr), b - addr)
  {
    WrapAdd(b - addr, addr - s.base + s.offset, space);
  }

  // From addr on, n bytes translate to consecutive offsets of one region.
  ghost predicate RunsOn(space: nat, view: seq<Section>, addr: nat, hit: Hit, n: nat)
    requires 0 < space
  {
    forall b: nat {:trigger RunsAt(space, view, addr, hit, b)} :: addr <= b < addr + n ==> RunsAt(space, view, addr, hit, b)
  }

  ghost predicate RunsAt(space: nat, view: seq<Section>, addr: nat, hit: Hit, b: nat)
    requires 0 < space && addr <= b
  {
    b < space && Linear(space, view, b) == Step(space, hit, b - addr)
  }
}
