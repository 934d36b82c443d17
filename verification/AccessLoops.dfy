// The access loops of exec.c over a dispatch, on addresses backed by RAM: the
// chunked copies of flatview_write_continue and flatview_read_continue against
// byte-by-byte access in ascending order, and flatview_extend_translation.
module AccessLoops {
  import opened Arithmetic
  import opened FlatViews
  import opened MemoryDispatch

  type Byte = bv8

  // The RAM block of each region, by region id.
  type Ram = map<nat, seq<Byte>>

  // The translation of the byte k after addr; addresses wrap.
  function At(space: nat, view: seq<Section>, addr: nat, k: nat): Hit
    requires 0 < space
  {
    Linear(space, view, Wrap(addr + k, space))
  }

  predicate InRam(ram: Ram, hit: Hit) {
    hit.mr.Region? && hit.mr.ram && hit.mr.id in ram && hit.xlat < |ram[hit.mr.id]|
  }

  // All n bytes from addr on lie in RAM, and no block is larger than the address space.
  ghost predicate AllRam(space: nat, view: seq<Section>, ram: Ram, addr: nat, n: nat)
    requires 0 < space
  {
    && (forall id :: id in ram ==> |ram[id]| <= space)
    && forall k: nat {:trigger At(space, view, addr, k)} :: k < n ==> InRam(ram, At(space, view, addr, k))
  }

  function Poke(ram: Ram, hit: Hit, b: Byte): Ram {
    if InRam(ram, hit) then ram[hit.mr.id := ram[hit.mr.id][hit.xlat := b]] else ram
  }

  // The reference: one byte after the other.
  function WriteBytes(space: nat, view: seq<Section>, ram: Ram, addr: nat, data: seq<Byte>): Ram
    requires 0 < space
    decreases |data|
  {
    if data == [] then ram
    else WriteBytes(space, view, Poke(ram, At(space, view, addr, 0), data[0]), Wrap(addr + 1, space), data[1..])
  }

  function Peek(ram: Ram, hit: Hit): Byte {
    if InRam(ram, hit) then ram[hit.mr.id][hit.xlat] else 0
  }

  // The n bytes from addr on translate to consecutive offsets.
  ghost predicate Runs(space: nat, view: seq<Section>, addr: nat, hit: Hit, n: nat)
    requires 0 < space
  {
    forall k: nat {:trigger At(space, view, addr, k)} :: k < n ==> At(space, view, addr, k) == Step(space, hit, k)
  }

  // memcpy into a RAM block
  function Copied(ram: Ram, id: nat, offset: nat, data: seq<Byte>): Ram
    requires id in ram && offset + |data| <= |ram[id]|
  {
    ram[id := ram[id][..offset] + data + ram[id][offset + |data|..]]
  }

  lemma WrapTwice(space: nat, a: nat, k: nat)
    requires 0 < space
    ensures Wrap(Wrap(a, space) + k, space) == Wrap(a + k, space)
  {
    WrapAdd(k, a, space);
  }

  lemma AtShift(space: nat, view: seq<Section>, addr: nat, j: nat, k: nat)
    requires 0 < space
    ensures At(space, view, Wrap(addr + j, space), k) == At(space, view, addr, j + k)
  {
    WrapTwice(space, addr + j, k);
  }

  lemma StepTwice(space: nat, hit: Hit, j: nat, k: nat)
    requires 0 < space
    ensures Step(space, Step(space, hit, j), k) == Step(space, hit, j + k)
  {
    WrapTwice(space, hit.xlat + j, k);
  }

  lemma RunsShift(space: nat, view: seq<Section>, addr: nat, addr': nat, hit: Hit, n: nat, j: nat)
    requires 0 < space && j <= n && Runs(space, view, addr, hit, n) && addr' == Wrap(addr + j, space)
    ensures Runs(space, view, addr', Step(space, hit, j), n - j)
  {
    var hit' := Step(space, hit, j);
    forall k: nat | k < n - j
      ensures At(space, view, addr', k) == Step(space, hit', k)
    {
      AtShift(space, view, addr, j, k);
      assert At(space, view, addr, j + k) == Step(space, hit, j + k);
      StepTwice(space, hit, j, k);
    }
  }

  lemma AllRamShift(space: nat, view: seq<Section>, ram: Ram, addr: nat, addr': nat, n: nat, j: nat)
    requires 0 < space && j <= n && AllRam(space, view, ram, addr, n) && addr' == Wrap(addr + j, space)
    ensures AllRam(space, view, ram, addr', n - j)
  {
    forall k: nat {:trigger At(space, view, addr', k)} | k < n - j
      ensures InRam(ram, At(space, view, addr', k))
    {
      AtShift(space, view, addr, j, k);
      assert InRam(ram, At(space, view, addr, j + k));
    }
  }

  // Copying into a block keeps its size.
  lemma AllRamKept(space: nat, view: seq<Section>, ram: Ram, ram': Ram, addr: nat, n: nat)
    requires 0 < space && AllRam(space, view, ram, addr, n) && ram'.Keys == ram.Keys
    requires forall id :: id in ram ==> |ram'[id]| == |ram[id]|
    ensures AllRam(space, view, ram', addr, n)
  {
    forall k: nat {:trigger At(space, view, addr, k)} | k < n
      ensures InRam(ram', At(space, view, addr, k))
    {
      assert InRam(ram, At(space, view, addr, k));
    }
  }

  // A run of bytes written one by one is one copy.
  lemma {:induction false} WriteRun(space: nat, view: seq<Section>, ram: Ram, addr: nat, hit: Hit, data: seq<Byte>)
    requires 0 < space && Runs(space, view, addr, hit, |data|) && hit.mr.Region? && hit.mr.ram && hit.mr.id in ram
    requires hit.xlat + |data| <= |ram[hit.mr.id]| <= space
    ensures WriteBytes(space, view, ram, addr, data) == Copied(ram, hit.mr.id, hit.xlat, data)
    decreases |data|
  {
    var id, x := hit.mr.id, hit.xlat;
    if data == [] {
      assert ram[id][..x] + data + ram[id][x..] == ram[id];
    } else {
      var rest := data[1..];
      assert At(space, view, addr, 0) == Step(space, hit, 0);
      var ram' := Poke(ram, hit, data[0]);
      RunsShift(space, view, addr, Wrap(addr + 1, space), hit, |data|, 1);
      if rest != [] {
        WriteRun(space, view, ram', Wrap(addr + 1, space), Step(space, hit, 1), rest);
        assert ram'[id][..x + 1] + rest + ram'[id][x + 1 + |rest|..] == ram[id][..x] + data + ram[id][x + |data|..];
      } else {
        assert ram'[id] == ram[id][..x] + data + ram[id][x + |data|..];
      }
    }
  }

  lemma {:induction false} WriteSplit(space: nat, view: seq<Section>, ram: Ram, addr: nat, a: seq<Byte>, b: seq<Byte>)
    requires addr < space
    ensures WriteBytes(space, view, ram, addr, a + b) ==
            WriteBytes(space, view, WriteBytes(space, view, ram, addr, a), Wrap(addr + |a|, space), b)
    decreases |a|
  {
    if a == [] {
      assert a + b == b;
    } else {
      assert (a + b)[1..] == a[1..] + b;
      WriteSplit(space, view, Poke(ram, At(space, view, addr, 0), a[0]), Wrap(addr + 1, space), a[1..], b);
      WrapTwice(space, addr + 1, |a| - 1);
      assert addr + 1 + (|a| - 1) == addr + |a|;
    }
  }

  // What a translation in RAM promises about the bytes that follow.
  lemma TranslationRuns(space: nat, view: seq<Section>, addr: nat, hit: Hit, n: nat)
    requires addr < space && RunsOn(space, view, addr, hit, n)
    ensures Runs(space, view, addr, hit, n)
  {
    forall k: nat | k < n
      ensures At(space, view, addr, k) == Step(space, hit, k)
    {
      assert RunsAt(space, view, addr, hit, addr + k);
    }
  }

  // flatview_write with flatview_write_continue, on RAM
  method Write(d: AddressSpaceDispatch, ram0: Ram, addr0: nat, buf: seq<Byte>) returns (ram: Ram)
    requires d.Ready() && addr0 < d.g.space && 0 < |buf|
    requires AllRam(d.g.space, d.view, ram0, addr0, |buf|)
    modifies d`mru
    ensures d.Ready() && ram == WriteBytes(d.g.space, d.view, ram0, addr0, buf)
  {
    var addr: nat, left := addr0, buf;
    ram := ram0;
    while left != []
      invariant d.Ready() && addr < d.g.space
      invariant AllRam(d.g.space, d.view, ram, addr, |left|)
      invariant WriteBytes(d.g.space, d.view, ram, addr, left) == WriteBytes(d.g.space, d.view, ram0, addr0, buf)
      decreases |left|
    {
      var hit, l := NextChunk(d, ram, addr, |left|);
      WriteChunk(d.g.space, d.view, ram, addr, hit, left, l);
      ram := Copied(ram, hit.mr.id, hit.xlat, left[..l]);
      addr, left := Wrap(addr + l, d.g.space), left[l..];
    }
  }

  // flatview_translate and qemu_ram_ptr_length: the next piece of one RAM block.
  method NextChunk(d: AddressSpaceDispatch, ram: Ram, addr: nat, n: nat) returns (hit: Hit, l: nat)
    requires d.Ready() && addr < d.g.space && 0 < n && AllRam(d.g.space, d.view, ram, addr, n)
    modifies d`mru
    ensures d.Ready() && InRam(ram, hit) && 0 < l <= n
    ensures hit.xlat + l <= |ram[hit.mr.id]| <= d.g.space && RunsOn(d.g.space, d.view, addr, hit, l)
  {
    hit, l := d.Translate(addr, n);
    InRamHere(d.g.space, d.view, ram, addr, n);
    if |ram[hit.mr.id]| - hit.xlat < l {
      RunsOnShorter(d.g.space, d.view, addr, hit, l, |ram[hit.mr.id]| - hit.xlat);
      l := |ram[hit.mr.id]| - hit.xlat;
    }
  }

  lemma RunsOnShorter(space: nat, view: seq<Section>, addr: nat, hit: Hit, n: nat, l: nat)
    requires 0 < space && RunsOn(space, view, addr, hit, n) && l <= n
    ensures RunsOn(space, view, addr, hit, l)
  {
  }

  lemma InRamHere(space: nat, view: seq<Section>, ram: Ram, addr: nat, n: nat)
    requires addr < space && 0 < n && AllRam(space, view, ram, addr, n)
    ensures InRam(ram, Linear(space, view, addr)) && |ram[Linear(space, view, addr).mr.id]| <= space
  {
    assert InRam(ram, At(space, view, addr, 0));
  }

  // One chunk, and what is left after it.
  lemma WriteChunk(space: nat, view: seq<Section>, ram: Ram, addr: nat, hit: Hit, left: seq<Byte>, l: nat)
    requires addr < space && l <= |left| && InRam(ram, hit) && hit.xlat + l <= |ram[hit.mr.id]| <= space
    requires RunsOn(space, view, addr, hit, l) && AllRam(space, view, ram, addr, |left|)
    ensures AllRam(space, view, Copied(ram, hit.mr.id, hit.xlat, left[..l]), Wrap(addr + l, space), |left| - l)
    ensures WriteBytes(space, view, Copied(ram, hit.mr.id, hit.xlat, left[..l]), Wrap(addr + l, space), left[l..])
            == WriteBytes(space, view, ram, addr, left)
  {
    TranslationRuns(space, view, addr, hit, l);
    WriteRun(space, view, ram, addr, hit, left[..l]);
    WriteSplit(space, view, ram, addr, left[..l], left[l..]);
    assert left[..l] + left[l..] == left;
    WriteKeeps(space, view, ram, addr, hit, left, l);
  }

  lemma WriteKeeps(space: nat, view: seq<Section>, ram: Ram, addr: nat, hit: Hit, left: seq<Byte>, l: nat)
    requires addr < space && l <= |left| && InRam(ram, hit) && hit.xlat + l <= |ram[hit.mr.id]|
    requires AllRam(space, view, ram, addr, |left|)
    ensures AllRam(space, view, Copied(ram, hit.mr.id, hit.xlat, left[..l]), Wrap(addr + l, space), |left| - l)
  {
    AllRamShift(space, view, ram, addr, Wrap(addr + l, space), |left|, l);
    AllRamKept(space, view, ram, Copied(ram, hit.mr.id, hit.xlat, left[..l]), Wrap(addr + l, space), |left| - l);
  }

  // flatview_read with flatview_read_continue, on RAM
  method Read(d: AddressSpaceDispatch, ram: Ram, addr0: nat, len: nat) returns (buf: seq<Byte>)
    requires d.Ready() && addr0 < d.g.space && 0 < len
    requires AllRam(d.g.space, d.view, ram, addr0, len)
    modifies d`mru
    ensures d.Ready() && |buf| == len && Peeked(d.g.space, d.view, ram, addr0, buf)
  {
    var addr: nat, left := addr0, len;
    buf := [];
    while left != 0
      invariant d.Ready() && |buf| + left == len && addr == Wrap(addr0 + |buf|, d.g.space)
      invariant AllRam(d.g.space, d.view, ram, addr, left)
      invariant Peeked(d.g.space, d.view, ram, addr0, buf)
    {
      var hit, l := NextChunk(d, ram, addr, left);
      ReadChunk(d.g.space, d.view, ram, addr0, buf, addr, hit, left, l);
      addr, left := Wrap(addr + l, d.g.space), left - l;
      buf := buf + ram[hit.mr.id][hit.xlat..hit.xlat + l];
    }
  }

  // The bytes read one by one.
  ghost predicate Peeked(space: nat, view: seq<Section>, ram: Ram, addr: nat, buf: seq<Byte>)
    requires 0 < space
  {
    forall k: nat {:trigger buf[k]} {:trigger At(space, view, addr, k)} ::
      k < |buf| ==> buf[k] == Peek(ram, At(space, view, addr, k))
  }

  lemma ReadChunk(space: nat, view: seq<Section>, ram: Ram, addr0: nat, buf: seq<Byte>, addr: nat, hit: Hit, left: nat, l: nat)
    requires addr < space && addr == Wrap(addr0 + |buf|, space) && l <= left
    requires InRam(ram, hit) && hit.xlat + l <= |ram[hit.mr.id]| <= space
    requires RunsOn(space, view, addr, hit, l) && AllRam(space, view, ram, addr, left)
    requires Peeked(space, view, ram, addr0, buf)
    ensures Wrap(addr + l, space) == Wrap(addr0 + (|buf| + l), space)
    ensures AllRam(space, view, ram, Wrap(addr + l, space), left - l)
    ensures Peeked(space, view, ram, addr0, buf + ram[hit.mr.id][hit.xlat..hit.xlat + l])
  {
    WrapTwice(space, addr0 + |buf|, l);
    AllRamShift(space, view, ram, addr, Wrap(addr + l, space), left, l);
    TranslationRuns(space, view, addr, hit, l);
    ReadRun(space, view, ram, addr0, |buf|, hit, l);
  }

  lemma ReadRun(space: nat, view: seq<Section>, ram: Ram, addr: nat, j: nat, hit: Hit, n: nat)
    requires 0 < space && Runs(space, view, Wrap(addr + j, space), hit, n) && InRam(ram, hit)
    requires hit.xlat + n <= |ram[hit.mr.id]| <= space
    ensures forall k: nat :: j <= k < j + n ==> Peek(ram, At(space, view, addr, k)) == ram[hit.mr.id][hit.xlat + (k - j)]
  {
    forall k: nat | j <= k < j + n
      ensures Peek(ram, At(space, view, addr, k)) == ram[hit.mr.id][hit.xlat + (k - j)]
    {
      AtShift(space, view, addr, j, k - j);
      assert At(space, view, Wrap(addr + j, space), k - j) == Step(space, hit, k - j);
    }
  }

  // flatview_extend_translation: `len` bytes from addr on are known to run on from
  // (mr, base); the result is the longest run of at most targetLen bytes.
  method ExtendTranslation(d: AddressSpaceDispatch, addr0: nat, targetLen: nat, hit: Hit, len0: nat) returns (done: nat)
    requires d.Ready() && addr0 < d.g.space && 0 < len0 <= targetLen && hit.mr.Region? && hit.mr.ram
    requires Runs(d.g.space, d.view, addr0, hit, len0)
    modifies d`mru
    ensures d.Ready() && len0 <= done <= targetLen && Runs(d.g.space, d.view, addr0, hit, done)
    ensures done == targetLen || At(d.g.space, d.view, addr0, done) != Step(d.g.space, hit, done)
  {
    ghost var space, view := d.g.space, d.view;
    var addr, len := addr0, len0;
    done := 0;
    while true
      invariant d.Ready() && d.view == view && addr == Wrap(addr0 + done, space)
      invariant 0 < len && done + len <= targetLen && len0 <= done + len
      invariant Runs(space, view, addr0, hit, done + len)
      decreases targetLen - done
    {
      WrapTwice(space, addr0 + done, len);
      addr := Wrap(addr + len, d.g.space);
      done := done + len;
      if done == targetLen {
        return;
      }
      var next;
      next, len := d.Translate(addr, targetLen - done);
      AtShift(space, view, addr0, done, 0);
      if next.mr != hit.mr || next.xlat != Wrap(hit.xlat + done, d.g.space) {
        return;
      }
      TranslationRuns(space, view, addr, next, len);
      RunsJoin(space, view, addr0, addr, hit, done, len);
    }
  }

  lemma RunsJoin(space: nat, view: seq<Section>, addr: nat, addr': nat, hit: Hit, n: nat, m: nat)
    requires 0 < space && Runs(space, view, addr, hit, n) && addr' == Wrap(addr + n, space)
    requires Runs(space, view, addr', Step(space, hit, n), m)
    ensures Runs(space, view, addr, hit, n + m)
  {
    forall k: nat {:trigger At(space, view, addr, k)} | k < n + m
      ensures At(space, view, addr, k) == Step(space, hit, k)
    {
      if n <= k {
        AtShift(space, view, addr, n, k - n);
        assert At(space, view, addr', k - n) == Step(space, Step(space, hit, n), k - n);
        StepTwice(space, hit, n, k - n);
      }
    }
  }
}
