// qmp_transaction over dirty-bitmap actions: all of them happen, in order, or none.
module Transactions {
  import opened Options
  import opened Arithmetic

  type Name = string

  datatype Key = Key(node: Name, name: Name)

  // A bitmap with one bit for every `granularity` bytes.
  datatype HBitmap = HBitmap(size: nat, granularity: nat, dirty: set<nat>)

  datatype Bitmap = Bitmap(bits: HBitmap, size: nat, disabled: bool, busy: bool, readonly: bool, inconsistent: bool, persistent: bool)

  type Bitmaps = map<Key, Bitmap>

  // What is asked of a node: its length, if it can be had, the granularity it
  // suggests, and whether it can store a new persistent bitmap.
  datatype NodeInfo = NodeInfo(length: Option<nat>, granularity: nat, canStore: (Name, nat) -> bool)

  type Nodes = map<Name, NodeInfo>

  datatype Source = Local(name: Name) | External(key: Key)

  datatype Action =
    | Add(key: Key, granularity: Option<nat>, persistent: bool, disabled: bool)
    | Clear(key: Key)
    | Enable(key: Key)
    | Disable(key: Key)
    | Merge(key: Key, sources: seq<Source>)

  // BlockDirtyBitmapState
  datatype ActionState = ActionState(bitmap: Option<Key>, backup: Option<HBitmap>, prepared: bool, wasEnabled: bool)

  const ZEROED := ActionState(None, None, false, false)

  const BITMAP_MAX_NAME_SIZE: nat := 1023

  ghost predicate BitmapOk(b: Bitmap) {
    b.bits.size == b.size && b.bits.granularity > 0
  }

  ghost predicate BitmapsOk(m: Bitmaps) {
    forall k :: k in m ==> BitmapOk(m[k])
  }

  ghost predicate NodesOk(nodes: Nodes) {
    forall n :: n in nodes ==> nodes[n].granularity > 0
  }

  // --------------------------------------------------------- what an action means

  predicate PowerOfTwo(n: nat) {
    n == 1 || (n > 1 && n % 2 == 0 && PowerOfTwo(n / 2))
  }

  // bdrv_dirty_bitmap_check
  predicate Usable(b: Bitmap, allowReadonly: bool) {
    !b.busy && (allowReadonly || !b.readonly) && !b.inconsistent
  }

  // Chunk c of g bytes has a byte in common with b's chunk d.
  predicate Overlaps(b: HBitmap, g: nat, c: nat, d: nat) {
    && c * g < (d + 1) * b.granularity && d * b.granularity < (c + 1) * g
    && c * g < b.size && d * b.granularity < b.size
  }

  predicate Touched(b: HBitmap, g: nat, c: nat) {
    exists d :: d in b.dirty && Overlaps(b, g, c, d)
  }

  // The chunks of g bytes that b's dirty bytes fall into.
  function Rechunk(b: HBitmap, g: nat): set<nat>
    requires g > 0
  {
    set c: nat | c < b.size && Touched(b, g, c)
  }

  // hbitmap_merge
  function Union(a: HBitmap, b: HBitmap): HBitmap
    requires a.granularity > 0
  {
    a.(dirty := a.dirty + if a.granularity == b.granularity then b.dirty else Rechunk(b, a.granularity))
  }

  function AddGranularity(nodes: Nodes, a: Action): nat
    requires a.Add? && a.key.node in nodes
  {
    if a.granularity.Some? then a.granularity.value else nodes[a.key.node].granularity
  }

  predicate CanAdd(nodes: Nodes, m: Bitmaps, a: Action)
    requires a.Add?
  {
    && a.key.name != ""
    && a.key.node in nodes
    && (a.granularity.Some? ==> a.granularity.value >= 512 && PowerOfTwo(a.granularity.value))
    && (a.persistent ==> nodes[a.key.node].canStore(a.key.name, AddGranularity(nodes, a)))
    && a.key !in m && |a.key.name| <= BITMAP_MAX_NAME_SIZE
    && nodes[a.key.node].length.Some?
  }

  function Added(nodes: Nodes, a: Action): Bitmap
    requires a.Add? && a.key.node in nodes && nodes[a.key.node].length.Some?
  {
    var len := nodes[a.key.node].length.value;
    Bitmap(HBitmap(len, AddGranularity(nodes, a), {}), len, a.disabled, false, false, false, a.persistent)
  }

  predicate Found(nodes: Nodes, m: Bitmaps, key: Key) {
    key.node in nodes && key in m
  }

  function SourceKey(node: Name, s: Source): Key {
    if s.Local? then Key(node, s.name) else s.key
  }

  predicate SourceOk(nodes: Nodes, m: Bitmaps, node: Name, size: nat, s: Source) {
    var k := SourceKey(node, s);
    && k in m && (s.External? ==> k.node in nodes)
    && Usable(m[k], true) && m[k].bits.size == size
  }

  // All sources merged into an empty bitmap, one after the other.
  ghost function Gathered(m: Bitmaps, node: Name, init: HBitmap, sources: seq<Source>): HBitmap
    requires init.granularity > 0 && forall s :: s in sources ==> SourceKey(node, s) in m
    ensures Gathered(m, node, init, sources).(dirty := init.dirty) == init
  {
    if sources == [] then init
    else
      var k := |sources| - 1;
      Union(Gathered(m, node, init, sources[..k]), m[SourceKey(node, sources[k])].bits)
  }

  ghost predicate CanMerge(nodes: Nodes, m: Bitmaps, a: Action)
    requires a.Merge?
  {
    && Found(nodes, m, a.key)
    && nodes[a.key.node].length.Some?
    && (forall s :: s in a.sources ==> SourceOk(nodes, m, a.key.node, nodes[a.key.node].length.value, s))
    && Usable(m[a.key], false) && m[a.key].bits.size == nodes[a.key.node].length.value
  }

  ghost function Merged(nodes: Nodes, m: Bitmaps, a: Action): HBitmap
    requires a.Merge? && CanMerge(nodes, m, a) && BitmapsOk(m)
  {
    var dst := m[a.key];
    var anon := HBitmap(nodes[a.key.node].length.value, dst.bits.granularity, {});
    Union(dst.bits, Gathered(m, a.key.node, anon, a.sources))
  }

  // The state after a single action, if it can be taken.
  ghost function Effect(nodes: Nodes, individual: bool, m: Bitmaps, a: Action): (r: Option<Bitmaps>)
    requires BitmapsOk(m) && NodesOk(nodes)
    ensures r.Some? ==> BitmapsOk(r.value)
  {
    if !individual then None
    else match a
      case Add(key, _, _, _) => if CanAdd(nodes, m, a) then Some(m[key := Added(nodes, a)]) else None
      case Clear(key) =>
        if Found(nodes, m, key) && Usable(m[key], false) then
          Some(m[key := m[key].(bits := HBitmap(m[key].size, m[key].bits.granularity, {}))])
        else None
      case Enable(key) =>
        if Found(nodes, m, key) && Usable(m[key], true) then Some(m[key := m[key].(disabled := false)]) else None
      case Disable(key) =>
        if Found(nodes, m, key) && Usable(m[key], true) then Some(m[key := m[key].(disabled := true)]) else None
      case Merge(key, _) =>
        if CanMerge(nodes, m, a) then Some(m[key := m[key].(bits := Merged(nodes, m, a))]) else None
  }

  // The state after all of them, one after the other.
  ghost function Fold(f: (Bitmaps, Action) -> Option<Bitmaps>, m: Bitmaps, actions: seq<Action>): Option<Bitmaps> {
    if actions == [] then Some(m)
    else
      var k := |actions| - 1;
      var r := Fold(f, m, actions[..k]);
      if r.None? then None else f(r.value, actions[k])
  }

  ghost function Stepper(nodes: Nodes, individual: bool): (Bitmaps, Action) -> Option<Bitmaps> {
    (m: Bitmaps, a: Action) => if BitmapsOk(m) && NodesOk(nodes) then Effect(nodes, individual, m, a) else None
  }

  ghost function EffectAll(nodes: Nodes, individual: bool, m: Bitmaps, actions: seq<Action>): Option<Bitmaps> {
    Fold(Stepper(nodes, individual), m, actions)
  }

  // -------------------------------------------------------- what that means in bytes

  ghost predicate InChunk(g: nat, c: nat, x: nat) {
    c * g <= x < (c + 1) * g
  }

  // Byte x of the node is dirty.
  ghost predicate ByteDirty(b: HBitmap, x: nat) {
    x < b.size && exists c: nat :: c in b.dirty && InChunk(b.granularity, c, x)
  }

  // One chunk of g bytes has both bytes in it.
  ghost predicate SameChunk(g: nat, x: nat, y: nat) {
    exists c: nat :: InChunk(g, c, x) && InChunk(g, c, y)
  }

  lemma OneChunk(g: nat, c: nat, d: nat, x: nat)
    requires InChunk(g, c, x) && InChunk(g, d, x)
    ensures c == d
  {
    if c < d {
      MulMonotone(c + 1, d, g);
    } else if d < c {
      MulMonotone(d + 1, c, g);
    }
  }

  lemma ChunkOf(g: nat, x: nat) returns (c: nat)
    requires g > 0
    ensures InChunk(g, c, x)
  {
    c := x / g;
    Distribute(c, 1, g);
    assert x == g * (x / g) + x % g;
  }

  lemma SameChunkTrans(g: nat, x: nat, y: nat, z: nat)
    requires SameChunk(g, x, y) && SameChunk(g, y, z)
    ensures SameChunk(g, x, z)
  {
    var c: nat :| InChunk(g, c, x) && InChunk(g, c, y);
    var d: nat :| InChunk(g, d, y) && InChunk(g, d, z);
    OneChunk(g, c, d, y);
  }

  lemma SameChunkSelf(g: nat, x: nat)
    requires g > 0
    ensures SameChunk(g, x, x)
  {
    var c := ChunkOf(g, x);
  }

  // A byte of b that is dirty has x beside it, in a chunk of g bytes.
  ghost predicate DirtyBeside(b: HBitmap, g: nat, x: nat) {
    exists y: nat :: SameChunk(g, x, y) && ByteDirty(b, y)
  }

  lemma TouchedBytes(b: HBitmap, g: nat, c: nat)
    requires b.granularity > 0 && g > 0
    ensures Touched(b, g, c) <==> exists y: nat :: InChunk(g, c, y) && ByteDirty(b, y)
    ensures Touched(b, g, c) ==> c < b.size
  {
    if Touched(b, g, c) {
      var d :| d in b.dirty && Overlaps(b, g, c, d);
      var y := if c * g < d * b.granularity then d * b.granularity else c * g;
      Distribute(c, 1, g);
      Distribute(d, 1, b.granularity);
      assert InChunk(b.granularity, d, y) && InChunk(g, c, y) && ByteDirty(b, y);
      MulMonotone(1, g, c);
    }
    if y: nat :| InChunk(g, c, y) && ByteDirty(b, y) {
      var d: nat :| d in b.dirty && InChunk(b.granularity, d, y);
      assert Overlaps(b, g, c, d);
    }
  }

  // A chunk of the union is dirty if it was, or if the other bitmap has a dirty byte in it.
  lemma UnionChunk(a: HBitmap, b: HBitmap, c: nat)
    requires a.granularity > 0 && b.granularity > 0 && a.size == b.size && c * a.granularity < a.size
    ensures c in Union(a, b).dirty <==> c in a.dirty || exists y: nat :: InChunk(a.granularity, c, y) && ByteDirty(b, y)
  {
    var g := a.granularity;
    if g == b.granularity {
      if c in b.dirty {
        Distribute(c, 1, g);
        assert InChunk(g, c, c * g) && ByteDirty(b, c * g);
      }
      if y: nat :| InChunk(g, c, y) && ByteDirty(b, y) {
        var d: nat :| d in b.dirty && InChunk(g, d, y);
        OneChunk(g, c, d, y);
      }
    } else {
      TouchedBytes(b, g, c);
    }
  }

  lemma UnionBytes(a: HBitmap, b: HBitmap, x: nat)
    requires a.granularity > 0 && b.granularity > 0 && a.size == b.size
    ensures ByteDirty(Union(a, b), x) <==> ByteDirty(a, x) || (x < a.size && DirtyBeside(b, a.granularity, x))
  {
    var g, u := a.granularity, Union(a, b);
    if x < a.size {
      var c := ChunkOf(g, x);
      UnionChunk(a, b, c);
      ChunkBytes(u, c, x);
      ChunkBytes(a, c, x);
      if y: nat :| SameChunk(g, x, y) && ByteDirty(b, y) {
        var d: nat :| InChunk(g, d, x) && InChunk(g, d, y);
        OneChunk(g, c, d, x);
      }
    }
  }

  // A byte is dirty if its chunk is.
  lemma ChunkBytes(b: HBitmap, c: nat, x: nat)
    requires x < b.size && InChunk(b.granularity, c, x)
    ensures ByteDirty(b, x) <==> c in b.dirty
  {
    if d: nat :| d in b.dirty && InChunk(b.granularity, d, x) {
      OneChunk(b.granularity, c, d, x);
    }
  }

  // The bitmap that a source of a merge on this node names.
  ghost predicate Names(node: Name, s: Source, k: Key) {
    match s
    case Local(name) => k == Key(node, name)
    case External(key) => k == key
  }

  // Some source has a dirty byte beside x.
  ghost predicate SourceBeside(m: Bitmaps, node: Name, sources: seq<Source>, g: nat, x: nat) {
    exists s, k :: s in sources && k in m && Names(node, s, k) && DirtyBeside(m[k].bits, g, x)
  }

  lemma {:induction false} GatheredBytes(m: Bitmaps, node: Name, init: HBitmap, sources: seq<Source>, x: nat)
    requires init.granularity > 0 && init.dirty == {} && BitmapsOk(m)
    requires forall s :: s in sources ==> SourceKey(node, s) in m && m[SourceKey(node, s)].bits.size == init.size
    ensures ByteDirty(Gathered(m, node, init, sources), x) <==>
            x < init.size && SourceBeside(m, node, sources, init.granularity, x)
  {
    if sources != [] {
      var k, g := |sources| - 1, init.granularity;
      var key := SourceKey(node, sources[k]);
      GatheredBytes(m, node, init, sources[..k], x);
      assert BitmapOk(m[key]) && Names(node, sources[k], key);
      UnionBytes(Gathered(m, node, init, sources[..k]), m[key].bits, x);
      assert sources == sources[..k] + [sources[k]];
      if SourceBeside(m, node, sources, g, x) {
        var s, j :| s in sources && j in m && Names(node, s, j) && DirtyBeside(m[j].bits, g, x);
        assert s in sources[..k] || j == key;
      }
    }
  }

  lemma MergedBytes(nodes: Nodes, m: Bitmaps, a: Action, x: nat)
    requires BitmapsOk(m) && a.Merge? && CanMerge(nodes, m, a)
    ensures var dst := m[a.key].bits;
      ByteDirty(Merged(nodes, m, a), x) <==>
      ByteDirty(dst, x) || (x < dst.size && SourceBeside(m, a.key.node, a.sources, dst.granularity, x))
  {
    var dst := m[a.key].bits;
    var g := dst.granularity;
    var anon := HBitmap(dst.size, g, {});
    var all := Gathered(m, a.key.node, anon, a.sources);
    assert BitmapOk(m[a.key]);
    UnionBytes(dst, all, x);
    GatheredBytes(m, a.key.node, anon, a.sources, x);
    SameChunkSelf(g, x);
    if y: nat :| SameChunk(g, x, y) && ByteDirty(all, y) {
      GatheredBytes(m, a.key.node, anon, a.sources, y);
      SourceBesideToo(m, a.key.node, a.sources, g, x, y);
    }
  }

  lemma SourceBesideToo(m: Bitmaps, node: Name, sources: seq<Source>, g: nat, x: nat, y: nat)
    requires SameChunk(g, x, y) && SourceBeside(m, node, sources, g, y)
    ensures SourceBeside(m, node, sources, g, x)
  {
    var s, k :| s in sources && k in m && Names(node, s, k) && DirtyBeside(m[k].bits, g, y);
    var z: nat :| SameChunk(g, y, z) && ByteDirty(m[k].bits, z);
    SameChunkTrans(g, x, y, z);
  }

  // What a client of the monitor sees of an action that was taken: no other bitmap is
  // touched; a new bitmap and one that was cleared have no dirty byte; after a merge a byte
  // is dirty if it was, or if a source has a dirty byte in the same chunk of the target.
  ghost predicate Meant(nodes: Nodes, m: Bitmaps, m': Bitmaps, a: Action) {
    && m'.Keys == m.Keys + {a.key} && (forall k :: k in m && k != a.key ==> m'[k] == m[k])
    && var b := m'[a.key];
       if a.Add? then
         && a.key !in m && a.key.node in nodes && nodes[a.key.node].length == Some(b.size) && b.bits.size == b.size
         && b.bits.granularity == (if a.granularity.Some? then a.granularity.value else nodes[a.key.node].granularity)
         && b.disabled == a.disabled && b.persistent == a.persistent && !b.busy && !b.readonly && !b.inconsistent
         && forall x: nat :: !ByteDirty(b.bits, x)
       else a.key in m && var was := m[a.key];
         if a.Enable? || a.Disable? then b == was.(disabled := a.Disable?)
         else
           && b == was.(bits := b.bits) && b.bits == was.bits.(dirty := b.bits.dirty)
           && forall x: nat :: ByteDirty(b.bits, x) <==>
                a.Merge? && (ByteDirty(was.bits, x) ||
                             (x < was.size && SourceBeside(m, a.key.node, a.sources, was.bits.granularity, x)))
  }

  lemma EffectMeans(nodes: Nodes, m: Bitmaps, a: Action)
    requires BitmapsOk(m) && NodesOk(nodes) && Effect(nodes, true, m, a).Some?
    ensures Meant(nodes, m, Effect(nodes, true, m, a).value, a)
  {
    if !a.Add? {
      assert BitmapOk(m[a.key]);
    }
    if a.Merge? {
      forall x: nat
        ensures ByteDirty(Merged(nodes, m, a), x) <==>
          ByteDirty(m[a.key].bits, x) ||
          (x < m[a.key].size && SourceBeside(m, a.key.node, a.sources, m[a.key].bits.granularity, x))
      {
        MergedBytes(nodes, m, a, x);
      }
    }
  }

  // Granularities are the numbers that doubling gives.
  ghost function Doubled(k: nat): nat {
    if k == 0 then 1 else 2 * Doubled(k - 1)
  }

  lemma PowerOfTwoIs(n: nat)
    ensures PowerOfTwo(n) <==> exists k: nat :: n == Doubled(k)
  {
    if PowerOfTwo(n) {
      var k := Halvings(n);
    }
    if k: nat :| n == Doubled(k) {
      DoubledIs(k);
    }
  }

  lemma {:induction false} Halvings(n: nat) returns (k: nat)
    requires PowerOfTwo(n)
    ensures n == Doubled(k)
  {
    if n == 1 {
      k := 0;
    } else {
      k := Halvings(n / 2);
      k := k + 1;
    }
  }

  lemma {:induction false} DoubledIs(k: nat)
    ensures Doubled(k) > 0 && PowerOfTwo(Doubled(k))
  {
    if k > 0 {
      DoubledIs(k - 1);
      var h := Doubled(k - 1);
      assert (2 * h) / 2 == h && (2 * h) % 2 == 0;
    }
  }

  // A power of two from 2 to the 9th on.
  ghost predicate LargePower(n: nat) {
    exists k: nat :: 9 <= k && n == Doubled(k)
  }

  lemma Large(n: nat)
    ensures n >= 512 && PowerOfTwo(n) <==> LargePower(n)
  {
    if n >= 512 && PowerOfTwo(n) {
      var k := Halvings(n);
      DoubledLarge(k);
    }
    if k: nat :| 9 <= k && n == Doubled(k) {
      DoubledIs(k);
      DoubledLarge(k);
    }
  }

  lemma {:induction false} DoubledLarge(k: nat)
    ensures Doubled(k) >= 512 <==> 9 <= k
    ensures 9 > k ==> Doubled(k) <= 256
  {
    if k > 9 {
      DoubledLarge(k - 1);
    } else {
      assert Doubled(3) == 8;
      assert Doubled(6) == 8 * Doubled(3);
      assert Doubled(9) == 8 * Doubled(6);
    }
  }

  // When an action can be taken.
  ghost predicate Possible(nodes: Nodes, m: Bitmaps, a: Action) {
    if a.Add? then PossibleAdd(nodes, m, a) else PossibleChange(nodes, m, a)
  }

  // The name is new and of 1 to 1023 characters, and a granularity asked for is a power of
  // two that is not too small.
  ghost predicate PossibleAdd(nodes: Nodes, m: Bitmaps, a: Action)
    requires a.Add?
  {
    && a.key.node in nodes && nodes[a.key.node].length != None
    && 0 < |a.key.name| < 1024 && a.key !in m
    && match a.granularity
       case None => a.persistent ==> nodes[a.key.node].canStore(a.key.name, nodes[a.key.node].granularity)
       case Some(g) =>
         && LargePower(g)
         && (a.persistent ==> nodes[a.key.node].canStore(a.key.name, g))
  }

  // The node and the bitmap are there, nobody holds the bitmap and it is not known to be
  // broken; one that is written to is not read-only; and whatever is merged can be read
  // and has the size of the target.
  ghost predicate PossibleChange(nodes: Nodes, m: Bitmaps, a: Action) {
    && a.key in m && a.key.node in nodes && !m[a.key].busy && !m[a.key].inconsistent
    && (a.Clear? || a.Merge? ==> !m[a.key].readonly)
    && (a.Merge? ==>
          && nodes[a.key.node].length == Some(m[a.key].bits.size)
          && forall s, k :: s in a.sources && Names(a.key.node, s, k) ==>
               && k in m && (s.External? ==> k.node in nodes)
               && !m[k].busy && !m[k].inconsistent && m[k].bits.size == m[a.key].bits.size)
  }

  lemma AddPossible(nodes: Nodes, m: Bitmaps, a: Action)
    requires a.Add?
    ensures CanAdd(nodes, m, a) <==> PossibleAdd(nodes, m, a)
  {
    assert a.key.name == "" <==> |a.key.name| == 0;
    if a.granularity.Some? {
      Large(a.granularity.value);
    }
  }

  lemma EffectPossible(nodes: Nodes, m: Bitmaps, a: Action)
    requires BitmapsOk(m) && NodesOk(nodes)
    ensures Effect(nodes, true, m, a).Some? <==> Possible(nodes, m, a)
    ensures Effect(nodes, false, m, a) == None
  {
    if a.Add? {
      AddPossible(nodes, m, a);
    }
    if a.Merge? {
      forall s | s in a.sources
        ensures forall k :: Names(a.key.node, s, k) <==> k == SourceKey(a.key.node, s)
      {
      }
    }
  }

  // All actions, one after the other.
  ghost predicate MeantAll(nodes: Nodes, m: Bitmaps, m': Bitmaps, actions: seq<Action>)
    decreases |actions|
  {
    if actions == [] then m' == m
    else
      var k := |actions| - 1;
      exists mid :: MeantAll(nodes, m, mid, actions[..k]) && Meant(nodes, mid, m', actions[k])
  }

  lemma {:induction false} EffectAllMeans(nodes: Nodes, m: Bitmaps, m': Bitmaps, actions: seq<Action>)
    requires NodesOk(nodes) && EffectAll(nodes, true, m, actions) == Some(m')
    ensures MeantAll(nodes, m, m', actions)
  {
    if actions != [] {
      var k := |actions| - 1;
      var mid := EffectAll(nodes, true, m, actions[..k]).value;
      EffectAllMeans(nodes, m, mid, actions[..k]);
      EffectMeans(nodes, mid, actions[k]);
    }
  }

  // ---------------------------------------------------------------- undoing an action

  // The abort callback of a can run; without a bitmap, that of enable cannot.
  ghost predicate Undoable(a: Action, s: ActionState, m: Bitmaps) {
    match a
    case Add(key, _, _, _) => s.prepared ==> key in m && !m[key].busy && !m[key].readonly
    case Enable(_) => !s.wasEnabled ==> s.bitmap.Some? && s.bitmap.value in m
    case Disable(_) => s.wasEnabled ==> s.bitmap.Some? && s.bitmap.value in m
    case _ => s.backup.Some? ==> s.bitmap.Some? && s.bitmap.value in m
  }

  // What it does.
  ghost function Undo(a: Action, s: ActionState, m: Bitmaps): Bitmaps
    requires Undoable(a, s, m)
  {
    match a
    case Add(key, _, _, _) => if s.prepared then m - {key} else m
    case Enable(_) => if !s.wasEnabled then m[s.bitmap.value := m[s.bitmap.value].(disabled := true)] else m
    case Disable(_) => if s.wasEnabled then m[s.bitmap.value := m[s.bitmap.value].(disabled := false)] else m
    case _ => if s.backup.Some? then m[s.bitmap.value := m[s.bitmap.value].(bits := s.backup.value)] else m
  }

  // Undoing a does nothing to a bitmap that cannot be used.
  ghost predicate Spares(a: Action, s: ActionState, m: Bitmaps, k: Key)
    requires Undoable(a, s, m)
  {
    match a
    case Add(key, _, _, _) => s.prepared ==> k != key
    case Enable(_) => !s.wasEnabled ==> k != s.bitmap.value
    case Disable(_) => s.wasEnabled ==> k != s.bitmap.value
    case _ => s.backup.Some? ==> k != s.bitmap.value
  }

  // With state s, action a has taken m to m'.
  ghost predicate Took(a: Action, s: ActionState, m: Bitmaps, m': Bitmaps) {
    && Undoable(a, s, m') && Undo(a, s, m') == m && (s.backup.Some? ==> a.Clear? || a.Merge?)
    && forall k {:trigger Spares(a, s, m', k)} :: k in m' && !Usable(m'[k], true) ==> Spares(a, s, m', k)
  }

  // The prepare callback of enable can fail in two ways that its abort callback is not
  // up to: before a bitmap has been found, and, with a bitmap that is enabled, after.
  ghost predicate Crashes(nodes: Nodes, individual: bool, m: Bitmaps, a: Action) {
    a.Enable? && (!individual || !Found(nodes, m, a.key))
  }

  ghost predicate Spoils(nodes: Nodes, individual: bool, m: Bitmaps, a: Action) {
    && a.Enable? && individual && Found(nodes, m, a.key)
    && !Usable(m[a.key], true) && !m[a.key].disabled
  }

  // The bitmap k, if any, has been disabled.
  ghost function Spoilt(m: Bitmaps, k: Option<Key>): Bitmaps {
    if k.Some? && k.value in m then m[k.value := m[k.value].(disabled := true)] else m
  }

  ghost predicate Unusable(m: Bitmaps, k: Option<Key>) {
    k.Some? ==> k.value in m && !Usable(m[k.value], true)
  }

  // A spoilt bitmap stays so, and stays out of the way, while other actions are undone.
  lemma UndoSpoilt(a: Action, s: ActionState, m: Bitmaps, m': Bitmaps, k: Option<Key>)
    requires Took(a, s, m, m') && Unusable(m', k)
    ensures Unusable(m, k) && (k.Some? ==> m[k.value] == m'[k.value])
    ensures Undoable(a, s, Spoilt(m', k)) && Undo(a, s, Spoilt(m', k)) == Spoilt(m, k)
  {
    if k.Some? {
      assert Spares(a, s, m', k.value);
    }
  }

  // HBitmaps kept for undoing.
  ghost function Backups(states: seq<ActionState>): nat {
    if states == [] then 0
    else var k := |states| - 1; Backups(states[..k]) + if states[k].backup.Some? then 1 else 0
  }

  // ------------------------------------------------------------------ the monitor

  // Visits of action i by the four loops of qmp_transaction.
  datatype Phase = Preparing | Committing | Aborting | Cleaning
  datatype Call = Call(phase: Phase, i: int)

  ghost function Upward(n: nat, phase: Phase): seq<Call> {
    seq(n, i => Call(phase, i))
  }

  ghost function Downward(n: nat, phase: Phase): seq<Call> {
    seq(n, i => Call(phase, n - 1 - i))
  }

  ghost function Visits(n: nat, ok: bool): seq<Call> {
    Upward(n, Preparing) + (if ok then Upward(n, Committing) else Downward(n, Aborting)) + Upward(n, Cleaning)
  }

  lemma VisitsJoin(before: seq<Call>, n: nat, ok: bool)
    ensures before + Upward(n, Preparing) + (if ok then Upward(n, Committing) else Downward(n, Aborting)) + Upward(n, Cleaning)
            == before + Visits(n, ok)
  {
  }

  lemma UpwardStep(before: seq<Call>, log: seq<Call>, n: nat, phase: Phase)
    requires log == before + Upward(n, phase)
    ensures log + [Call(phase, n)] == before + Upward(n + 1, phase)
  {
  }

  class Monitor {
    const nodes: Nodes
    var bitmaps: Bitmaps
    // HBitmaps allocated and not yet freed
    var live: int
    ghost var log: seq<Call>

    ghost predicate Valid()
      reads this
    {
      NodesOk(nodes) && BitmapsOk(bitmaps)
    }

    constructor (nodes: Nodes)
      requires NodesOk(nodes)
      ensures Valid() && bitmaps == map[] && live == 0 && log == []
    {
      this.nodes, bitmaps, live, log := nodes, map[], 0, [];
    }

    // qmp_block_dirty_bitmap_add
    method AddBitmap(a: Action) returns (ok: bool)
      requires Valid() && a.Add?
      modifies this`bitmaps, this`live
      ensures Valid() && ok == CanAdd(nodes, old(bitmaps), a)
      ensures ok ==> bitmaps == old(bitmaps)[a.key := Added(nodes, a)] && live == old(live) + 1
      ensures !ok ==> bitmaps == old(bitmaps) && live == old(live)
    {
      var key := a.key;
      if key.name == "" || key.node !in nodes {
        return false;
      }
      var granularity := nodes[key.node].granularity;
      if a.granularity.Some? {
        if a.granularity.value < 512 || !PowerOfTwo(a.granularity.value) {
          return false;
        }
        granularity := a.granularity.value;
      }
      if a.persistent && !nodes[key.node].canStore(key.name, granularity) {
        return false;
      }
      if key in bitmaps || |key.name| > BITMAP_MAX_NAME_SIZE || nodes[key.node].length.None? {
        return false;
      }
      var length := nodes[key.node].length.value;
      var b := Bitmap(HBitmap(length, granularity, {}), length, false, false, false, false, false);
      live := live + 1;
      if a.disabled {
        b := b.(disabled := true);
      }
      b := b.(persistent := a.persistent);
      bitmaps := bitmaps[key := b];
      ok := true;
    }

    // qmp_block_dirty_bitmap_remove, which must not fail here
    method RemoveBitmap(key: Key)
      requires Valid() && key in bitmaps && !bitmaps[key].busy && !bitmaps[key].readonly
      modifies this`bitmaps, this`live
      ensures Valid() && bitmaps == old(bitmaps) - {key} && live == old(live) - 1
    {
      bitmaps := bitmaps - {key};
      live := live - 1;
    }

    // do_block_dirty_bitmap_merge; on success dst has a new bitmap and the old one is
    // the backup
    method MergeBitmaps(a: Action) returns (ok: bool, s: ActionState)
      requires Valid() && a.Merge?
      modifies this`bitmaps, this`live
      ensures Valid()
      ensures ok <==> Effect(nodes, true, old(bitmaps), a).Some?
      ensures ok ==> bitmaps == Effect(nodes, true, old(bitmaps), a).value && live == old(live) + 1
      ensures ok ==> Meant(nodes, old(bitmaps), bitmaps, a)
      ensures ok ==> a.key in old(bitmaps) && s == ActionState(Some(a.key), Some(old(bitmaps)[a.key].bits), false, false)
      ensures !ok ==> bitmaps == old(bitmaps) && live == old(live)
      ensures !ok ==> s.backup == None && !s.prepared && !s.wasEnabled
    {
      s := ZEROED;
      var key := a.key;
      if key.node !in nodes || key !in bitmaps || nodes[key.node].length.None? {
        return false, s;
      }
      var length := nodes[key.node].length.value;
      var init := HBitmap(length, bitmaps[key].bits.granularity, {});
      assert BitmapOk(bitmaps[key]);
      var anon := init;
      live := live + 1;
      for i := 0 to |a.sources|
        invariant forall x :: x in a.sources[..i] ==> SourceOk(nodes, bitmaps, key.node, length, x)
        invariant anon == Gathered(bitmaps, key.node, init, a.sources[..i])
      {
        var source := a.sources[i];
        assert a.sources[..i + 1] == a.sources[..i] + [source];
        var k := SourceKey(key.node, source);
        if k !in bitmaps || (source.External? && k.node !in nodes) || !Usable(bitmaps[k], true) || anon.size != bitmaps[k].bits.size {
          assert !SourceOk(nodes, bitmaps, key.node, length, source);
          live := live - 1;
          return false, s;
        }
        anon := Union(anon, bitmaps[k].bits);
      }
      assert a.sources[..|a.sources|] == a.sources;
      s := s.(bitmap := Some(key));
      var dst := bitmaps[key];
      ok := Usable(dst, false) && dst.bits.size == anon.size;
      if ok {
        s := s.(backup := Some(dst.bits));
        live := live + 1;
        bitmaps := bitmaps[key := dst.(bits := Union(dst.bits, anon))];
      }
      live := live - 1;
      if ok {
        EffectMeans(nodes, old(bitmaps), a);
      }
    }

    method Prepare(a: Action, individual: bool) returns (ok: bool, s: ActionState)
      requires Valid()
      modifies this`bitmaps, this`live
      ensures Valid() && ok == Effect(nodes, individual, old(bitmaps), a).Some?
      ensures bitmaps == if ok then Effect(nodes, individual, old(bitmaps), a).value else old(bitmaps)
      ensures ok ==> Took(a, s, old(bitmaps), bitmaps)
      ensures !ok ==> FailedWith(nodes, individual, bitmaps, a, s)
      ensures live - |bitmaps| == old(live - |bitmaps|) + Backups([s])
    {
      s := ZEROED;
      assert [s][..0] == [];
      if !individual {
        return false, s;
      }
      ghost var m := bitmaps;
      match a
      case Add(key, _, _, _) =>
        ok := AddBitmap(a);
        s := s.(prepared := ok);
        assert ok ==> bitmaps - {key} == m;
      case Clear(key) =>
        ok, s := PrepareClear(key);
      case Enable(key) =>
        ok, s := PrepareEnable(key);
      case Disable(key) =>
        ok, s := PrepareDisable(key);
      case Merge(key, _) =>
        ok, s := MergeBitmaps(a);
        assert ok ==> bitmaps[key := m[key]] == m;
      assert [s][..0] == [];
    }

    method PrepareEnable(key: Key) returns (ok: bool, s: ActionState)
      requires Valid()
      modifies this`bitmaps
      ensures Valid() && ok == Effect(nodes, true, old(bitmaps), Enable(key)).Some?
      ensures bitmaps == if ok then Effect(nodes, true, old(bitmaps), Enable(key)).value else old(bitmaps)
      ensures ok ==> Took(Enable(key), s, old(bitmaps), bitmaps)
      ensures !ok ==> FailedWith(nodes, true, bitmaps, Enable(key), s)
      ensures |bitmaps| == |old(bitmaps)| && s.backup == None
    {
      s := ZEROED;
      ghost var m := bitmaps;
      ok := key.node in nodes && key in bitmaps;
      if !ok {
        return;
      }
      s := s.(bitmap := Some(key));
      ok := Usable(bitmaps[key], true);
      if ok {
        var b := bitmaps[key];
        s := s.(wasEnabled := !b.disabled);
        bitmaps := bitmaps[key := b.(disabled := false)];
        assert bitmaps[key := b] == m;
      }
    }

    method PrepareClear(key: Key) returns (ok: bool, s: ActionState)
      requires Valid()
      modifies this`bitmaps, this`live
      ensures Valid() && ok == Effect(nodes, true, old(bitmaps), Clear(key)).Some?
      ensures bitmaps == if ok then Effect(nodes, true, old(bitmaps), Clear(key)).value else old(bitmaps)
      ensures Took(Clear(key), s, old(bitmaps), bitmaps)
      ensures !ok ==> s.backup == None && !s.prepared && !s.wasEnabled
      ensures |bitmaps| == |old(bitmaps)| && live == old(live) + (if s.backup.Some? then 1 else 0)
    {
      s := ZEROED;
      ghost var m := bitmaps;
      ok := key.node in nodes && key in bitmaps;
      if !ok {
        return;
      }
      s := s.(bitmap := Some(key));
      ok := Usable(bitmaps[key], false);
      if ok {
        assert BitmapOk(bitmaps[key]);
        var b := bitmaps[key];
        bitmaps := bitmaps[key := b.(bits := HBitmap(b.size, b.bits.granularity, {}))];
        live := live + 1;
        s := s.(backup := Some(b.bits));
        assert bitmaps[key := b] == m;
      }
    }

    method PrepareDisable(key: Key) returns (ok: bool, s: ActionState)
      requires Valid()
      modifies this`bitmaps
      ensures Valid() && ok == Effect(nodes, true, old(bitmaps), Disable(key)).Some?
      ensures bitmaps == if ok then Effect(nodes, true, old(bitmaps), Disable(key)).value else old(bitmaps)
      ensures Took(Disable(key), s, old(bitmaps), bitmaps)
      ensures !ok ==> !s.prepared && !s.wasEnabled
      ensures |bitmaps| == |old(bitmaps)| && s.backup == None
    {
      s := ZEROED;
      ghost var m := bitmaps;
      ok := key.node in nodes && key in bitmaps;
      if !ok {
        return;
      }
      s := s.(bitmap := Some(key));
      ok := Usable(bitmaps[key], true);
      if ok {
        var b := bitmaps[key];
        s := s.(wasEnabled := !b.disabled);
        bitmaps := bitmaps[key := b.(disabled := true)];
        assert bitmaps[key := b] == m;
      }
    }

    // True when the callback runs into a missing bitmap.
    method Abort(a: Action, s: ActionState) returns (crashed: bool)
      requires Valid() && (Undoable(a, s, bitmaps) ==> BitmapsOk(Undo(a, s, bitmaps)))
      requires Undoable(a, s, bitmaps) || (a.Enable? && s.bitmap == None)
      requires s.backup.Some? ==> a.Clear? || a.Merge?
      modifies this`bitmaps, this`live
      ensures crashed <==> !Undoable(a, s, old(bitmaps))
      ensures !crashed ==> Valid() && bitmaps == Undo(a, s, old(bitmaps))
      ensures !crashed ==> live - |bitmaps| == old(live - |bitmaps|) - Backups([s])
    {
      assert [s][..0] == [];
      crashed := false;
      match a
      case Add(key, _, _, _) =>
        if s.prepared {
          RemoveBitmap(key);
        }
      case Enable(_) =>
        if !s.wasEnabled {
          if s.bitmap == None {
            return true;
          }
          var key := s.bitmap.value;
          bitmaps := bitmaps[key := bitmaps[key].(disabled := true)];
        }
      case Disable(_) =>
        if s.wasEnabled {
          var key := s.bitmap.value;
          bitmaps := bitmaps[key := bitmaps[key].(disabled := false)];
        }
      case _ =>
        if s.backup.Some? {
          var key := s.bitmap.value;
          bitmaps := bitmaps[key := bitmaps[key].(bits := s.backup.value)];
          live := live - 1;
        }
    }

    // block_dirty_bitmap_free_backup, for the actions that have it
    method Commit(a: Action, s: ActionState)
      requires s.backup.Some? ==> a.Clear? || a.Merge?
      modifies this`live
      ensures live == old(live) - Backups([s])
    {
      assert [s][..0] == [];
      if (a.Clear? || a.Merge?) && s.backup.Some? {
        live := live - 1;
      }
    }

    // ---------------------------------------------------------- the four loops

    // `history` has the state before each action that was prepared, and the last state.
    method PrepareAll(actions: seq<Action>, individual: bool) returns (ok: bool, states: seq<ActionState>, ghost history: seq<Bitmaps>)
      requires Valid()
      modifies this
      ensures Valid() && 0 < |history| && history[0] == old(bitmaps) && history[|history| - 1] == bitmaps
      ensures |states| == |history| - if ok then 1 else 0
      ensures |states| <= |actions| && Recorded(actions, states[..|history| - 1], history)
      ensures EffectAll(nodes, individual, old(bitmaps), actions[..|history| - 1]) == Some(bitmaps)
      ensures ok ==> |states| == |actions|
      ensures !ok ==> Effect(nodes, individual, bitmaps, actions[|states| - 1]) == None
      ensures !ok ==> FailedWith(nodes, individual, bitmaps, actions[|states| - 1], states[|states| - 1])
      ensures live - |bitmaps| == old(live - |bitmaps|) + Backups(states)
      ensures log == old(log) + Upward(|states|, Preparing)
    {
      ghost var m := bitmaps;
      states, history := [], [bitmaps];
      ok := true;
      for i := 0 to |actions|
        invariant Valid() && |states| == i && Recorded(actions, states, history)
        invariant history[0] == m && history[i] == bitmaps
        invariant EffectAll(nodes, individual, m, actions[..i]) == Some(bitmaps)
        invariant live - |bitmaps| == old(live - |bitmaps|) + Backups(states)
        invariant log == old(log) + Upward(i, Preparing)
      {
        EffectAllStep(nodes, individual, m, actions, i, bitmaps);
        var s;
        ok, s := Prepare(actions[i], individual);
        UpwardStep(old(log), log, i, Preparing);
        log := log + [Call(Preparing, i)];
        BackupsAppend(states, s);
        if !ok {
          assert (states + [s])[..i] == states;
          states := states + [s];
          return;
        }
        RecordedAppend(actions, states, history, s, bitmaps);
        states, history := states + [s], history + [bitmaps];
      }
      assert states[..|states|] == states;
    }

    method CommitAll(actions: seq<Action>, states: seq<ActionState>)
      requires |states| == |actions|
      requires forall i :: 0 <= i < |states| && states[i].backup.Some? ==> actions[i].Clear? || actions[i].Merge?
      modifies this`live, this`log
      ensures live == old(live) - Backups(states)
      ensures log == old(log) + Upward(|states|, Committing)
    {
      for i := 0 to |states|
        invariant live == old(live) - Backups(states[..i])
        invariant log == old(log) + Upward(i, Committing)
      {
        assert states[..i + 1] == states[..i] + [states[i]];
        BackupsAppend(states[..i], states[i]);
        Commit(actions[i], states[i]);
        UpwardStep(old(log), log, i, Committing);
        log := log + [Call(Committing, i)];
      }
      assert states[..|states|] == states;
    }

    // The states of the actions that were prepared are undone, last first. `k` is the
    // bitmap that a failed enable has spoilt.
    method AbortRest(actions: seq<Action>, states: seq<ActionState>, ghost history: seq<Bitmaps>, ghost k: Option<Key>)
      requires Valid() && Recorded(actions, states, history)
      requires Unusable(history[|states|], k) && bitmaps == Spoilt(history[|states|], k)
      modifies this
      ensures Valid() && Unusable(history[0], k) && bitmaps == Spoilt(history[0], k)
      ensures k.Some? ==> k.value in history[|states|] && history[0][k.value] == history[|states|][k.value]
      ensures live - |bitmaps| == old(live - |bitmaps|) - Backups(states)
      ensures log == old(log) + Downward(|states|, Aborting)
    {
      ghost var n := |states|;
      assert states[..|states|] == states;
      for i := |states| downto 0
        invariant Valid() && Unusable(history[i], k) && bitmaps == Spoilt(history[i], k)
        invariant k.Some? ==> k.value in history[n] && history[i][k.value] == history[n][k.value]
        invariant live - |bitmaps| == old(live - |bitmaps|) - Backups(states) + Backups(states[..i])
        invariant log == old(log) + Downward(n, Aborting)[..n - i]
      {
        assert TookAt(actions, states, history, i);
        UndoSpoilt(actions[i], states[i], history[i], history[i + 1], k);
        SpoiltOk(history[i], k);
        assert states[..i + 1] == states[..i] + [states[i]];
        BackupsAppend(states[..i], states[i]);
        var crashed := Abort(actions[i], states[i]);
        log := log + [Call(Aborting, i)];
        assert Downward(n, Aborting)[..n - i] == Downward(n, Aborting)[..n - i - 1] + [Call(Aborting, i)];
      }
      assert Downward(n, Aborting)[..n] == Downward(n, Aborting);
    }

    // After a failed prepare: first the action that failed is aborted, then the others.
    method AbortAll(actions: seq<Action>, states: seq<ActionState>, individual: bool, ghost history: seq<Bitmaps>) returns (crashed: bool)
      requires Valid() && 0 < |states| == |history| && |states| <= |actions|
      requires Recorded(actions, states[..|states| - 1], history) && history[|states| - 1] == bitmaps
      requires Effect(nodes, individual, bitmaps, actions[|states| - 1]) == None
      requires FailedWith(nodes, individual, bitmaps, actions[|states| - 1], states[|states| - 1])
      modifies this
      ensures var a := actions[|states| - 1];
        && (crashed <==> Crashes(nodes, individual, old(bitmaps), a))
        && (!crashed ==> Valid() && PutBack(nodes, individual, old(bitmaps), a, history[0], bitmaps))
      ensures !crashed ==> live - |bitmaps| == old(live - |bitmaps|) - Backups(states)
      ensures !crashed ==> log == old(log) + Downward(|states|, Aborting)
    {
      var last := |states| - 1;
      ghost var a := actions[last];
      ghost var k := if Spoils(nodes, individual, bitmaps, a) then Some(a.key) else None;
      ghost var before := live - |bitmaps|;
      FailedUndo(nodes, individual, bitmaps, a, states[last], k);
      crashed := Abort(actions[last], states[last]);
      if crashed {
        return;
      }
      log := log + [Call(Aborting, last)];
      assert states == states[..last] + [states[last]];
      BackupsAppend(states[..last], states[last]);
      AbortRest(actions, states[..last], history, k);
      IsPutBack(nodes, individual, history[last], a, history[0], k);
      assert [Call(Aborting, last)] + Downward(last, Aborting) == Downward(|states|, Aborting);
    }

    method CleanAll(states: seq<ActionState>)
      modifies this`log
      ensures log == old(log) + Upward(|states|, Cleaning)
    {
      for i := 0 to |states|
        invariant log == old(log) + Upward(i, Cleaning)
      {
        UpwardStep(old(log), log, i, Cleaning);
        log := log + [Call(Cleaning, i)];
      }
    }

    method Transaction(actions: seq<Action>, individual: bool) returns (ok: bool, crashed: bool, ghost visited: nat)
      requires Valid()
      modifies this
      // it succeeds exactly if all actions, one after the other, can be taken
      ensures ok == EffectAll(nodes, individual, old(bitmaps), actions).Some?
      ensures ok ==> Some(bitmaps) == EffectAll(nodes, individual, old(bitmaps), actions)
      ensures ok ==> visited == |actions| && !crashed && MeantAll(nodes, old(bitmaps), bitmaps, actions)
      // otherwise all bitmaps are as they were, if and only if the abort of the action
      // that failed is up to that
      ensures !ok ==> AfterFailure(nodes, individual, old(bitmaps), actions, visited, crashed, bitmaps)
      ensures !crashed ==> Valid()
      // no bitmap is leaked or freed twice
      ensures !crashed ==> live - |bitmaps| == old(live - |bitmaps|)
      // actions are prepared in order; then all of them are committed in order, or all
      // aborted in reverse; and all are cleaned up
      ensures !crashed ==> log == old(log) + Visits(visited, ok)
    {
      var states;
      ghost var history;
      ok, states, history := PrepareAll(actions, individual);
      visited, crashed := |states|, false;
      if ok {
        assert actions[..|actions|] == actions && states[..|states|] == states;
        BackupKinds(actions, states, history);
        EffectAllMeans(nodes, old(bitmaps), bitmaps, actions);
        CommitAll(actions, states);
      } else {
        crashed := RollBack(actions, states, individual, history);
        if crashed {
          return;
        }
      }
      CleanAll(states);
      VisitsJoin(old(log), visited, ok);
    }

    method RollBack(actions: seq<Action>, states: seq<ActionState>, individual: bool, ghost history: seq<Bitmaps>) returns (crashed: bool)
      requires Valid() && 0 < |states| == |history| && |states| <= |actions|
      requires Recorded(actions, states[..|states| - 1], history) && history[|states| - 1] == bitmaps
      requires EffectAll(nodes, individual, history[0], actions[..|states| - 1]) == Some(bitmaps)
      requires Effect(nodes, individual, bitmaps, actions[|states| - 1]) == None
      requires FailedWith(nodes, individual, bitmaps, actions[|states| - 1], states[|states| - 1])
      modifies this
      ensures EffectAll(nodes, individual, history[0], actions) == None
      ensures AfterFailure(nodes, individual, history[0], actions, |states|, crashed, bitmaps)
      ensures !crashed ==> Valid() && live - |bitmaps| == old(live - |bitmaps|) - Backups(states)
      ensures !crashed ==> log == old(log) + Downward(|states|, Aborting)
    {
      ghost var n := |states|;
      EffectAllStep(nodes, individual, history[0], actions, n - 1, bitmaps);
      FoldFails(Stepper(nodes, individual), history[0], actions, n);
      crashed := AbortAll(actions, states, individual, history);
    }
  }

  // All bitmaps are as in m0, but for the one that the failure of a in m has spoilt.
  ghost predicate PutBack(nodes: Nodes, individual: bool, m: Bitmaps, a: Action, m0: Bitmaps, m': Bitmaps) {
    if Spoils(nodes, individual, m, a) then m' == Spoilt(m0, Some(a.key)) && m' != m0 else m' == m0
  }

  lemma IsPutBack(nodes: Nodes, individual: bool, m: Bitmaps, a: Action, m0: Bitmaps, k: Option<Key>)
    requires k == if Spoils(nodes, individual, m, a) then Some(a.key) else None
    requires k.Some? ==> k.value in m && k.value in m0 && m0[k.value] == m[k.value]
    ensures PutBack(nodes, individual, m, a, m0, Spoilt(m0, k))
  {
    if k.Some? {
      assert Spoilt(m0, k)[a.key].disabled && !m0[a.key].disabled;
    }
  }

  // Action n - 1 was the first to fail, after all before it had been prepared.
  ghost predicate AfterFailure(nodes: Nodes, individual: bool, m: Bitmaps, actions: seq<Action>, n: nat, crashed: bool, m': Bitmaps) {
    && 0 < n <= |actions|
    && EffectAll(nodes, individual, m, actions[..n]) == None
    && EffectAll(nodes, individual, m, actions[..n - 1]).Some?
    && var before := EffectAll(nodes, individual, m, actions[..n - 1]).value;
       && (crashed <==> Crashes(nodes, individual, before, actions[n - 1]))
       && (!crashed ==> (m' == m <==> !Spoils(nodes, individual, before, actions[n - 1])))
       && (!crashed && m' != m ==> m' == Spoilt(m, Some(actions[n - 1].key)))
  }

  // What a failed prepare leaves in the action's state.
  ghost predicate FailedWith(nodes: Nodes, individual: bool, m: Bitmaps, a: Action, s: ActionState) {
    && s.backup == None && !s.prepared && !s.wasEnabled
    && (a.Enable? ==> s.bitmap == if Crashes(nodes, individual, m, a) then None else Some(a.key))
  }

  lemma FailedUndo(nodes: Nodes, individual: bool, m: Bitmaps, a: Action, s: ActionState, k: Option<Key>)
    requires BitmapsOk(m) && NodesOk(nodes) && Effect(nodes, individual, m, a) == None && FailedWith(nodes, individual, m, a, s)
    requires k == if Spoils(nodes, individual, m, a) then Some(a.key) else None
    ensures Undoable(a, s, m) <==> !Crashes(nodes, individual, m, a)
    ensures Undoable(a, s, m) ==> Undo(a, s, m) == Spoilt(m, k) && BitmapsOk(Spoilt(m, k))
    ensures Unusable(m, k)
  {
    if a.Enable? && !Crashes(nodes, individual, m, a) && m[a.key].disabled {
      assert m[a.key := m[a.key].(disabled := true)] == m;
    }
  }

  // It does happen: an enabled bitmap in use by a job is left disabled, and a bitmap that
  // does not exist cannot be aborted at all.
  lemma EnableExample(info: NodeInfo) returns (nodes: Nodes, m: Bitmaps, a: Action, b: Action)
    requires info.granularity > 0
    ensures NodesOk(nodes) && BitmapsOk(m)
    ensures EffectAll(nodes, true, m, [a]) == None && EffectAll(nodes, true, m, [b]) == None
    ensures forall n, crashed, m' :: AfterFailure(nodes, true, m, [a], n, crashed, m') ==> !crashed && m' != m
    ensures forall n, crashed, m' :: AfterFailure(nodes, true, m, [b], n, crashed, m') ==> crashed
  {
    nodes := map["disk" := info];
    var busy := Bitmap(HBitmap(0, 512, {}), 0, false, true, false, false, false);
    m := map[Key("disk", "b0") := busy];
    a, b := Enable(Key("disk", "b0")), Enable(Key("disk", "b1"));
    LoneFailure(nodes, m, a);
    LoneFailure(nodes, m, b);
  }

  lemma LoneFailure(nodes: Nodes, m: Bitmaps, a: Action)
    requires NodesOk(nodes) && BitmapsOk(m) && Effect(nodes, true, m, a) == None
    ensures EffectAll(nodes, true, m, [a]) == None
    ensures forall n, crashed, m' :: AfterFailure(nodes, true, m, [a], n, crashed, m') ==>
      && (crashed <==> Crashes(nodes, true, m, a))
      && (!crashed ==> (m' == m <==> !Spoils(nodes, true, m, a)))
  {
    EffectAllStep(nodes, true, m, [a], 0, m);
    assert [a][..0] == [] && [a][..1] == [a];
  }

  lemma SpoiltOk(m: Bitmaps, k: Option<Key>)
    requires BitmapsOk(m)
    ensures BitmapsOk(Spoilt(m, k))
  {
    if k.Some? && k.value in m {
      assert BitmapOk(m[k.value]);
    }
  }

  // history[i] is the state before action i.
  ghost predicate Recorded(actions: seq<Action>, states: seq<ActionState>, history: seq<Bitmaps>) {
    && |states| <= |actions| && |history| == |states| + 1
    && (forall i :: 0 <= i < |history| ==> BitmapsOk(history[i]))
    && (forall i {:trigger TookAt(actions, states, history, i)} :: 0 <= i < |states| ==> TookAt(actions, states, history, i))
  }

  ghost predicate TookAt(actions: seq<Action>, states: seq<ActionState>, history: seq<Bitmaps>, i: nat)
    requires i < |states| <= |actions| && |history| == |states| + 1
  {
    Took(actions[i], states[i], history[i], history[i + 1])
  }

  lemma RecordedAppend(actions: seq<Action>, states: seq<ActionState>, history: seq<Bitmaps>, s: ActionState, m: Bitmaps)
    requires Recorded(actions, states, history) && |states| < |actions| && BitmapsOk(m)
    requires Took(actions[|states|], s, history[|states|], m)
    ensures Recorded(actions, states + [s], history + [m])
  {
    forall i | 0 <= i < |states| + 1
      ensures TookAt(actions, states + [s], history + [m], i)
    {
      assert i < |states| ==> TookAt(actions, states, history, i);
    }
  }

  // Only clear and merge keep backups.
  lemma BackupKinds(actions: seq<Action>, states: seq<ActionState>, history: seq<Bitmaps>)
    requires Recorded(actions, states, history)
    ensures forall i :: 0 <= i < |states| && states[i].backup.Some? ==> actions[i].Clear? || actions[i].Merge?
  {
    forall i | 0 <= i < |states| && states[i].backup.Some?
      ensures actions[i].Clear? || actions[i].Merge?
    {
      assert TookAt(actions, states, history, i);
    }
  }

  lemma EffectAllStep(nodes: Nodes, individual: bool, m: Bitmaps, actions: seq<Action>, i: nat, b: Bitmaps)
    requires NodesOk(nodes) && i < |actions| && EffectAll(nodes, individual, m, actions[..i]) == Some(b) && BitmapsOk(b)
    ensures EffectAll(nodes, individual, m, actions[..i + 1]) == Effect(nodes, individual, b, actions[i])
  {
    assert actions[..i + 1][..i] == actions[..i];
  }

  lemma BackupsAppend(states: seq<ActionState>, s: ActionState)
    ensures Backups(states + [s]) == Backups(states) + Backups([s])
  {
    assert (states + [s])[..|states|] == states && [s][..0] == [];
  }

  // What fails part of the way fails as a whole.
  lemma {:induction false} FoldFails(f: (Bitmaps, Action) -> Option<Bitmaps>, m: Bitmaps, actions: seq<Action>, n: nat)
    requires n <= |actions| && Fold(f, m, actions[..n]) == None
    ensures Fold(f, m, actions) == None
    decreases |actions|
  {
    if n == |actions| {
      assert actions[..n] == actions;
    } else {
      var k := |actions| - 1;
      assert actions[..k][..n] == actions[..n];
      FoldFails(f, m, actions[..k], n);
    }
  }
}
