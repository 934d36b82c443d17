// The virtual clock of cpus.c when it counts instructions: instructions are budgeted,
// executed and accounted for, time can be read by any thread at any moment, and the
// speed of the clock is adjusted as it runs.
module VirtualClocks {
  import opened Options

  const MAX_ICOUNT_SHIFT: int := 10
  const ICOUNT_WOBBLE: int := 100000000
  const DECR_MAX: int := 0xffff

  // timers_state and the counters of the CPU whose turn it is. `budgeted` is auxiliary:
  // the CPU's thread is between prepare_icount_for_run and process_icount_data.
  datatype Clock = Clock(icount: int, bias: int, shift: int, lastDelta: int,
                         budgeted: bool, running: bool, budget: int, low: int, extra: int,
                         enabled: bool, clockOffset: int, ticksOffset: int, ticksPrev: int,
                         adaptive: bool, warpStart: int)

  // cpu_icount_to_ns: n << shift
  function ToNs(n: int, shift: int): int
    decreases shift
  {
    if shift <= 0 then n else 2 * ToNs(n, shift - 1)
  }

  const SCALES: seq<int> := [1, 2, 4, 8, 16, 32, 64, 128, 256, 512, 1024]

  // Executed and not yet accounted for.
  function Unaccounted(c: Clock): int {
    c.budget - (c.low + c.extra)
  }

  ghost predicate ClockOk(c: Clock) {
    && 0 <= c.shift && (c.adaptive ==> c.shift <= MAX_ICOUNT_SHIFT)
    && 0 <= c.low <= DECR_MAX && 0 <= c.extra && 0 <= Unaccounted(c)
    && (c.running ==> c.budgeted)
    && (!c.budgeted ==> c.budget == c.low == c.extra == 0)
  }

  // Instructions executed so far, and the time that makes.
  ghost function Executed(c: Clock): int {
    c.icount + Unaccounted(c)
  }

  ghost function VirtualTime(c: Clock): int {
    c.bias + ToNs(Executed(c), c.shift)
  }

  // The time that other threads see: what has been accounted for.
  function Shown(c: Clock): int {
    c.bias + ToNs(c.icount, c.shift)
  }

  // What they do not see yet.
  ghost function Hidden(c: Clock): int {
    ToNs(Unaccounted(c), c.shift)
  }

  // VM time at host time `host`.
  function Elapsed(c: Clock, host: int): int {
    c.clockOffset + if c.enabled then host else 0
  }

  // The tick count when the host's counter is at `ticks`.
  function Ticks(c: Clock, ticks: int): int {
    c.ticksOffset + if c.enabled then ticks else 0
  }

  // ------------------------------------------------------------------ operations

  // cpu_update_icount_locked
  function Updated(c: Clock): Clock {
    c.(icount := c.icount + Unaccounted(c), budget := c.budget - Unaccounted(c))
  }

  // cpu_get_icount_raw_locked accounts for what has run only if the CPU runs and the
  // caller is its thread; `own` says that current_cpu is this CPU.
  function Accounted(c: Clock, own: bool): Clock {
    if own && c.running then Updated(c) else c
  }

  function Budgeted(c: Clock, budget: int): Clock {
    var low := if budget < DECR_MAX then budget else DECR_MAX;
    c.(budget := budget, low := low, extra := budget - low)
  }

  // The guest is too far ahead, or too far behind, for the speed to stay as it is.
  predicate Slows(shift: int, delta: int, lastDelta: int) {
    delta > 0 && lastDelta + ICOUNT_WOBBLE < delta * 2 && shift > 0
  }

  predicate Quickens(shift: int, delta: int, lastDelta: int) {
    delta < 0 && lastDelta - ICOUNT_WOBBLE > delta * 2 && shift < MAX_ICOUNT_SHIFT
  }

  // the new shift of icount_adjust
  function Adjusted(shift: int, delta: int, lastDelta: int): int {
    if Slows(shift, delta, lastDelta) then shift - 1
    else if Quickens(shift, delta, lastDelta) then shift + 1
    else shift
  }

  datatype Op =
    | Prepare(limit: nat)             // prepare_icount_for_run
    | Start                           // cpu_exec_start has set running
    | Execute(n: nat)                 // n instructions
    | Refill                          // the decrementer has expired
    | Stop                            // cpu_exec_end has cleared running
    | Process                         // process_icount_data
    | Read(own: bool)                 // cpu_get_icount
    | Adjust(own: bool, host: int)    // icount_adjust while the machine runs
    | Enable(ticks: int, host: int)   // cpu_enable_ticks
    | Disable(ticks: int, host: int)  // cpu_disable_ticks
    | GetTicks(ticks: int)            // cpu_get_ticks_locked
    | StartWarp(host: int)            // qemu_start_warp_timer: all CPUs sleep until a deadline
    | Warp(own: bool, host: int, vm: bool)  // icount_warp_rt; vm says whether the machine runs

  // When an operation can happen.
  ghost predicate Can(c: Clock, op: Op) {
    match op
    case Prepare(_) => !c.budgeted
    case Start => c.budgeted && !c.running
    case Execute(n) => c.running && n <= c.low
    case Refill => c.running
    case Stop => c.running
    case Process => c.budgeted && !c.running
    case Adjust(_, _) => c.adaptive
    case _ => true
  }

  // What icount_warp_rt adds to the bias.
  ghost function WarpDelta(c: Clock, own: bool, host: int, vm: bool): int {
    if c.warpStart == -1 || !vm then 0
    else
      var delta := Elapsed(c, host) - c.warpStart;
      var ahead := Elapsed(c, host) - Shown(Accounted(c, own));
      if c.adaptive && ahead < delta then ahead else delta
  }

  ghost function AfterWarp(c: Clock, own: bool, host: int, vm: bool): Clock {
    if c.warpStart == -1 then c
    else
      var c1 := if vm && c.adaptive then Accounted(c, own) else c;
      c1.(bias := c1.bias + WarpDelta(c, own, host, vm), warpStart := -1)
  }

  ghost function AfterAdjust(c: Clock, own: bool, host: int): Clock {
    var c1 := Accounted(c, own);
    var delta := Shown(c1) - Elapsed(c1, host);
    var shift := Adjusted(c1.shift, delta, c1.lastDelta);
    c1.(shift := shift, lastDelta := delta, bias := Shown(c1) - ToNs(c1.icount, shift))
  }

  ghost function Apply(c: Clock, op: Op): Clock {
    match op
    case Prepare(limit) => Budgeted(c, limit).(budgeted := true)
    case Start => c.(running := true)
    case Execute(n) => c.(low := c.low - n)
    case Refill => Budgeted(Updated(c), Updated(c).budget)
    case Stop => c.(running := false)
    case Process => Updated(c).(budgeted := false, budget := 0, low := 0, extra := 0)
    case Read(own) => Accounted(c, own)
    case Adjust(own, host) => AfterAdjust(c, own, host)
    case Enable(ticks, host) =>
      if c.enabled then c
      else c.(ticksOffset := c.ticksOffset - ticks, clockOffset := c.clockOffset - host, enabled := true)
    case Disable(ticks, host) =>
      if !c.enabled then c
      else c.(ticksOffset := c.ticksOffset + ticks, clockOffset := Elapsed(c, host), enabled := false)
    case GetTicks(ticks) =>
      var t := c.ticksOffset + if c.enabled then ticks else 0;
      if c.ticksPrev > t then c.(ticksOffset := c.ticksOffset + (c.ticksPrev - t)) else c.(ticksPrev := t)
    case StartWarp(host) =>
      if c.warpStart == -1 || c.warpStart > Elapsed(c, host) then c.(warpStart := Elapsed(c, host)) else c
    case Warp(own, host, vm) => AfterWarp(c, own, host, vm)
  }

  // ------------------------------------------------------------- how time moves

  lemma {:induction false} ToNsAdd(m: int, n: int, shift: int)
    ensures ToNs(m + n, shift) == ToNs(m, shift) + ToNs(n, shift)
    decreases shift
  {
    if shift > 0 {
      ToNsAdd(m, n, shift - 1);
    }
  }

  lemma {:induction false} ToNsSign(n: nat, shift: int)
    ensures n <= ToNs(n, shift) && (n == 0 ==> ToNs(n, shift) == 0)
    decreases shift
  {
    if shift > 0 {
      ToNsSign(n, shift - 1);
    }
  }

  // Each shift doubles the length of an instruction.
  lemma {:induction false} ToNsScale(n: int, shift: nat)
    requires shift < |SCALES|
    ensures ToNs(n, shift) == n * SCALES[shift]
  {
    if shift > 0 {
      ToNsScale(n, shift - 1);
      var x := SCALES[shift - 1];
      assert SCALES[shift] == 2 * x;
      assert n * (2 * x) == 2 * (n * x);
    }
  }

  // Beyond the table, ten more shifts are a factor of 1024.
  lemma {:induction false} ToNsMore(n: int, shift: nat)
    requires 10 <= shift
    ensures ToNs(n, shift) == 1024 * ToNs(n, shift - 10)
  {
    if shift == 10 {
      ToNsScale(n, 10);
    } else {
      ToNsMore(n, shift - 1);
    }
  }

  // A greater shift makes instructions longer.
  lemma ToNsGrows(n: nat, shift: nat)
    ensures if n == 0 then ToNs(n, shift) == ToNs(n, shift + 1) else ToNs(n, shift) < ToNs(n, shift + 1)
  {
    ToNsSign(n, shift);
  }

  // Guest time is what is shown and what is hidden.
  lemma TimeSplit(c: Clock)
    ensures VirtualTime(c) == Shown(c) + Hidden(c)
  {
    ToNsAdd(c.icount, Unaccounted(c), c.shift);
  }

  // Accounting brings to light what was hidden.
  lemma UpdatedTime(c: Clock)
    ensures Unaccounted(Updated(c)) == 0 && Executed(Updated(c)) == Executed(c)
    ensures Shown(Updated(c)) == VirtualTime(Updated(c)) == VirtualTime(c)
  {
  }

  lemma HiddenSign(c: Clock)
    requires ClockOk(c)
    ensures 0 <= Hidden(c) && (0 < Hidden(c) <==> 0 < Unaccounted(c))
  {
    ToNsSign(Unaccounted(c), c.shift);
  }

  // What an operation on the thread `own` stands for brings to light.
  ghost function Gain(c: Clock, own: bool): int {
    if own && c.running then Hidden(c) else 0
  }

  // What a read keeps: the CPU's own thread sees guest time, others what has been
  // accounted for, and guest time does not move.
  ghost predicate ReadMeans(c: Clock, c': Clock, own: bool) {
    && (0 <= c.shift < |SCALES| ==> Shown(c') == c'.bias + c'.icount * SCALES[c.shift])
    && VirtualTime(c') == VirtualTime(c) && Executed(c') == Executed(c)
    && Shown(c') == if own && c.running then VirtualTime(c) else Shown(c)
  }

  // How far an operation moves the time shown.
  ghost function ShownAdvance(c: Clock, op: Op): int {
    match op
    case Refill | Process => Hidden(c)
    case Read(own) => Gain(c, own)
    case Adjust(own, _) => Gain(c, own)
    case Warp(own, host, vm) =>
      WarpDelta(c, own, host, vm) + if c.warpStart != -1 && vm && c.adaptive then Gain(c, own) else 0
    case _ => 0
  }

  // How far an operation moves guest time. An adjustment moves it if the instructions
  // that have not been accounted for change their length.
  ghost function Advance(c: Clock, op: Op): int {
    match op
    case Execute(n) => ToNs(n, c.shift)
    case Adjust(own, _) =>
      if own && c.running then 0 else ToNs(Unaccounted(c), Apply(c, op).shift) - ToNs(Unaccounted(c), c.shift)
    case Warp(own, host, vm) => WarpDelta(c, own, host, vm)
    case _ => 0
  }

  lemma MovesAccount(c: Clock, op: Op)
    requires ClockOk(c) && Can(c, op) && (op.Refill? || op.Process? || op.Read?)
    ensures var c' := Apply(c, op);
      && ClockOk(c') && Executed(c') == Executed(c)
      && Shown(c') == Shown(c) + ShownAdvance(c, op) && VirtualTime(c') == VirtualTime(c)
  {
    UpdatedTime(c);
    TimeSplit(c);
  }

  lemma MovesAdjust(c: Clock, own: bool, host: int)
    requires ClockOk(c) && c.adaptive
    ensures var c' := Apply(c, Adjust(own, host));
      && ClockOk(c') && Executed(c') == Executed(c)
      && Shown(c') == Shown(c) + Gain(c, own)
      && VirtualTime(c') == VirtualTime(c) + Advance(c, Adjust(own, host))
  {
    var c', c1 := Apply(c, Adjust(own, host)), Accounted(c, own);
    assert Shown(c') == Shown(c1) && Unaccounted(c') == Unaccounted(c1);
    UpdatedTime(c);
    TimeSplit(c);
    TimeSplit(c');
  }

  lemma MovesWarp(c: Clock, own: bool, host: int, vm: bool)
    requires ClockOk(c)
    ensures var op := Warp(own, host, vm);
      var c' := Apply(c, op);
      && ClockOk(c') && Executed(c') == Executed(c)
      && Shown(c') == Shown(c) + ShownAdvance(c, op)
      && VirtualTime(c') == VirtualTime(c) + WarpDelta(c, own, host, vm)
  {
    UpdatedTime(c);
    TimeSplit(c);
  }

  // What an adjustment keeps. On the running CPU's thread guest time stands still and
  // comes to light; on another thread the time shown stands still, and guest time moves
  // by what the instructions that are not accounted for gain or lose. The clock is slowed
  // down by one shift only if it is ahead of the time of the machine, by more than it was
  // last time and a tenth of a second, both halved; and quickened likewise if it is behind.
  ghost predicate AdjustKeeps(c: Clock, c': Clock, own: bool, host: int) {
    var ahead := Shown(c') - Elapsed(c, host);
    && (c'.shift < c.shift <==> c.shift > 0 && ahead > 0 && ahead * 2 > c.lastDelta + 100000000)
    && (c'.shift > c.shift <==> c.shift < 10 && ahead < 0 && ahead * 2 < c.lastDelta - 100000000)
    && c.shift - 1 <= c'.shift <= c.shift + 1 && c'.lastDelta == ahead
    && ClockOk(c') && Executed(c') == Executed(c)
    && if own && c.running then Shown(c') == VirtualTime(c') == VirtualTime(c)
       else Shown(c') == Shown(c) && Unaccounted(c') == Unaccounted(c)
            && VirtualTime(c') - VirtualTime(c) == ToNs(Unaccounted(c), c'.shift) - ToNs(Unaccounted(c), c.shift)
  }

  lemma AdjustMeans(c: Clock, own: bool, host: int)
    requires ClockOk(c) && c.adaptive
    ensures AdjustKeeps(c, AfterAdjust(c, own, host), own, host)
  {
    MovesAdjust(c, own, host);
    TimeSplit(c);
  }

  // What a warp does: guest time moves by the time slept; in adaptive mode, what is shown
  // then does not go beyond the time of the machine, and reaches it if it moves by less.
  ghost predicate WarpMoves(c: Clock, c': Clock, host: int) {
    var moved, slept := VirtualTime(c') - VirtualTime(c), Elapsed(c, host) - c.warpStart;
    && ClockOk(c') && Executed(c') == Executed(c) && c'.warpStart == -1
    && if !c.adaptive then moved == slept
       else moved <= slept && Shown(c') <= Elapsed(c, host) && (moved < slept ==> Shown(c') == Elapsed(c, host))
  }

  lemma WarpMeans(c: Clock, own: bool, host: int)
    requires ClockOk(c) && c.warpStart != -1
    ensures WarpMoves(c, AfterWarp(c, own, host, true), host)
  {
    MovesWarp(c, own, host, true);
    UpdatedTime(c);
    TimeSplit(c);
  }

  // Only execution moves the count. Guest time is moved by execution, by warps, and by
  // an adjustment on another thread; the time shown by warps and by whatever accounts
  // for instructions.
  lemma Moves(c: Clock, op: Op)
    requires ClockOk(c) && Can(c, op)
    ensures ClockOk(Apply(c, op))
    ensures Executed(Apply(c, op)) == Executed(c) + if op.Execute? then op.n else 0
    ensures VirtualTime(Apply(c, op)) == VirtualTime(c) + Advance(c, op)
    ensures Shown(Apply(c, op)) == Shown(c) + ShownAdvance(c, op)
  {
    match op
    case Adjust(own, host) => MovesAdjust(c, own, host);
    case Warp(own, host, vm) => MovesWarp(c, own, host, vm);
    case Execute(n) =>
      ToNsAdd(Executed(c), n, c.shift);
    case Refill | Process | Read(_) => MovesAccount(c, op);
    case _ =>
  }

  // -------------------------------------------------------------------- every run

  ghost predicate IsRun(run: seq<Clock>, ops: seq<Op>) {
    && |run| == |ops| + 1 && ClockOk(run[0])
    && forall k {:trigger StepOk(run, ops, k)} :: 0 <= k < |ops| ==> StepOk(run, ops, k)
  }

  ghost predicate StepOk(run: seq<Clock>, ops: seq<Op>, k: nat)
    requires k < |ops| && |run| == |ops| + 1
  {
    Can(run[k], ops[k]) && run[k + 1] == Apply(run[k], ops[k])
  }

  ghost function Instructions(ops: seq<Op>): nat {
    if ops == [] then 0
    else var k := |ops| - 1; Instructions(ops[..k]) + if ops[k].Execute? then ops[k].n else 0
  }

  // The count grows by exactly the instructions executed, however often and by whom it
  // is read, and the shift stays in range.
  lemma {:induction false} Conservation(run: seq<Clock>, ops: seq<Op>, k: nat)
    requires IsRun(run, ops) && k <= |ops|
    ensures ClockOk(run[k]) && Executed(run[k]) == Executed(run[0]) + Instructions(ops[..k])
    ensures !run[k].budgeted ==> run[k].icount == Executed(run[0]) + Instructions(ops[..k])
  {
    if k > 0 {
      Conservation(run, ops, k - 1);
      assert StepOk(run, ops, k - 1);
      Moves(run[k - 1], ops[k - 1]);
      assert ops[..k][..k - 1] == ops[..k - 1];
    }
  }

  ghost predicate Rises(ts: seq<int>) {
    forall i, j :: 0 <= i <= j < |ts| ==> ts[i] <= ts[j]
  }

  lemma {:induction false} StepwiseRises(ts: seq<int>)
    ensures Rises(ts) <==> forall k :: 0 < k < |ts| ==> ts[k - 1] <= ts[k]
  {
    if |ts| > 1 && forall k :: 0 < k < |ts| ==> ts[k - 1] <= ts[k] {
      var n := |ts| - 1;
      StepwiseRises(ts[..n]);
      forall i, j | 0 <= i <= j < |ts|
        ensures ts[i] <= ts[j]
      {
        assert i < n ==> ts[..n][i] <= ts[..n][n - 1];
        assert j < n ==> ts[..n][i] <= ts[..n][j];
      }
    }
  }

  ghost function ShownTimes(run: seq<Clock>): seq<int> {
    seq(|run|, k requires 0 <= k < |run| => Shown(run[k]))
  }

  ghost function GuestTimes(run: seq<Clock>): seq<int> {
    seq(|run|, k requires 0 <= k < |run| => VirtualTime(run[k]))
  }

  // A warp sets the time shown back if VM time is behind where the warp began, which
  // needs a host clock that goes back further than accounting makes up for, or, in
  // adaptive mode, if it is behind the time shown.
  ghost predicate SetsBack(c: Clock, op: Op) {
    && op.Warp? && op.vm && c.warpStart != -1
    && (|| Elapsed(c, op.host) + (if c.adaptive then Gain(c, op.own) else 0) < c.warpStart
        || (c.adaptive && Elapsed(c, op.host) < Shown(c)))
  }

  lemma ShownAdvanceSign(c: Clock, op: Op)
    requires ClockOk(c)
    ensures ShownAdvance(c, op) < 0 <==> SetsBack(c, op)
  {
    HiddenSign(c);
    UpdatedTime(c);
    TimeSplit(c);
  }

  // The time that threads see never goes back, if and only if no such warp happens.
  lemma ShownMonotone(run: seq<Clock>, ops: seq<Op>)
    requires IsRun(run, ops)
    ensures Rises(ShownTimes(run)) <==> forall k :: 0 <= k < |ops| ==> !SetsBack(run[k], ops[k])
  {
    var ts := ShownTimes(run);
    forall k | 0 <= k < |ops|
      ensures ts[k] <= ts[k + 1] <==> !SetsBack(run[k], ops[k])
    {
      Conservation(run, ops, k);
      assert StepOk(run, ops, k);
      Moves(run[k], ops[k]);
      ShownAdvanceSign(run[k], ops[k]);
    }
    StepwiseRises(ts);
    if Rises(ts) {
      forall k | 0 <= k < |ops|
        ensures !SetsBack(run[k], ops[k])
      {
        assert ts[k] <= ts[k + 1];
      }
    }
  }

  // What a read returns, on whatever thread: no less than any earlier read returned.
  lemma ReadsMonotone(run: seq<Clock>, ops: seq<Op>, i: nat, j: nat)
    requires IsRun(run, ops) && i <= j < |ops| && ops[i].Read? && ops[j].Read?
    requires forall k :: 0 <= k < |ops| ==> !SetsBack(run[k], ops[k])
    ensures Shown(Accounted(run[i], ops[i].own)) <= Shown(Accounted(run[j], ops[j].own))
  {
    ShownMonotone(run, ops);
    assert StepOk(run, ops, i) && StepOk(run, ops, j);
    assert ShownTimes(run)[i + 1] <= ShownTimes(run)[j + 1];
  }

  // Guest time goes back if a warp takes more than it gives, or if an adjustment on
  // another thread, or while the CPU is not running, slows the clock down when some
  // instructions have not been accounted for.
  ghost predicate TurnsBack(c: Clock, op: Op) {
    match op
    case Warp(own, host, vm) =>
      && vm && c.warpStart != -1
      && (Elapsed(c, host) < c.warpStart || (c.adaptive && Elapsed(c, host) < Shown(c) + Gain(c, own)))
    case Adjust(own, host) =>
      && !(own && c.running) && Unaccounted(c) > 0
      && Slows(c.shift, Shown(c) - Elapsed(c, host), c.lastDelta)
    case _ => false
  }

  lemma AdvanceSign(c: Clock, op: Op)
    requires ClockOk(c)
    ensures Advance(c, op) < 0 <==> TurnsBack(c, op)
  {
    UpdatedTime(c);
    TimeSplit(c);
    if op.Execute? {
      ToNsSign(op.n, c.shift);
    }
    if op.Adjust? && !(op.own && c.running) {
      ToNsGrows(Unaccounted(c), c.shift);
      if c.shift > 0 {
        ToNsGrows(Unaccounted(c), c.shift - 1);
      }
    }
  }

  // Guest time never goes back, if and only if nothing of the kind happens.
  lemma TimeMonotone(run: seq<Clock>, ops: seq<Op>)
    requires IsRun(run, ops)
    ensures Rises(GuestTimes(run)) <==> forall k :: 0 <= k < |ops| ==> !TurnsBack(run[k], ops[k])
  {
    var ts := GuestTimes(run);
    forall k | 0 <= k < |ops|
      ensures ts[k] <= ts[k + 1] <==> !TurnsBack(run[k], ops[k])
    {
      Conservation(run, ops, k);
      assert StepOk(run, ops, k);
      Moves(run[k], ops[k]);
      AdvanceSign(run[k], ops[k]);
    }
    StepwiseRises(ts);
    if Rises(ts) {
      forall k | 0 <= k < |ops|
        ensures !TurnsBack(run[k], ops[k])
      {
        assert ts[k] <= ts[k + 1];
      }
    }
  }

  // Both happen. In adaptive mode, whenever the guest executes enough instructions to
  // get ahead of VM time and then goes to sleep, the warp that ends its sleep at once
  // sets the time shown back to VM time.
  lemma WarpSetsBack(c: Clock, n: nat, own: bool, host: int) returns (run: seq<Clock>, ops: seq<Op>)
    requires ClockOk(c) && !c.budgeted && c.enabled && c.adaptive && c.warpStart == -1 && n <= DECR_MAX
    requires Elapsed(c, host) != -1 && Elapsed(c, host) < VirtualTime(c) + ToNs(n, c.shift)
    ensures ops == [Prepare(n), Start, Execute(n), Stop, Process, StartWarp(host), Warp(own, host, true)]
    ensures IsRun(run, ops) && run[0] == c
    ensures Shown(run[7]) == Elapsed(c, host) < Shown(run[6])
  {
    run, ops := Slept(c, n, host);
    WarpShown(run[6], own, host);
    run, ops := Then(run, ops, Warp(own, host, true));
  }

  // Between two reads of the tick count it rises as the host's counter does while ticks are
  // enabled, and stands still while they are not.
  lemma TicksFollow(c: Clock, from: int, to: int)
    requires from <= to
    ensures var c' := Apply(c, GetTicks(from));
      Apply(c', GetTicks(to)).ticksPrev == c'.ticksPrev + if c.enabled then to - from else 0
  {
  }

  // What passes between disabling and enabling is not counted.
  lemma TicksPaused(c: Clock, from: int, off: int, on: int, to: int, host: int, host': int)
    requires c.enabled && from <= off && on <= to
    ensures var c' := Apply(c, GetTicks(from));
      var c'' := Apply(Apply(c', Disable(off, host)), Enable(on, host'));
      Apply(c'', GetTicks(to)).ticksPrev == c'.ticksPrev + (off - from) + (to - on)
  {
  }

  // The guest has run n instructions and gone to sleep.
  lemma Slept(c: Clock, n: nat, host: int) returns (run: seq<Clock>, ops: seq<Op>)
    requires ClockOk(c) && !c.budgeted && c.warpStart == -1 && n <= DECR_MAX
    ensures ops == [Prepare(n), Start, Execute(n), Stop, Process, StartWarp(host)]
    ensures IsRun(run, ops) && run[0] == c && ClockOk(run[6]) && !run[6].budgeted && run[6].warpStart == Elapsed(c, host)
    ensures Shown(run[6]) == VirtualTime(c) + ToNs(n, c.shift)
    ensures run[6].adaptive == c.adaptive && Elapsed(run[6], host) == Elapsed(c, host)
  {
    run := Ran(c, n);
    ops := [Prepare(n), Start, Execute(n)];
    run, ops := Then(run, ops, Stop);
    run, ops := Then(run, ops, Process);
    TimeSplit(run[5]);
    run, ops := Then(run, ops, StartWarp(host));
  }

  // A warp that ends a sleep at once, with the guest ahead.
  lemma WarpShown(c: Clock, own: bool, host: int)
    requires ClockOk(c) && !c.budgeted && c.adaptive && c.warpStart == Elapsed(c, host) != -1 && Elapsed(c, host) < Shown(c)
    ensures Shown(Apply(c, Warp(own, host, true))) == Elapsed(c, host)
  {
    MovesWarp(c, own, host, true);
  }

  lemma Then(run: seq<Clock>, ops: seq<Op>, op: Op) returns (run': seq<Clock>, ops': seq<Op>)
    requires IsRun(run, ops) && ClockOk(run[|ops|]) && Can(run[|ops|], op)
    ensures ops' == ops + [op] && run' == run + [Apply(run[|ops|], op)] && IsRun(run', ops')
    ensures var c, c' := run[|ops|], run'[|ops'|];
      ClockOk(c') && VirtualTime(c') == VirtualTime(c) + Advance(c, op) && Shown(c') == Shown(c) + ShownAdvance(c, op)
  {
    Moves(run[|ops|], op);
    run', ops' := run + [Apply(run[|ops|], op)], ops + [op];
    forall k | 0 <= k < |ops'|
      ensures StepOk(run', ops', k)
    {
      assert k < |ops| ==> StepOk(run, ops, k);
    }
  }

  // A CPU has executed n instructions of its turn.
  lemma Ran(c: Clock, n: nat) returns (run: seq<Clock>)
    requires ClockOk(c) && !c.budgeted && n <= DECR_MAX
    ensures |run| == 4 && run[0] == c && IsRun(run, [Prepare(n), Start, Execute(n)])
    ensures ClockOk(run[3]) && Unaccounted(run[3]) == n && run[3].running
    ensures VirtualTime(run[3]) == VirtualTime(c) + ToNs(n, c.shift) && Shown(run[3]) == Shown(c)
    ensures run[3] == c.(budgeted := true, running := true, budget := n, low := 0, extra := 0)
  {
    var ops := [Prepare(n), Start, Execute(n)];
    var c1 := Apply(c, Prepare(n));
    Moves(c, Prepare(n));
    var c2 := Apply(c1, Start);
    Moves(c1, Start);
    var c3 := Apply(c2, Execute(n));
    Moves(c2, Execute(n));
    run := [c, c1, c2, c3];
    assert StepOk(run, ops, 0) && StepOk(run, ops, 1) && StepOk(run, ops, 2);
  }

  // The timer of the main loop adjusts the speed while the CPU runs: if it slows the
  // clock down, guest time goes back though no warp happens, and the time shown stays.
  lemma AdjustTurnsBack(c: Clock, n: nat, host: int) returns (run: seq<Clock>, ops: seq<Op>)
    requires ClockOk(c) && c.adaptive && !c.budgeted && 0 < n <= DECR_MAX
    requires Slows(c.shift, Shown(c) - Elapsed(c, host), c.lastDelta)
    ensures ops == [Prepare(n), Start, Execute(n), Adjust(false, host)]
    ensures IsRun(run, ops) && run[0] == c
    ensures VirtualTime(run[4]) < VirtualTime(run[3]) && Shown(run[4]) == Shown(run[3])
  {
    run := Ran(c, n);
    AdvanceSign(run[3], Adjust(false, host));
    run, ops := Then(run, [Prepare(n), Start, Execute(n)], Adjust(false, host));
  }

  // Host time goes on; VM time goes on with it while the clock is enabled, and stands
  // still while it is not.
  ghost predicate HostTimes(ops: seq<Op>, hosts: seq<int>) {
    && |hosts| == |ops| + 1
    && (forall i, j :: 0 <= i <= j < |hosts| ==> hosts[i] <= hosts[j])
    && forall k :: 0 <= k < |ops| ==>
         ((ops[k].Enable? || ops[k].Disable?) ==> ops[k].host == hosts[k])
  }

  lemma {:induction false} ElapsedMonotone(run: seq<Clock>, ops: seq<Op>, hosts: seq<int>, i: nat, j: nat)
    requires IsRun(run, ops) && HostTimes(ops, hosts) && i <= j <= |ops|
    ensures Elapsed(run[i], hosts[i]) <= Elapsed(run[j], hosts[j])
    ensures Elapsed(run[j], hosts[j]) - Elapsed(run[i], hosts[i]) <= hosts[j] - hosts[i]
    decreases j
  {
    if i < j {
      ElapsedMonotone(run, ops, hosts, i, j - 1);
      assert StepOk(run, ops, j - 1);
    }
  }

  // Ticks that have been handed out never go back, whatever the host's counter does.
  lemma {:induction false} TicksMonotone(run: seq<Clock>, ops: seq<Op>, i: nat, j: nat)
    requires IsRun(run, ops) && i <= j <= |ops|
    ensures run[i].ticksPrev <= run[j].ticksPrev
    decreases j
  {
    if i < j {
      TicksMonotone(run, ops, i, j - 1);
      assert StepOk(run, ops, j - 1);
    }
  }

  // -------------------------------------------------------------- the state in place

  class TimersState {
    var icount: int
    var bias: int
    var shift: int
    var lastDelta: int
    ghost var budgeted: bool
    var running: bool
    var budget: int
    var low: int
    var extra: int
    var enabled: bool
    var clockOffset: int
    var ticksOffset: int
    var ticksPrev: int
    var adaptive: bool
    var warpStart: int

    ghost function Contents(): Clock
      reads this
    {
      Clock(icount, bias, shift, lastDelta, budgeted, running, budget, low, extra,
            enabled, clockOffset, ticksOffset, ticksPrev, adaptive, warpStart)
    }

    // configure_icount with an adaptive shift
    constructor ()
      ensures Contents() == Clock(0, 0, 3, 0, false, false, 0, 0, 0, false, 0, 0, 0, true, -1) && ClockOk(Contents())
    {
      icount, bias, shift, lastDelta := 0, 0, 3, 0;
      budgeted, running, budget, low, extra := false, false, 0, 0, 0;
      enabled, clockOffset, ticksOffset, ticksPrev := false, 0, 0, 0;
      adaptive, warpStart := true, -1;
    }

    // cpu_update_icount_locked
    method UpdateIcount()
      modifies this`icount, this`budget
      ensures Contents() == Updated(old(Contents()))
      // nothing is left to account for, and neither the count nor guest time moves
      ensures Unaccounted(Contents()) == 0 && Executed(Contents()) == Executed(old(Contents()))
      ensures Shown(Contents()) == VirtualTime(Contents()) == VirtualTime(old(Contents()))
    {
      UpdatedTime(Contents());
      var executed := budget - (low + extra);
      budget := budget - executed;
      icount := icount + executed;
    }

    // cpu_get_icount; None when the running CPU must not read it now
    method GetIcount(own: bool, canDoIo: bool) returns (r: Option<int>)
      requires ClockOk(Contents())
      modifies this`icount, this`budget
      ensures r == None <==> own && old(running) && !canDoIo
      ensures r == None ==> Contents() == old(Contents())
      ensures r.Some? ==> Contents() == Accounted(old(Contents()), own) && ClockOk(Contents())
      ensures r.Some? ==> r.value == Shown(Contents()) && ReadMeans(old(Contents()), Contents(), own)
    {
      if own && running {
        if !canDoIo {
          return None;
        }
        UpdateIcount();
      }
      if shift < |SCALES| {
        ToNsScale(icount, shift);
      }
      r := Some(bias + ToNs(icount, shift));
    }

    // prepare_icount_for_run
    method PrepareForRun(limit: nat)
      requires ClockOk(Contents()) && !budgeted
      modifies this`budget, this`low, this`extra, this`budgeted
      ensures Contents() == Apply(old(Contents()), Prepare(limit)) && ClockOk(Contents())
      // the whole budget is there to be used, and neither the count nor time moves
      ensures low + extra == budget == limit && (extra == 0 || low == DECR_MAX)
      ensures Executed(Contents()) == Executed(old(Contents()))
      ensures VirtualTime(Contents()) == VirtualTime(old(Contents())) == Shown(Contents())
    {
      budget := limit;
      var insnsLeft := if budget < DECR_MAX then budget else DECR_MAX;
      low := insnsLeft;
      extra := budget - insnsLeft;
      budgeted := true;
    }

    // the end of cpu_loop_exec_tb, when the instruction counter has expired
    method RefillDecrementer()
      requires ClockOk(Contents()) && running
      modifies this`icount, this`budget, this`low, this`extra
      ensures Contents() == Apply(old(Contents()), Refill) && ClockOk(Contents())
      // what is left of the budget is there to be used, and guest time does not move
      ensures low + extra == budget == old(low + extra) && (extra == 0 || low == DECR_MAX)
      ensures icount == Executed(Contents()) == Executed(old(Contents()))
      ensures VirtualTime(Contents()) == VirtualTime(old(Contents())) == Shown(Contents())
    {
      UpdateIcount();
      var insnsLeft := if budget < DECR_MAX then budget else DECR_MAX;
      low := insnsLeft;
      extra := budget - insnsLeft;
    }

    // process_icount_data
    method ProcessData()
      requires ClockOk(Contents()) && budgeted && !running
      modifies this`icount, this`budget, this`low, this`extra, this`budgeted
      ensures Contents() == Apply(old(Contents()), Process) && ClockOk(Contents())
      // what was executed is accounted for, what was not is forgotten
      ensures icount == Executed(Contents()) == Executed(old(Contents())) && low == extra == budget == 0
      ensures VirtualTime(Contents()) == VirtualTime(old(Contents())) == Shown(Contents())
    {
      UpdateIcount();
      low := 0;
      extra := 0;
      budget := 0;
      budgeted := false;
    }

    // icount_adjust; false when the running CPU must not read its counter now
    method AdjustSpeed(own: bool, canDoIo: bool, vmRunning: bool, host: int) returns (ok: bool)
      requires ClockOk(Contents()) && adaptive
      modifies this`icount, this`budget, this`shift, this`lastDelta, this`bias
      ensures ok <==> !(vmRunning && own && old(running) && !canDoIo)
      ensures Contents() == if ok && vmRunning then AfterAdjust(old(Contents()), own, host) else old(Contents())
      ensures ok && vmRunning ==> AdjustKeeps(old(Contents()), Contents(), own, host)
    {
      if !vmRunning {
        return true;
      }
      AdjustMeans(Contents(), own, host);
      ok := AdjustRunning(own, canDoIo, host);
    }

    method AdjustRunning(own: bool, canDoIo: bool, host: int) returns (ok: bool)
      requires ClockOk(Contents()) && adaptive
      modifies this`icount, this`budget, this`shift, this`lastDelta, this`bias
      ensures ok <==> !(own && old(running) && !canDoIo)
      ensures Contents() == if ok then AfterAdjust(old(Contents()), own, host) else old(Contents())
    {
      var curTime := clockOffset + if enabled then host else 0;
      var r := GetIcount(own, canDoIo);
      if r == None {
        return false;
      }
      SetSpeed(r.value, r.value - curTime);
      ok := true;
    }

    // the new shift and the bias that goes with it
    method SetSpeed(curIcount: int, delta: int)
      modifies this`shift, this`lastDelta, this`bias
      ensures shift == Adjusted(old(shift), delta, old(lastDelta)) && lastDelta == delta
      ensures Shown(Contents()) == curIcount
    {
      if delta > 0 && lastDelta + ICOUNT_WOBBLE < delta * 2 && shift > 0 {
        shift := shift - 1;
      }
      if delta < 0 && lastDelta - ICOUNT_WOBBLE > delta * 2 && shift < MAX_ICOUNT_SHIFT {
        shift := shift + 1;
      }
      lastDelta := delta;
      bias := curIcount - ToNs(icount, shift);
    }

    // qemu_start_warp_timer, when all CPUs sleep until a deadline that is ahead
    method StartWarpTimer(host: int)
      modifies this`warpStart
      ensures Contents() == Apply(old(Contents()), StartWarp(host))
      // the sleep counts from now, or from when it began before
      ensures warpStart == Elapsed(Contents(), host) || warpStart == old(warpStart)
      ensures warpStart <= Elapsed(Contents(), host) && (old(warpStart) != -1 ==> warpStart <= old(warpStart))
      ensures old(warpStart) == -1 ==> warpStart == Elapsed(Contents(), host)
    {
      var clock := clockOffset + if enabled then host else 0;
      if warpStart == -1 || warpStart > clock {
        warpStart := clock;
      }
    }

    // icount_warp_rt; false when the running CPU must not read its counter now
    method WarpRt(own: bool, canDoIo: bool, vmRunning: bool, host: int) returns (ok: bool)
      requires ClockOk(Contents())
      modifies this`icount, this`budget, this`bias, this`warpStart
      ensures ok <==> !(old(warpStart) != -1 && vmRunning && adaptive && own && old(running) && !canDoIo)
      ensures Contents() == if ok then AfterWarp(old(Contents()), own, host, vmRunning) else old(Contents())
      ensures old(warpStart) == -1 || !vmRunning ==> Contents() == old(Contents()).(warpStart := -1)
      ensures ok && old(warpStart) != -1 && vmRunning ==> WarpMoves(old(Contents()), Contents(), host)
    {
      if warpStart == -1 {
        return true;
      }
      if vmRunning {
        WarpMeans(Contents(), own, host);
        var r := Slept(own, canDoIo, host);
        if r == None {
          return false;
        }
        bias := bias + r.value;
      }
      warpStart := -1;
      ok := true;
    }

    // how far to warp; in adaptive mode not beyond the time of the machine
    method Slept(own: bool, canDoIo: bool, host: int) returns (r: Option<int>)
      requires ClockOk(Contents()) && warpStart != -1
      modifies this`icount, this`budget
      ensures r == None <==> adaptive && own && running && !canDoIo
      ensures r == None ==> Contents() == old(Contents())
      ensures r.Some? ==> Contents() == if adaptive then Accounted(old(Contents()), own) else old(Contents())
      ensures r.Some? ==> r.value == WarpDelta(old(Contents()), own, host, true)
    {
      var clock := clockOffset + if enabled then host else 0;
      r := Some(clock - warpStart);
      if adaptive {
        var t := GetIcount(own, canDoIo);
        if t == None {
          return None;
        }
        var delta := clock - t.value;
        r := Some(if delta < r.value then delta else r.value);
      }
    }

    // cpu_enable_ticks and cpu_disable_ticks: neither VM time nor ticks jump
    method EnableTicks(ticks: int, host: int)
      modifies this`ticksOffset, this`clockOffset, this`enabled
      ensures Contents() == Apply(old(Contents()), Enable(ticks, host))
      ensures enabled && Elapsed(Contents(), host) == Elapsed(old(Contents()), host)
      ensures Ticks(Contents(), ticks) == Ticks(old(Contents()), ticks)
    {
      if !enabled {
        ticksOffset := ticksOffset - ticks;
        clockOffset := clockOffset - host;
        enabled := true;
      }
    }

    method DisableTicks(ticks: int, host: int)
      modifies this`ticksOffset, this`clockOffset, this`enabled
      ensures Contents() == Apply(old(Contents()), Disable(ticks, host))
      ensures !enabled && Elapsed(Contents(), host) == Elapsed(old(Contents()), host)
      ensures Ticks(Contents(), ticks) == Ticks(old(Contents()), ticks)
    {
      if enabled {
        ticksOffset := ticksOffset + ticks;
        clockOffset := clockOffset + host;
        enabled := false;
      }
    }

    // cpu_get_ticks_locked
    method GetTicksLocked(host: int) returns (ticks: int)
      modifies this`ticksOffset, this`ticksPrev
      ensures Contents() == Apply(old(Contents()), GetTicks(host))
      // the count, unless that is less than what was handed out before
      ensures ticks == ticksPrev == Ticks(Contents(), host)
      ensures ticks == if Ticks(old(Contents()), host) < old(ticksPrev) then old(ticksPrev) else Ticks(old(Contents()), host)
    {
      ticks := ticksOffset;
      if enabled {
        ticks := ticks + host;
      }
      if ticksPrev > ticks {
        ticksOffset := ticksOffset + (ticksPrev - ticks);
        ticks := ticksPrev;
      }
      ticksPrev := ticks;
    }
  }
}
