// The exclusive-section protocol of cpus-common.c as interleaved atomic steps of
// any number of vCPU threads: cpu_exec_start, cpu_exec_end, start_exclusive and
// end_exclusive over cpu->running, cpu->has_waiter, pending_cpus, one lock and two
// condition variables. Steps are sequentially consistent, as the memory barriers of
// the source make them.
module ExclusiveSection {

  // What a thread does next. Scan carries the position in the CPU list and the
  // number of running CPUs found, Publish that number.
  datatype Pc =
    | Idle                  // outside cpu_exec
    // cpu_exec_start
    | ExecCheck             // read pending_cpus
    | ExecLock              // take the lock
    | ExecHold              // look at has_waiter
    | ExecClear             // running = false
    | ExecIdle              // exclusive_idle: read pending_cpus, perhaps sleep
    | ExecAsleep            // asleep on exclusive_resume
    | ExecWake              // woken, take the lock
    | ExecSet               // running = true
    | ExecUnlock            // release the lock
    | Running               // between cpu_exec_start and cpu_exec_end
    // cpu_exec_end
    | EndCheck              // read pending_cpus
    | EndLock               // take the lock
    | EndHold               // look at has_waiter and clear it
    | EndDec                // pending_cpus - 1
    | EndSignal             // signal exclusive_cond if pending_cpus == 1
    | EndUnlock             // release the lock
    // start_exclusive
    | ExclLock              // take the lock
    | ExclIdle              // exclusive_idle: read pending_cpus, perhaps sleep
    | ExclAsleep            // asleep on exclusive_resume
    | ExclWake              // woken, take the lock
    | ExclSet               // pending_cpus = 1
    | Scan(cpu: nat, count: nat)
    | Publish(count: nat)   // pending_cpus = count + 1
    | Await                 // read pending_cpus, perhaps sleep
    | AwaitAsleep           // asleep on exclusive_cond
    | AwaitWake             // woken, take the lock
    | ExclUnlock            // release the lock
    | Exclusive             // between start_exclusive and end_exclusive
    // end_exclusive
    | Reset                 // pending_cpus = 0
    | Broadcast             // wake everybody on exclusive_resume
    | ResetUnlock           // release the lock

  const NOBODY: int := -1

  // `owner` is an auxiliary variable: the thread whose exclusive section is
  // counted in pending_cpus. No step depends on it.
  datatype State = State(pc: seq<Pc>, running: seq<bool>, hasWaiter: seq<bool>, pending: int, lock: int, owner: int) {
    predicate Ok() {
      |running| == |hasWaiter| == |pc|
    }

    function Go(i: nat, next: Pc): State
      requires i < |pc|
    {
      this.(pc := pc[i := next])
    }
  }

  predicate Init(s: State) {
    && s.Ok() && s.pending == 0 && s.lock == NOBODY && s.owner == NOBODY
    && forall i :: 0 <= i < |s.pc| ==> s.pc[i] == Idle && !s.running[i] && !s.hasWaiter[i]
  }

  predicate Sleeping(pc: Pc) {
    pc.ExecAsleep? || pc.ExclAsleep? || pc.AwaitAsleep?
  }

  function Awoken(pc: Pc): Pc {
    match pc
    case ExecAsleep => ExecWake
    case ExclAsleep => ExclWake
    case AwaitAsleep => AwaitWake
    case _ => pc
  }

  // qemu_cond_broadcast(&exclusive_resume)
  function Resumed(pc: seq<Pc>): (r: seq<Pc>)
    ensures |r| == |pc|
  {
    seq(|pc|, j requires 0 <= j < |pc| => if pc[j].ExecAsleep? || pc[j].ExclAsleep? then Awoken(pc[j]) else pc[j])
  }

  // Thread i takes the lock or finds it taken.
  predicate Acquire(s: State, i: nat, next: Pc, s': State)
    requires i < |s.pc|
  {
    s.lock == NOBODY && s' == s.Go(i, next).(lock := i)
  }

  function Release(s: State, i: nat, next: Pc): State
    requires i < |s.pc|
  {
    s.Go(i, next).(lock := NOBODY)
  }

  predicate ExecStart(s: State, i: nat, s': State)
    requires s.Ok() && i < |s.pc|
  {
    match s.pc[i]
    case Idle => s' == s.Go(i, ExecCheck).(running := s.running[i := true])
    case ExecCheck => s' == s.Go(i, if s.pending != 0 then ExecLock else Running)
    case ExecLock => Acquire(s, i, ExecHold, s')
    case _ => false
  }

  // The part of cpu_exec_start that lets an exclusive section pass.
  predicate ExecYield(s: State, i: nat, s': State)
    requires s.Ok() && i < |s.pc|
  {
    match s.pc[i]
    case ExecHold => s' == s.Go(i, if s.hasWaiter[i] then ExecUnlock else ExecClear)
    case ExecClear => s' == s.Go(i, ExecIdle).(running := s.running[i := false])
    case ExecIdle => s' == if s.pending != 0 then Release(s, i, ExecAsleep) else s.Go(i, ExecSet)
    case _ => false
  }

  predicate ExecResume(s: State, i: nat, s': State)
    requires s.Ok() && i < |s.pc|
  {
    match s.pc[i]
    case ExecWake => Acquire(s, i, ExecIdle, s')
    case ExecSet => s' == s.Go(i, ExecUnlock).(running := s.running[i := true])
    case ExecUnlock => s' == Release(s, i, Running)
    case _ => false
  }

  predicate ExecEnd(s: State, i: nat, s': State)
    requires s.Ok() && i < |s.pc|
  {
    match s.pc[i]
    case Running => s' == s.Go(i, EndCheck).(running := s.running[i := false])
    case EndCheck => s' == s.Go(i, if s.pending != 0 then EndLock else Idle)
    case EndLock => Acquire(s, i, EndHold, s')
    case _ => false
  }

  // The part of cpu_exec_end that takes back this CPU's part of pending_cpus.
  predicate ExecReturn(s: State, i: nat, s': State)
    requires s.Ok() && i < |s.pc|
  {
    match s.pc[i]
    case EndHold =>
      s' == if s.hasWaiter[i] then s.Go(i, EndDec).(hasWaiter := s.hasWaiter[i := false]) else s.Go(i, EndUnlock)
    case EndDec => s' == s.Go(i, EndSignal).(pending := s.pending - 1)
    case EndUnlock => s' == Release(s, i, Idle)
    case _ => false
  }

  // The end of cpu_exec_end: the last CPU that was waited for signals a waiter.
  predicate ExecEndSignal(s: State, i: nat, s': State)
    requires s.Ok() && i < |s.pc|
  {
    && s.pc[i].EndSignal?
    && if s.pending == 1 && exists j :: 0 <= j < |s.pc| && s.pc[j].AwaitAsleep? then
         exists j :: 0 <= j < |s.pc| && s.pc[j].AwaitAsleep? && s' == s.Go(j, AwaitWake).Go(i, EndUnlock)
       else s' == s.Go(i, EndUnlock)
  }

  predicate StartExclusive(s: State, i: nat, s': State)
    requires s.Ok() && i < |s.pc|
  {
    match s.pc[i]
    case Idle => s' == s.Go(i, ExclLock)
    case ExclLock => Acquire(s, i, ExclIdle, s')
    case ExclIdle => s' == if s.pending != 0 then Release(s, i, ExclAsleep) else s.Go(i, ExclSet)
    case ExclWake => Acquire(s, i, ExclIdle, s')
    case ExclSet => s' == s.Go(i, Scan(0, 0)).(pending := 1, owner := i)
    case _ => false
  }

  // The part of start_exclusive that counts the running CPUs and waits for them.
  predicate AwaitRunning(s: State, i: nat, s': State)
    requires s.Ok() && i < |s.pc|
  {
    match s.pc[i]
    case Scan(cpu, count) =>
      s' == if cpu >= |s.pc| then s.Go(i, Publish(count))
            else if s.running[cpu] then s.Go(i, Scan(cpu + 1, count + 1)).(hasWaiter := s.hasWaiter[cpu := true])
            else s.Go(i, Scan(cpu + 1, count))
    case Publish(count) => s' == s.Go(i, Await).(pending := count + 1)
    case Await => s' == if s.pending > 1 then Release(s, i, AwaitAsleep) else s.Go(i, ExclUnlock)
    case AwaitWake => Acquire(s, i, Await, s')
    case ExclUnlock => s' == Release(s, i, Exclusive)
    case _ => false
  }

  predicate EndExclusive(s: State, i: nat, s': State)
    requires s.Ok() && i < |s.pc|
  {
    match s.pc[i]
    case Exclusive => Acquire(s, i, Reset, s')
    case Reset => s' == s.Go(i, Broadcast).(pending := 0, owner := NOBODY)
    case Broadcast => s' == s.(pc := Resumed(s.pc)).Go(i, ResetUnlock)
    case ResetUnlock => s' == Release(s, i, Idle)
    case _ => false
  }

  // A condition variable may wake a sleeper for no reason.
  predicate SpuriousWakeup(s: State, i: nat, s': State)
    requires s.Ok() && i < |s.pc|
  {
    Sleeping(s.pc[i]) && s' == s.Go(i, Awoken(s.pc[i]))
  }

  // One step of thread i.
  predicate Step(s: State, i: nat, s': State)
    requires s.Ok() && i < |s.pc|
  {
    || ExecStart(s, i, s') || ExecYield(s, i, s') || ExecResume(s, i, s')
    || ExecEnd(s, i, s') || ExecReturn(s, i, s') || ExecEndSignal(s, i, s')
    || StartExclusive(s, i, s') || AwaitRunning(s, i, s')
    || EndExclusive(s, i, s') || SpuriousWakeup(s, i, s')
  }

  predicate Next(s: State, s': State)
    requires s.Ok()
  {
    exists i :: 0 <= i < |s.pc| && Step(s, i, s')
  }

  // A finite run of the system.
  ghost predicate IsRun(run: seq<State>) {
    && run != [] && Init(run[0])
    && forall k {:trigger StepAt(run, k)} :: 0 < k < |run| ==> StepAt(run, k)
  }

  ghost predicate StepAt(run: seq<State>, k: nat)
    requires 0 < k < |run|
  {
    run[k - 1].Ok() && run[k].Ok() && Next(run[k - 1], run[k])
  }

  // ---------------------------------------------------------------- invariant

  predicate Holds(pc: Pc) {
    match pc
    case ExecHold | ExecClear | ExecIdle | ExecSet | ExecUnlock => true
    case EndHold | EndDec | EndSignal | EndUnlock => true
    case ExclIdle | ExclSet | Scan(_, _) | Publish(_) | Await | ExclUnlock => true
    case Reset | Broadcast | ResetUnlock => true
    case _ => false
  }

  // Between the writes of 1 and of 0 to pending_cpus.
  predicate Owns(pc: Pc) {
    match pc
    case Scan(_, _) | Publish(_) | Await | AwaitAsleep | AwaitWake | ExclUnlock | Exclusive | Reset => true
    case _ => false
  }

  predicate MarkedRunning(pc: Pc) {
    match pc
    case ExecCheck | ExecLock | ExecHold | ExecClear | ExecUnlock | Running => true
    case _ => false
  }

  // Where a CPU that the owner waits for can be.
  predicate Counted(pc: Pc) {
    match pc
    case ExecCheck | ExecLock | ExecHold | ExecUnlock | Running | EndCheck | EndLock | EndHold => true
    case _ => false
  }

  ghost function Count(b: seq<bool>): nat {
    if b == [] then 0 else Count(b[..|b| - 1]) + if b[|b| - 1] then 1 else 0
  }

  // How far the owner has looked at the running flags.
  ghost function Scanned(s: State): nat {
    if 0 <= s.owner < |s.pc| && s.pc[s.owner].Scan? then s.pc[s.owner].cpu else |s.pc|
  }

  // A CPU is about to take back its part of pending_cpus.
  ghost function Returning(s: State): nat {
    if 0 <= s.lock < |s.pc| && s.pc[s.lock].EndDec? then 1 else 0
  }

  // What holds of thread i at each of its steps.
  ghost predicate ThreadOk(s: State, i: int)
    requires s.Ok() && 0 <= i < |s.pc| && s.lock < |s.pc|
  {
    var pc := s.pc[i];
    && (Holds(pc) <==> s.lock == i)
    && (Owns(pc) <==> s.owner == i)
    && (MarkedRunning(pc) <==> s.running[i])
    // only counted CPUs have a waiter, and only CPUs the owner has looked at
    && (s.hasWaiter[i] ==> Counted(pc) && i < Scanned(s) && s.owner != NOBODY)
    // a CPU that runs beside an owner that has looked at it is waited for
    && (pc.Running? && s.owner != NOBODY && i < Scanned(s) ==> s.hasWaiter[i])
    && (pc.ExecUnlock? && !s.hasWaiter[i] ==> s.pending == 0)
    && (pc.ExecSet? || pc.ExclSet? ==> s.pending == 0)
    // every sleeper on exclusive_resume has a wake-up ahead
    && (pc.ExecAsleep? || pc.ExclAsleep? ==> s.pending != 0 || (s.lock >= 0 && s.pc[s.lock].Broadcast?))
  }

  // pending_cpus counts the owner and the CPUs it waits for, and a sleeping owner
  // has a wake-up ahead.
  ghost predicate Counting(s: State)
    requires s.Ok() && -1 <= s.lock < |s.pc| && -1 <= s.owner < |s.pc|
  {
    if s.owner == NOBODY then s.pending == 0 && Count(s.hasWaiter) == 0 && Returning(s) == 0
    else match s.pc[s.owner]
         case Scan(cpu, count) => s.pending == 1 && count == Count(s.hasWaiter) && cpu <= |s.pc|
         case Publish(count) => s.pending == 1 && count == Count(s.hasWaiter)
         case pc =>
           && s.pending == 1 + Count(s.hasWaiter) + Returning(s)
           && (pc.ExclUnlock? || pc.Exclusive? || pc.Reset? ==> s.pending == 1)
           && (pc.AwaitAsleep? ==> s.pending > 1 || (s.lock >= 0 && s.pc[s.lock].EndSignal?))
  }

  ghost predicate Inv(s: State) {
    && s.Ok() && -1 <= s.lock < |s.pc| && -1 <= s.owner < |s.pc|
    && Counting(s)
    && forall i {:trigger ThreadOk(s, i)} :: 0 <= i < |s.pc| ==> ThreadOk(s, i)
  }

  lemma {:induction false} CountUpdate(b: seq<bool>, i: nat, v: bool)
    requires i < |b|
    ensures Count(b[i := v]) == Count(b) - (if b[i] then 1 else 0) + (if v then 1 else 0)
  {
    var n := |b| - 1;
    if i == n {
      assert b[i := v][..n] == b[..n];
    } else {
      CountUpdate(b[..n], i, v);
      assert b[i := v][..n] == b[..n][i := v];
    }
  }

  lemma {:induction false} CountZero(b: seq<bool>)
    ensures Count(b) == 0 <==> forall i :: 0 <= i < |b| ==> !b[i]
  {
    if b != [] {
      CountZero(b[..|b| - 1]);
      assert forall i :: 0 <= i < |b| - 1 ==> b[i] == b[..|b| - 1][i];
    }
  }

  // The facts that a step of thread i needs to keep those about thread j.
  lemma Facts(s: State, i: nat, j: nat)
    requires Inv(s) && i < |s.pc| && j < |s.pc|
    ensures ThreadOk(s, i) && ThreadOk(s, j)
    ensures s.owner >= 0 ==> ThreadOk(s, s.owner)
    ensures s.lock >= 0 ==> ThreadOk(s, s.lock)
  {
  }

  ghost predicate Framed(s: State, s': State)
    requires s.Ok()
  {
    s'.Ok() && |s'.pc| == |s.pc| && -1 <= s'.lock < |s'.pc| && -1 <= s'.owner < |s'.pc|
  }

  lemma ExecStartSelf(s: State, i: nat, s': State)
    requires Inv(s) && i < |s.pc| && ExecStart(s, i, s')
    ensures Framed(s, s') && ThreadOk(s', i)
  {
    Facts(s, i, i);
  }

  lemma ExecStartOther(s: State, i: nat, s': State, j: nat)
    requires Inv(s) && i < |s.pc| && j < |s.pc| && j != i && ExecStart(s, i, s')
    ensures Framed(s, s') && ThreadOk(s', j)
  {
    Facts(s, i, j);
  }

  lemma ExecStartCounting(s: State, i: nat, s': State)
    requires Inv(s) && i < |s.pc| && ExecStart(s, i, s')
    ensures Framed(s, s') && Counting(s')
  {
    Facts(s, i, i);
  }

  lemma ExecResumeSelf(s: State, i: nat, s': State)
    requires Inv(s) && i < |s.pc| && ExecResume(s, i, s')
    ensures Framed(s, s') && ThreadOk(s', i)
  {
    Facts(s, i, i);
  }

  lemma ExecResumeOther(s: State, i: nat, s': State, j: nat)
    requires Inv(s) && i < |s.pc| && j < |s.pc| && j != i && ExecResume(s, i, s')
    ensures Framed(s, s') && ThreadOk(s', j)
  {
    Facts(s, i, j);
  }

  lemma ExecResumeCounting(s: State, i: nat, s': State)
    requires Inv(s) && i < |s.pc| && ExecResume(s, i, s')
    ensures Framed(s, s') && Counting(s')
  {
    Facts(s, i, i);
  }

  lemma ExecYieldSelf(s: State, i: nat, s': State)
    requires Inv(s) && i < |s.pc| && ExecYield(s, i, s')
    ensures Framed(s, s') && ThreadOk(s', i)
  {
    Facts(s, i, i);
  }

  lemma ExecYieldOther(s: State, i: nat, s': State, j: nat)
    requires Inv(s) && i < |s.pc| && j < |s.pc| && j != i && ExecYield(s, i, s')
    ensures Framed(s, s') && ThreadOk(s', j)
  {
    Facts(s, i, j);
  }

  lemma ExecYieldCounting(s: State, i: nat, s': State)
    requires Inv(s) && i < |s.pc| && ExecYield(s, i, s')
    ensures Framed(s, s') && Counting(s')
  {
    Facts(s, i, i);
  }

  lemma ExecEndSelf(s: State, i: nat, s': State)
    requires Inv(s) && i < |s.pc| && ExecEnd(s, i, s')
    ensures Framed(s, s') && ThreadOk(s', i)
  {
    Facts(s, i, i);
  }

  lemma ExecEndOther(s: State, i: nat, s': State, j: nat)
    requires Inv(s) && i < |s.pc| && j < |s.pc| && j != i && ExecEnd(s, i, s')
    ensures Framed(s, s') && ThreadOk(s', j)
  {
    Facts(s, i, j);
  }

  lemma ExecEndCounting(s: State, i: nat, s': State)
    requires Inv(s) && i < |s.pc| && ExecEnd(s, i, s')
    ensures Framed(s, s') && Counting(s')
  {
    Facts(s, i, i);
  }

  lemma ExecReturnSelf(s: State, i: nat, s': State)
    requires Inv(s) && i < |s.pc| && ExecReturn(s, i, s')
    ensures Framed(s, s') && ThreadOk(s', i)
  {
    Facts(s, i, i);
  }

  lemma ExecReturnOther(s: State, i: nat, s': State, j: nat)
    requires Inv(s) && i < |s.pc| && j < |s.pc| && j != i && ExecReturn(s, i, s')
    ensures Framed(s, s') && ThreadOk(s', j)
  {
    Facts(s, i, j);
  }

  lemma ExecReturnCounting(s: State, i: nat, s': State)
    requires Inv(s) && i < |s.pc| && ExecReturn(s, i, s')
    ensures Framed(s, s') && Counting(s')
  {
    Facts(s, i, i);
    if s.pc[i].EndHold? {
      CountUpdate(s.hasWaiter, i, false);
    }
  }

  // Only the owner can be asleep on exclusive_cond, so the signal wakes it or nobody.
  lemma SignalWakes(s: State, i: nat, s': State)
    requires Inv(s) && i < |s.pc| && ExecEndSignal(s, i, s')
    ensures var awake := s.pending == 1 && s.owner >= 0 && s.pc[s.owner].AwaitAsleep?;
      s' == if awake then s.Go(s.owner, AwaitWake).Go(i, EndUnlock) else s.Go(i, EndUnlock)
  {
    forall k | 0 <= k < |s.pc| && s.pc[k].AwaitAsleep?
      ensures s.owner == k
    {
      assert ThreadOk(s, k);
    }
  }

  lemma SignalSelf(s: State, i: nat, s': State)
    requires Inv(s) && i < |s.pc| && ExecEndSignal(s, i, s')
    ensures Framed(s, s') && ThreadOk(s', i)
  {
    Facts(s, i, i);
    SignalWakes(s, i, s');
  }

  lemma SignalOther(s: State, i: nat, s': State, j: nat)
    requires Inv(s) && i < |s.pc| && j < |s.pc| && j != i && ExecEndSignal(s, i, s')
    ensures Framed(s, s') && ThreadOk(s', j)
  {
    SignalWakes(s, i, s');
    if s' == s.Go(i, EndUnlock) {
      UnsignalledOther(s, i, j);
    } else {
      SignalledOther(s, i, j);
    }
  }

  lemma UnsignalledOther(s: State, i: nat, j: nat)
    requires Inv(s) && i < |s.pc| && j < |s.pc| && j != i && s.pc[i].EndSignal?
    ensures Framed(s, s.Go(i, EndUnlock)) && ThreadOk(s.Go(i, EndUnlock), j)
  {
    Facts(s, i, j);
  }

  lemma SignalledOther(s: State, i: nat, j: nat)
    requires Inv(s) && i < |s.pc| && j < |s.pc| && j != i && s.pc[i].EndSignal? && s.owner >= 0 && s.pc[s.owner].AwaitAsleep?
    ensures var s' := s.Go(s.owner, AwaitWake).Go(i, EndUnlock); Framed(s, s') && ThreadOk(s', j)
  {
    Facts(s, i, j);
  }

  lemma SignalCounting(s: State, i: nat, s': State)
    requires Inv(s) && i < |s.pc| && ExecEndSignal(s, i, s')
    ensures Framed(s, s') && Counting(s')
  {
    Facts(s, i, i);
    SignalWakes(s, i, s');
  }

  lemma StartExclusiveSelf(s: State, i: nat, s': State)
    requires Inv(s) && i < |s.pc| && StartExclusive(s, i, s')
    ensures Framed(s, s') && ThreadOk(s', i)
  {
    Facts(s, i, i);
  }

  lemma StartExclusiveOther(s: State, i: nat, s': State, j: nat)
    requires Inv(s) && i < |s.pc| && j < |s.pc| && j != i && StartExclusive(s, i, s')
    ensures Framed(s, s') && ThreadOk(s', j)
  {
    Facts(s, i, j);
  }

  lemma StartExclusiveCounting(s: State, i: nat, s': State)
    requires Inv(s) && i < |s.pc| && StartExclusive(s, i, s')
    ensures Framed(s, s') && Counting(s')
  {
    Facts(s, i, i);
  }

  lemma AwaitRunningSelf(s: State, i: nat, s': State)
    requires Inv(s) && i < |s.pc| && AwaitRunning(s, i, s')
    ensures Framed(s, s') && ThreadOk(s', i)
  {
    Facts(s, i, i);
  }

  lemma AwaitRunningOther(s: State, i: nat, s': State, j: nat)
    requires Inv(s) && i < |s.pc| && j < |s.pc| && j != i && AwaitRunning(s, i, s')
    ensures Framed(s, s') && ThreadOk(s', j)
  {
    Facts(s, i, j);
  }

  lemma AwaitRunningCounting(s: State, i: nat, s': State)
    requires Inv(s) && i < |s.pc| && AwaitRunning(s, i, s')
    ensures Framed(s, s') && Counting(s')
  {
    Facts(s, i, i);
    if s.pc[i].Scan? && s.pc[i].cpu < |s.pc| {
      assert ThreadOk(s, s.pc[i].cpu);
      CountUpdate(s.hasWaiter, s.pc[i].cpu, true);
    }
  }

  lemma EndExclusiveSelf(s: State, i: nat, s': State)
    requires Inv(s) && i < |s.pc| && EndExclusive(s, i, s')
    ensures Framed(s, s') && ThreadOk(s', i)
  {
    Facts(s, i, i);
    CountZero(s.hasWaiter);
  }

  lemma EndExclusiveOther(s: State, i: nat, s': State, j: nat)
    requires Inv(s) && i < |s.pc| && j < |s.pc| && j != i && EndExclusive(s, i, s')
    ensures Framed(s, s') && ThreadOk(s', j)
  {
    Facts(s, i, j);
    CountZero(s.hasWaiter);
  }

  lemma EndExclusiveCounting(s: State, i: nat, s': State)
    requires Inv(s) && i < |s.pc| && EndExclusive(s, i, s')
    ensures Framed(s, s') && Counting(s')
  {
    Facts(s, i, i);
    CountZero(s.hasWaiter);
  }

  lemma SpuriousSelf(s: State, i: nat, s': State)
    requires Inv(s) && i < |s.pc| && SpuriousWakeup(s, i, s')
    ensures Framed(s, s') && ThreadOk(s', i)
  {
    Facts(s, i, i);
  }

  lemma SpuriousOther(s: State, i: nat, s': State, j: nat)
    requires Inv(s) && i < |s.pc| && j < |s.pc| && j != i && SpuriousWakeup(s, i, s')
    ensures Framed(s, s') && ThreadOk(s', j)
  {
    Facts(s, i, j);
  }

  lemma SpuriousCounting(s: State, i: nat, s': State)
    requires Inv(s) && i < |s.pc| && SpuriousWakeup(s, i, s')
    ensures Framed(s, s') && Counting(s')
  {
    Facts(s, i, i);
  }

  // Every step keeps the invariant.
  lemma InvStep(s: State, i: nat, s': State)
    requires Inv(s) && i < |s.pc| && Step(s, i, s')
    ensures Inv(s')
  {
    if ExecStart(s, i, s') {
      ExecStartCounting(s, i, s');
    } else if ExecYield(s, i, s') {
      ExecYieldCounting(s, i, s');
    } else if ExecResume(s, i, s') {
      ExecResumeCounting(s, i, s');
    } else if ExecEnd(s, i, s') {
      ExecEndCounting(s, i, s');
    } else if ExecReturn(s, i, s') {
      ExecReturnCounting(s, i, s');
    } else if ExecEndSignal(s, i, s') {
      SignalCounting(s, i, s');
    } else if StartExclusive(s, i, s') {
      StartExclusiveCounting(s, i, s');
    } else if AwaitRunning(s, i, s') {
      AwaitRunningCounting(s, i, s');
    } else if EndExclusive(s, i, s') {
      EndExclusiveCounting(s, i, s');
    } else {
      SpuriousCounting(s, i, s');
    }
    forall j | 0 <= j < |s.pc|
      ensures ThreadOk(s', j)
    {
      ThreadStep(s, i, s', j);
    }
  }

  lemma ThreadStep(s: State, i: nat, s': State, j: nat)
    requires Inv(s) && i < |s.pc| && j < |s.pc| && Step(s, i, s')
    ensures Framed(s, s') && ThreadOk(s', j)
  {
    if ExecStart(s, i, s') {
      if i == j { ExecStartSelf(s, i, s'); } else { ExecStartOther(s, i, s', j); }
    } else if ExecYield(s, i, s') {
      if i == j { ExecYieldSelf(s, i, s'); } else { ExecYieldOther(s, i, s', j); }
    } else if ExecResume(s, i, s') {
      if i == j { ExecResumeSelf(s, i, s'); } else { ExecResumeOther(s, i, s', j); }
    } else if ExecEnd(s, i, s') {
      if i == j { ExecEndSelf(s, i, s'); } else { ExecEndOther(s, i, s', j); }
    } else if ExecReturn(s, i, s') {
      if i == j { ExecReturnSelf(s, i, s'); } else { ExecReturnOther(s, i, s', j); }
    } else if ExecEndSignal(s, i, s') {
      if i == j { SignalSelf(s, i, s'); } else { SignalOther(s, i, s', j); }
    } else if StartExclusive(s, i, s') {
      if i == j { StartExclusiveSelf(s, i, s'); } else { StartExclusiveOther(s, i, s', j); }
    } else if AwaitRunning(s, i, s') {
      if i == j { AwaitRunningSelf(s, i, s'); } else { AwaitRunningOther(s, i, s', j); }
    } else if EndExclusive(s, i, s') {
      if i == j { EndExclusiveSelf(s, i, s'); } else { EndExclusiveOther(s, i, s', j); }
    } else {
      if i == j { SpuriousSelf(s, i, s'); } else { SpuriousOther(s, i, s', j); }
    }
  }

  lemma NextInv(s: State, s': State)
    requires Inv(s) && Next(s, s')
    ensures Inv(s')
  {
    var i :| 0 <= i < |s.pc| && Step(s, i, s');
    InvStep(s, i, s');
  }

  lemma InitInv(s: State)
    requires Init(s)
    ensures Inv(s)
  {
    CountZero(s.hasWaiter);
  }

  // The invariant holds in every state of every run.
  lemma {:induction false} RunInv(run: seq<State>, k: nat)
    requires IsRun(run) && k < |run|
    ensures Inv(run[k])
  {
    if k == 0 {
      InitInv(run[0]);
    } else {
      RunInv(run, k - 1);
      assert StepAt(run, k);
      NextInv(run[k - 1], run[k]);
    }
  }

  // While thread x is between the return of start_exclusive and the write of 0 to
  // pending_cpus, no CPU executes and no other thread is in that part.
  lemma MutualExclusion(run: seq<State>, k: nat, x: nat)
    requires IsRun(run) && k < |run| && x < |run[k].pc|
    requires run[k].pc[x].Exclusive? || run[k].pc[x].Reset?
    ensures forall c :: 0 <= c < |run[k].pc| ==> !run[k].pc[c].Running?
    ensures forall c :: 0 <= c < |run[k].pc| && c != x ==> !Owns(run[k].pc[c])
    ensures run[k].pending == 1
  {
    var s := run[k];
    RunInv(run, k);
    assert ThreadOk(s, x);
    CountZero(s.hasWaiter);
    forall c | 0 <= c < |s.pc|
      ensures !s.pc[c].Running? && (c != x ==> !Owns(s.pc[c]))
    {
      assert ThreadOk(s, c);
    }
  }

  // Once the count is published, pending_cpus is one more than the number of CPUs
  // with a waiter, but for the one CPU that has cleared its flag under the lock and
  // not yet taken its part back.
  lemma PendingCounts(run: seq<State>, k: nat, x: nat)
    requires IsRun(run) && k < |run| && x < |run[k].pc|
    requires Owns(run[k].pc[x]) && !run[k].pc[x].Scan? && !run[k].pc[x].Publish?
    ensures run[k].pending == 1 + Count(run[k].hasWaiter) + Returning(run[k])
    ensures run[k].lock == NOBODY ==> run[k].pending == 1 + Count(run[k].hasWaiter)
  {
    RunInv(run, k);
    assert ThreadOk(run[k], x);
  }

  // No lost wake-up: a thread asleep in start_exclusive still has CPUs to wait for,
  // or the last of them is about to signal; a thread asleep on exclusive_resume has
  // an exclusive section to wait for, or its end is about to broadcast.
  lemma NoLostWakeup(run: seq<State>, k: nat, x: nat)
    requires IsRun(run) && k < |run| && x < |run[k].pc|
    ensures var s := run[k]; s.pc[x].AwaitAsleep? ==>
              s.pending > 1 || exists c :: 0 <= c < |s.pc| && s.pc[c].EndSignal?
    ensures var s := run[k]; s.pc[x].ExecAsleep? || s.pc[x].ExclAsleep? ==>
              s.pending != 0 || exists c :: 0 <= c < |s.pc| && s.pc[c].Broadcast?
  {
    RunInv(run, k);
    assert ThreadOk(run[k], x);
  }

  // Thread i can go on by itself: it is not outside, not asleep and not waiting for
  // a lock that is taken.
  predicate Enabled(s: State, i: nat)
    requires i < |s.pc|
  {
    var pc := s.pc[i];
    && !pc.Idle? && !Sleeping(pc)
    && (pc.ExecLock? || pc.ExecWake? || pc.EndLock? || pc.ExclLock? || pc.ExclWake? || pc.AwaitWake? || pc.Exclusive? ==>
          s.lock == NOBODY)
  }

  // No deadlock: as long as some thread is not outside, some thread can go on.
  lemma NoDeadlock(run: seq<State>, k: nat, x: nat) returns (i: nat)
    requires IsRun(run) && k < |run| && x < |run[k].pc| && !run[k].pc[x].Idle?
    ensures i < |run[k].pc| && Enabled(run[k], i)
  {
    var s := run[k];
    RunInv(run, k);
    assert ThreadOk(s, x);
    if s.lock >= 0 {
      i := s.lock;
      assert ThreadOk(s, i);
    } else if !Sleeping(s.pc[x]) {
      i := x;
    } else {
      i := s.owner;
      assert ThreadOk(s, i);
      if s.pc[i].AwaitAsleep? {
        CountZero(s.hasWaiter);
        i :| 0 <= i < |s.pc| && s.hasWaiter[i];
        assert ThreadOk(s, i);
      }
    }
  }

  // An enabled thread has a step.
  lemma EnabledSteps(s: State, i: nat) returns (s': State)
    requires s.Ok() && i < |s.pc| && Enabled(s, i)
    ensures Step(s, i, s') && !SpuriousWakeup(s, i, s')
  {
    var pc := s.pc[i];
    match pc
    case ExecCheck => s' := s.Go(i, if s.pending != 0 then ExecLock else Running);
    case ExecLock => s' := s.Go(i, ExecHold).(lock := i);
    case ExecHold => s' := s.Go(i, if s.hasWaiter[i] then ExecUnlock else ExecClear);
    case ExecClear => s' := s.Go(i, ExecIdle).(running := s.running[i := false]);
    case ExecIdle => s' := if s.pending != 0 then Release(s, i, ExecAsleep) else s.Go(i, ExecSet);
    case ExecWake => s' := s.Go(i, ExecIdle).(lock := i);
    case ExecSet => s' := s.Go(i, ExecUnlock).(running := s.running[i := true]);
    case ExecUnlock => s' := Release(s, i, Running);
    case Running => s' := s.Go(i, EndCheck).(running := s.running[i := false]);
    case EndCheck => s' := s.Go(i, if s.pending != 0 then EndLock else Idle);
    case EndLock => s' := s.Go(i, EndHold).(lock := i);
    case EndHold =>
      s' := if s.hasWaiter[i] then s.Go(i, EndDec).(hasWaiter := s.hasWaiter[i := false]) else s.Go(i, EndUnlock);
    case EndDec => s' := s.Go(i, EndSignal).(pending := s.pending - 1);
    case EndSignal =>
      if s.pending == 1 && exists j :: 0 <= j < |s.pc| && s.pc[j].AwaitAsleep? {
        var j :| 0 <= j < |s.pc| && s.pc[j].AwaitAsleep?;
        s' := s.Go(j, AwaitWake).Go(i, EndUnlock);
      } else {
        s' := s.Go(i, EndUnlock);
      }
    case EndUnlock => s' := Release(s, i, Idle);
    case ExclLock => s' := s.Go(i, ExclIdle).(lock := i);
    case ExclIdle => s' := if s.pending != 0 then Release(s, i, ExclAsleep) else s.Go(i, ExclSet);
    case ExclWake => s' := s.Go(i, ExclIdle).(lock := i);
    case ExclSet => s' := s.Go(i, Scan(0, 0)).(pending := 1, owner := i);
    case Scan(cpu, count) =>
      s' := if cpu >= |s.pc| then s.Go(i, Publish(count))
            else if s.running[cpu] then s.Go(i, Scan(cpu + 1, count + 1)).(hasWaiter := s.hasWaiter[cpu := true])
            else s.Go(i, Scan(cpu + 1, count));
    case Publish(count) => s' := s.Go(i, Await).(pending := count + 1);
    case Await => s' := if s.pending > 1 then Release(s, i, AwaitAsleep) else s.Go(i, ExclUnlock);
    case AwaitWake => s' := s.Go(i, Await).(lock := i);
    case ExclUnlock => s' := Release(s, i, Exclusive);
    case Exclusive => s' := s.Go(i, Reset).(lock := i);
    case Reset => s' := s.Go(i, Broadcast).(pending := 0, owner := NOBODY);
    case Broadcast => s' := s.(pc := Resumed(s.pc)).Go(i, ResetUnlock);
    case ResetUnlock => s' := Release(s, i, Idle);
  }

  // ------------------------------------------------------------------- progress

  // A thread that is neither outside nor asleep goes on. What is left out are new calls
  // and wake-ups for no reason.
  predicate Works(s: State, i: nat, s': State)
    requires s.Ok() && i < |s.pc|
  {
    !s.pc[i].Idle? && !Sleeping(s.pc[i]) && Step(s, i, s')
  }

  // How many steps thread i has ahead, of n threads, at most, if the wake-ups it is to
  // give are counted with it: one by a signal and n by a broadcast, of two steps each.
  ghost function Ahead(pc: Pc, n: nat): nat {
    match pc
    case Idle => 0
    case EndUnlock => 1
    case EndSignal => 4
    case EndDec => 5
    case EndHold => 6
    case EndLock => 7
    case EndCheck => 8
    case Running => 9
    case ExecUnlock => 10
    case ExecSet => 11
    case ExecAsleep => 11
    case ExecIdle => 12
    case ExecWake => 13
    case ExecClear => 13
    case ExecHold => 14
    case ExecLock => 15
    case ExecCheck => 16
    case ResetUnlock => 1
    case Broadcast => 2 * n + 2
    case Reset => 2 * n + 3
    case Exclusive => 2 * n + 4
    case ExclUnlock => 2 * n + 5
    case AwaitAsleep => 2 * n + 5
    case Await => 2 * n + 6
    case AwaitWake => 2 * n + 7
    case Publish(_) => 2 * n + 7
    case Scan(cpu, _) => 2 * n + 8 + if cpu < n then n - cpu else 0
    case ExclSet => 3 * n + 9
    case ExclAsleep => 3 * n + 9
    case ExclIdle => 3 * n + 10
    case ExclWake => 3 * n + 11
    case ExclLock => 3 * n + 11
  }

  ghost function AheadAll(pc: seq<Pc>, n: nat): nat {
    if pc == [] then 0 else AheadAll(pc[..|pc| - 1], n) + Ahead(pc[|pc| - 1], n)
  }

  lemma {:induction false} AheadUpdate(pc: seq<Pc>, n: nat, i: nat, next: Pc)
    requires i < |pc|
    ensures AheadAll(pc[i := next], n) == AheadAll(pc, n) - Ahead(pc[i], n) + Ahead(next, n)
  {
    var k := |pc| - 1;
    if i == k {
      assert pc[i := next][..k] == pc[..k];
    } else {
      AheadUpdate(pc[..k], n, i, next);
      assert pc[i := next][..k] == pc[..k][i := next];
    }
  }

  lemma {:induction false} AheadResumed(pc: seq<Pc>, n: nat)
    ensures AheadAll(Resumed(pc), n) <= AheadAll(pc, n) + 2 * |pc|
  {
    if pc != [] {
      var k := |pc| - 1;
      assert Resumed(pc)[..k] == Resumed(pc[..k]);
      AheadResumed(pc[..k], n);
    }
  }

  // Every step of work brings the end nearer.
  lemma WorkDone(s: State, i: nat, s': State)
    requires s.Ok() && i < |s.pc| && Works(s, i, s')
    ensures s'.Ok() && |s'.pc| == |s.pc|
    ensures AheadAll(s'.pc, |s.pc|) < AheadAll(s.pc, |s.pc|)
  {
    var n := |s.pc|;
    if s.pc[i].Broadcast? {
      AheadResumed(s.pc, n);
      AheadUpdate(Resumed(s.pc), n, i, ResetUnlock);
    } else if s.pc[i].EndSignal? {
      SignalDone(s, i, s');
    } else {
      LocalDone(s, i, s');
      AheadUpdate(s.pc, n, i, s'.pc[i]);
    }
  }

  lemma SignalAhead(pc: seq<Pc>, n: nat, i: nat, j: nat)
    requires i < |pc| && j < |pc| && pc[i].EndSignal? && pc[j].AwaitAsleep?
    ensures AheadAll(pc[j := AwaitWake][i := EndUnlock], n) < AheadAll(pc, n)
  {
    AheadUpdate(pc, n, j, AwaitWake);
    AheadUpdate(pc[j := AwaitWake], n, i, EndUnlock);
  }

  lemma SignalDone(s: State, i: nat, s': State)
    requires s.Ok() && i < |s.pc| && ExecEndSignal(s, i, s')
    ensures s'.Ok() && |s'.pc| == |s.pc|
    ensures AheadAll(s'.pc, |s.pc|) < AheadAll(s.pc, |s.pc|)
  {
    var n := |s.pc|;
    if j :| 0 <= j < n && s.pc[j].AwaitAsleep? && s' == s.Go(j, AwaitWake).Go(i, EndUnlock) {
      SignalAhead(s.pc, n, i, j);
    } else {
      AheadUpdate(s.pc, n, i, EndUnlock);
    }
  }

  // Only thread i has moved, and it has less ahead.
  ghost predicate Nearer(s: State, i: nat, s': State)
    requires i < |s.pc|
  {
    && s'.Ok() && |s'.pc| == |s.pc| && s'.pc == s.pc[i := s'.pc[i]]
    && Ahead(s'.pc[i], |s.pc|) < Ahead(s.pc[i], |s.pc|)
  }

  lemma StartDone(s: State, i: nat, s': State)
    requires s.Ok() && i < |s.pc| && ExecStart(s, i, s') && !s.pc[i].Idle?
    ensures Nearer(s, i, s')
  {
  }

  lemma YieldDone(s: State, i: nat, s': State)
    requires s.Ok() && i < |s.pc| && (ExecYield(s, i, s') || ExecResume(s, i, s'))
    ensures Nearer(s, i, s')
  {
  }

  lemma EndDone(s: State, i: nat, s': State)
    requires s.Ok() && i < |s.pc| && (ExecEnd(s, i, s') || ExecReturn(s, i, s'))
    ensures Nearer(s, i, s')
  {
  }

  lemma ExclusiveDone(s: State, i: nat, s': State)
    requires s.Ok() && i < |s.pc| && StartExclusive(s, i, s') && !s.pc[i].Idle?
    ensures Nearer(s, i, s')
  {
  }

  lemma AwaitDone(s: State, i: nat, s': State)
    requires s.Ok() && i < |s.pc| && AwaitRunning(s, i, s')
    ensures Nearer(s, i, s')
  {
  }

  lemma ResetDone(s: State, i: nat, s': State)
    requires s.Ok() && i < |s.pc| && EndExclusive(s, i, s') && !s.pc[i].Broadcast?
    ensures Nearer(s, i, s')
  {
  }

  // A step that moves one thread only.
  lemma LocalDone(s: State, i: nat, s': State)
    requires s.Ok() && i < |s.pc| && Works(s, i, s') && !s.pc[i].Broadcast? && !s.pc[i].EndSignal?
    ensures Nearer(s, i, s')
  {
    if ExecStart(s, i, s') {
      StartDone(s, i, s');
    } else if ExecYield(s, i, s') || ExecResume(s, i, s') {
      YieldDone(s, i, s');
    } else if ExecEnd(s, i, s') || ExecReturn(s, i, s') {
      EndDone(s, i, s');
    } else if StartExclusive(s, i, s') {
      ExclusiveDone(s, i, s');
    } else if AwaitRunning(s, i, s') {
      AwaitDone(s, i, s');
    } else {
      ResetDone(s, i, s');
    }
  }

  ghost predicate SomeoneWorks(s: State, s': State)
    requires s.Ok()
  {
    exists i :: 0 <= i < |s.pc| && Works(s, i, s')
  }

  // From state k on, there is nothing but work.
  ghost predicate OnlyWork(run: seq<State>, k: nat) {
    forall j {:trigger WorkAt(run, j)} :: k < j < |run| ==> WorkAt(run, j)
  }

  ghost predicate WorkAt(run: seq<State>, j: nat)
    requires 0 < j < |run|
  {
    run[j - 1].Ok() && SomeoneWorks(run[j - 1], run[j])
  }

  // However the threads take turns, work comes to an end.
  lemma {:induction false} WorkBounded(run: seq<State>, k: nat, j: nat)
    requires IsRun(run) && k <= j < |run| && OnlyWork(run, k)
    ensures |run[j].pc| == |run[k].pc|
    ensures AheadAll(run[j].pc, |run[k].pc|) + (j - k) <= AheadAll(run[k].pc, |run[k].pc|)
    decreases j
  {
    if k < j {
      WorkBounded(run, k, j - 1);
      assert WorkAt(run, j);
      var i :| 0 <= i < |run[j - 1].pc| && Works(run[j - 1], i, run[j]);
      WorkDone(run[j - 1], i, run[j]);
    }
  }

  // The four calls, and where a thread is after each of them.
  datatype Call = CpuExecStart | CpuExecEnd | ExclusiveStart | ExclusiveEnd

  predicate Within(call: Call, pc: Pc) {
    match call
    case CpuExecStart =>
      || pc.ExecCheck? || pc.ExecLock? || pc.ExecHold? || pc.ExecClear? || pc.ExecIdle? || pc.ExecAsleep? || pc.ExecWake?
      || pc.ExecSet? || pc.ExecUnlock?
    case CpuExecEnd =>
      pc.EndCheck? || pc.EndLock? || pc.EndHold? || pc.EndDec? || pc.EndSignal? || pc.EndUnlock?
    case ExclusiveStart =>
      || pc.ExclLock? || pc.ExclIdle? || pc.ExclAsleep? || pc.ExclWake? || pc.ExclSet? || pc.Scan? || pc.Publish?
      || pc.Await? || pc.AwaitAsleep? || pc.AwaitWake? || pc.ExclUnlock?
    case ExclusiveEnd =>
      pc.Reset? || pc.Broadcast? || pc.ResetUnlock?
  }

  predicate Returned(call: Call, pc: Pc) {
    match call
    case CpuExecStart => pc.Running?
    case ExclusiveStart => pc.Exclusive?
    case _ => pc.Idle?
  }

  // The only way out of a call is its return.
  lemma GoesOn(call: Call, s: State, i: nat, s': State, x: nat)
    requires s.Ok() && i < |s.pc| && x < |s.pc| && Within(call, s.pc[x]) && Works(s, i, s')
    ensures x < |s'.pc| && (Within(call, s'.pc[x]) || Returned(call, s'.pc[x]))
  {
    if !s.pc[i].Broadcast? && !s.pc[i].EndSignal? {
      LocalDone(s, i, s');
      if i == x {
        GoesOnAlone(call, s, i, s');
      }
    }
  }

  lemma GoesOnAlone(call: Call, s: State, i: nat, s': State)
    requires s.Ok() && i < |s.pc| && Within(call, s.pc[i]) && Works(s, i, s') && !s.pc[i].Broadcast? && !s.pc[i].EndSignal?
    ensures i < |s'.pc| && (Within(call, s'.pc[i]) || Returned(call, s'.pc[i]))
  {
    match call
    case CpuExecStart => assert ExecStart(s, i, s') || ExecYield(s, i, s') || ExecResume(s, i, s');
    case CpuExecEnd => assert ExecEnd(s, i, s') || ExecReturn(s, i, s');
    case ExclusiveStart => assert StartExclusive(s, i, s') || AwaitRunning(s, i, s');
    case ExclusiveEnd => assert EndExclusive(s, i, s');
  }

  lemma {:induction false} StaysWithin(call: Call, run: seq<State>, k: nat, j: nat, x: nat)
    requires IsRun(run) && k <= j < |run| && OnlyWork(run, k) && x < |run[k].pc| && Within(call, run[k].pc[x])
    requires forall m :: k <= m <= j && x < |run[m].pc| ==> !Returned(call, run[m].pc[x])
    ensures x < |run[j].pc| && Within(call, run[j].pc[x])
    decreases j
  {
    if k < j {
      StaysWithin(call, run, k, j - 1, x);
      assert WorkAt(run, j);
      var i :| 0 <= i < |run[j - 1].pc| && Works(run[j - 1], i, run[j]);
      GoesOn(call, run[j - 1], i, run[j], x);
    }
  }

  ghost predicate NobodyEnabled(s: State) {
    forall i :: 0 <= i < |s.pc| ==> !Enabled(s, i)
  }

  // Every call returns, in whatever order threads take turns: if they work on until none
  // can, the caller has been where the call leads, be it a CPU that runs, a thread in its
  // exclusive section, or one that has left either.
  lemma Inevitable(call: Call, run: seq<State>, k: nat, x: nat)
    requires IsRun(run) && k < |run| && OnlyWork(run, k) && x < |run[k].pc| && Within(call, run[k].pc[x])
    requires NobodyEnabled(run[|run| - 1])
    ensures exists m :: k <= m < |run| && x < |run[m].pc| && Returned(call, run[m].pc[x])
  {
    if forall m :: k <= m < |run| && x < |run[m].pc| ==> !Returned(call, run[m].pc[x]) {
      StaysWithin(call, run, k, |run| - 1, x);
      var i := NoDeadlock(run, |run| - 1, x);
      assert false;
    }
  }

  // And they can work on until it is there.
  lemma {:induction false} Progress(call: Call, run: seq<State>, x: nat) returns (more: seq<State>)
    requires IsRun(run) && x < |run[|run| - 1].pc| && Within(call, run[|run| - 1].pc[x])
    ensures run <= more && IsRun(more) && OnlyWork(more, |run| - 1)
    ensures x < |more[|more| - 1].pc| && Returned(call, more[|more| - 1].pc[x])
    decreases AheadAll(run[|run| - 1].pc, |run[|run| - 1].pc|)
  {
    var s' := OneStep(call, run, x);
    more := run + [s'];
    if !Returned(call, s'.pc[x]) {
      var rest := Progress(call, more, x);
      OnlyWorkMore(run, more, rest);
      more := rest;
    }
  }

  lemma OneStep(call: Call, run: seq<State>, x: nat) returns (s': State)
    requires IsRun(run) && x < |run[|run| - 1].pc| && Within(call, run[|run| - 1].pc[x])
    ensures IsRun(run + [s']) && OnlyWork(run + [s'], |run| - 1)
    ensures x < |s'.pc| && (Within(call, s'.pc[x]) || Returned(call, s'.pc[x]))
    ensures AheadAll(s'.pc, |s'.pc|) < AheadAll(run[|run| - 1].pc, |run[|run| - 1].pc|)
  {
    var s := run[|run| - 1];
    RunInv(run, |run| - 1);
    var i := NoDeadlock(run, |run| - 1, x);
    s' := EnabledSteps(s, i);
    WorkDone(s, i, s');
    GoesOn(call, s, i, s', x);
    WorkAdded(run, i, s');
  }

  // When nobody can go on, everything is as it was in the beginning.
  lemma AllOutside(run: seq<State>)
    requires IsRun(run) && NobodyEnabled(run[|run| - 1])
    ensures Init(run[|run| - 1])
  {
    var s := run[|run| - 1];
    RunInv(run, |run| - 1);
    forall x | 0 <= x < |s.pc|
      ensures s.pc[x].Idle?
    {
      if !s.pc[x].Idle? {
        var i := NoDeadlock(run, |run| - 1, x);
      }
    }
    forall x | 0 <= x < |s.pc|
      ensures !s.running[x] && !s.hasWaiter[x]
    {
      assert ThreadOk(s, x);
    }
    assert s.lock >= 0 ==> ThreadOk(s, s.lock);
    assert s.owner >= 0 ==> ThreadOk(s, s.owner);
  }

  // With no exclusive section about, a CPU starts to run and ends in two steps of its own
  // each, without the lock.
  lemma FastPath(s: State, i: nat)
    requires s.Ok() && i < |s.pc| && s.pending == 0
    ensures s.pc[i].Idle? ==>
      var s1 := s.Go(i, ExecCheck).(running := s.running[i := true]);
      Step(s, i, s1) && Step(s1, i, s1.Go(i, Running))
    ensures s.pc[i].Running? ==>
      var s1 := s.Go(i, EndCheck).(running := s.running[i := false]);
      Step(s, i, s1) && Step(s1, i, s1.Go(i, Idle))
  {
    if s.pc[i].Idle? {
      var s1 := s.Go(i, ExecCheck).(running := s.running[i := true]);
      assert ExecStart(s, i, s1) && ExecStart(s1, i, s1.Go(i, Running));
    } else if s.pc[i].Running? {
      var s1 := s.Go(i, EndCheck).(running := s.running[i := false]);
      assert ExecEnd(s, i, s1) && ExecEnd(s1, i, s1.Go(i, Idle));
    }
  }

  // Any number of CPUs can run at once.
  ghost function Pcs(n: nat, k: nat): seq<Pc> {
    seq(n, i => if i < k then Running else Idle)
  }

  ghost function Flags(n: nat, k: nat): seq<bool> {
    seq(n, i => i < k)
  }

  lemma {:induction false} AllRunning(n: nat, k: nat) returns (run: seq<State>)
    requires k <= n
    ensures IsRun(run) && run[|run| - 1] == State(Pcs(n, k), Flags(n, k), Flags(n, 0), 0, NOBODY, NOBODY)
  {
    if k == 0 {
      run := [State(Pcs(n, 0), Flags(n, 0), Flags(n, 0), 0, NOBODY, NOBODY)];
    } else {
      run := AllRunning(n, k - 1);
      var s := run[|run| - 1];
      var s1 := s.Go(k - 1, ExecCheck).(running := s.running[k - 1 := true]);
      var s2 := s1.Go(k - 1, Running);
      FastPath(s, k - 1);
      run := StepAdded(run, k - 1, s1);
      run := StepAdded(run, k - 1, s2);
      assert s2.pc == Pcs(n, k) && s2.running == Flags(n, k);
    }
  }

  lemma StepAdded(run: seq<State>, i: nat, s': State) returns (run': seq<State>)
    requires IsRun(run) && run[|run| - 1].Ok() && s'.Ok() && i < |run[|run| - 1].pc| && Step(run[|run| - 1], i, s')
    ensures run' == run + [s'] && IsRun(run')
  {
    run' := run + [s'];
    forall k | 0 < k < |run'|
      ensures StepAt(run', k)
    {
      assert k < |run| ==> StepAt(run, k);
    }
  }

  lemma WorkAdded(run: seq<State>, i: nat, s': State)
    requires IsRun(run) && run[|run| - 1].Ok() && s'.Ok() && i < |run[|run| - 1].pc| && Works(run[|run| - 1], i, s')
    ensures IsRun(run + [s']) && OnlyWork(run + [s'], |run| - 1)
  {
    var run' := run + [s'];
    forall k | 0 < k < |run'|
      ensures StepAt(run', k)
    {
      assert k < |run| ==> StepAt(run, k);
    }
    assert WorkAt(run', |run|);
  }

  lemma OnlyWorkMore(run: seq<State>, more: seq<State>, rest: seq<State>)
    requires run != [] && |more| == |run| + 1 && more <= rest && OnlyWork(more, |run| - 1) && OnlyWork(rest, |more| - 1)
    ensures OnlyWork(rest, |run| - 1)
  {
    forall j | |run| - 1 < j < |rest|
      ensures WorkAt(rest, j)
    {
      if j < |more| {
        assert WorkAt(more, j);
      }
    }
  }

  // The section can be entered: the steps of a single thread through start_exclusive.
  lemma Entered() returns (run: seq<State>)
    ensures IsRun(run) && run[|run| - 1].pc == [Exclusive] && run[|run| - 1].pending == 1
  {
    run := Entering();
    var s := run[|run| - 1];
    run := Extended(run, s.(pc := [Scan(1, 0)]));
    run := Extended(run, s.(pc := [Publish(0)]));
    run := Extended(run, s.(pc := [Await]));
    run := Extended(run, s.(pc := [ExclUnlock]));
    run := Extended(run, s.(pc := [Exclusive], lock := NOBODY));
  }

  lemma Entering() returns (run: seq<State>)
    ensures IsRun(run) && run[|run| - 1] == State([Scan(0, 0)], [false], [false], 1, 0, 0)
  {
    var s := State([Idle], [false], [false], 0, NOBODY, NOBODY);
    run := [s];
    run := Extended(run, s.(pc := [ExclLock]));
    run := Extended(run, s.(pc := [ExclIdle], lock := 0));
    run := Extended(run, s.(pc := [ExclSet], lock := 0));
    run := Extended(run, State([Scan(0, 0)], [false], [false], 1, 0, 0));
  }

  // One more step of thread 0 through start_exclusive.
  lemma Extended(run: seq<State>, s': State) returns (run': seq<State>)
    requires IsRun(run) && s'.Ok() && run[|run| - 1].Ok() && 0 < |run[|run| - 1].pc|
    requires StartExclusive(run[|run| - 1], 0, s') || AwaitRunning(run[|run| - 1], 0, s')
    ensures run' == run + [s'] && IsRun(run')
  {
    run' := StepAdded(run, 0, s');
  }
}
