// The bounce buffer of address_space_map and the clients that wait for it, in exec.c,
// as interleaved atomic steps of any number of threads. Whoever fails to map registers
// and tries again when its bottom half has been scheduled.
module MapClients {
  type Bh = nat

  // What a thread does next.
  datatype Pc =
    | Idle
    | Mapping                 // exchange in_use
    | Mapped                  // owns the bounce buffer
    | Unmapping               // the buffer is free, clear in_use
    // cpu_notify_map_clients
    | NotifyLock              // take the lock
    | Notify                  // schedule and drop clients until there are none
    // cpu_register_map_client
    | RegisterLock(bh: Bh)
    | RegisterInsert(bh: Bh)  // put the client at the head of the list
    | RegisterCheck           // read in_use
    | RegisterUnlock
    // cpu_unregister_map_client
    | UnregisterLock(bh: Bh)
    | UnregisterRemove(bh: Bh)
    | UnregisterUnlock

  const NOBODY: int := -1

  // `registered` and `removed` are auxiliary: all clients ever put on the list and
  // those taken off by cpu_unregister_map_client.
  datatype State = State(pc: seq<Pc>, inUse: bool, lock: int, clients: seq<Bh>, scheduled: multiset<Bh>,
                         registered: multiset<Bh>, removed: multiset<Bh>) {
    function Go(i: nat, next: Pc): State
      requires i < |pc|
    {
      this.(pc := pc[i := next])
    }
  }

  predicate Init(s: State) {
    && !s.inUse && s.lock == NOBODY && s.clients == []
    && s.scheduled == s.registered == s.removed == multiset{}
    && forall i :: 0 <= i < |s.pc| ==> s.pc[i] == Idle
  }

  // The list without the first client that has this bottom half.
  function Without(clients: seq<Bh>, bh: Bh): seq<Bh> {
    if clients == [] then [] else if clients[0] == bh then clients[1..] else [clients[0]] + Without(clients[1..], bh)
  }

  predicate Acquire(s: State, i: nat, next: Pc, s': State)
    requires i < |s.pc|
  {
    s.lock == NOBODY && s' == s.Go(i, next).(lock := i)
  }

  function Release(s: State, i: nat): State
    requires i < |s.pc|
  {
    s.Go(i, Idle).(lock := NOBODY)
  }

  // A thread begins one of the operations, or is done with the buffer.
  ghost predicate Begin(s: State, i: nat, s': State)
    requires i < |s.pc|
  {
    || (s.pc[i].Idle? && s' == s.Go(i, Mapping))
    || (s.pc[i].Mapped? && s' == s.Go(i, Unmapping))
    || (s.pc[i].Idle? && exists bh: Bh :: s' == s.Go(i, RegisterLock(bh)))
    || (s.pc[i].Idle? && exists bh: Bh :: s' == s.Go(i, UnregisterLock(bh)))
  }

  predicate Work(s: State, i: nat, s': State)
    requires i < |s.pc|
  {
    match s.pc[i]
    case Mapping => s' == s.Go(i, if s.inUse then Idle else Mapped).(inUse := true)
    case Unmapping => s' == s.Go(i, NotifyLock).(inUse := false)
    case NotifyLock => Acquire(s, i, Notify, s')
    case Notify =>
      s' == if s.clients == [] then Release(s, i)
            else s.(clients := s.clients[1..], scheduled := s.scheduled + multiset{s.clients[0]})
    case RegisterLock(bh) => Acquire(s, i, RegisterInsert(bh), s')
    case RegisterInsert(bh) =>
      s' == s.Go(i, RegisterCheck).(clients := [bh] + s.clients, registered := s.registered + multiset{bh})
    case RegisterCheck => s' == s.Go(i, if s.inUse then RegisterUnlock else Notify)
    case RegisterUnlock => s' == Release(s, i)
    case UnregisterLock(bh) => Acquire(s, i, UnregisterRemove(bh), s')
    case UnregisterRemove(bh) =>
      s' == s.Go(i, UnregisterUnlock).(clients := Without(s.clients, bh),
                                       removed := s.removed + if bh in s.clients then multiset{bh} else multiset{})
    case UnregisterUnlock => s' == Release(s, i)
    case _ => false
  }

  ghost predicate Step(s: State, i: nat, s': State)
    requires i < |s.pc|
  {
    Begin(s, i, s') || Work(s, i, s')
  }

  ghost predicate Next(s: State, s': State) {
    exists i: nat :: i < |s.pc| && Step(s, i, s')
  }

  ghost predicate IsRun(run: seq<State>) {
    && run != [] && Init(run[0])
    && forall k {:trigger StepAt(run, k)} :: 0 < k < |run| ==> StepAt(run, k)
  }

  ghost predicate StepAt(run: seq<State>, k: nat)
    requires 0 < k < |run|
  {
    Next(run[k - 1], run[k])
  }

  // ------------------------------------------------------------------ the invariant

  predicate Owns(pc: Pc) {
    pc.Mapped? || pc.Unmapping?
  }

  predicate HoldsLock(pc: Pc) {
    || pc.Notify? || pc.RegisterInsert? || pc.RegisterCheck? || pc.RegisterUnlock?
    || pc.UnregisterRemove? || pc.UnregisterUnlock?
  }

  // This thread will still look at the list before it is done.
  predicate WillNotify(pc: Pc) {
    pc.NotifyLock? || pc.Notify? || pc.RegisterCheck?
  }

  ghost predicate ThreadOk(s: State, i: nat)
    requires i < |s.pc|
  {
    && (HoldsLock(s.pc[i]) <==> s.lock == i)
    && (Owns(s.pc[i]) ==> s.inUse)
  }

  ghost predicate AtMostOneOwner(s: State) {
    forall i, j :: 0 <= i < |s.pc| && 0 <= j < |s.pc| && Owns(s.pc[i]) && Owns(s.pc[j]) ==> i == j
  }

  ghost predicate HasOwner(s: State) {
    exists i :: 0 <= i < |s.pc| && Owns(s.pc[i])
  }

  ghost predicate SomeoneWillNotify(s: State) {
    exists i :: 0 <= i < |s.pc| && WillNotify(s.pc[i])
  }

  ghost predicate Inv(s: State) {
    && -1 <= s.lock < |s.pc|
    && (forall i {:trigger ThreadOk(s, i)} :: 0 <= i < |s.pc| ==> ThreadOk(s, i))
    && AtMostOneOwner(s)
    && (s.inUse ==> HasOwner(s))
    && (s.clients != [] ==> s.inUse || SomeoneWillNotify(s))
    && s.registered == multiset(s.clients) + s.scheduled + s.removed
  }

  lemma InitInv(s: State)
    requires Init(s)
    ensures Inv(s)
  {
  }

  // Threads other than i, the owner and the notifiers are as before when only i moves.
  lemma Moved(s: State, i: nat, s': State)
    requires Inv(s) && i < |s.pc| == |s'.pc| && s'.pc == s.pc[i := s'.pc[i]]
    ensures Owns(s'.pc[i]) == Owns(s.pc[i]) ==> AtMostOneOwner(s') && (HasOwner(s) <==> HasOwner(s'))
    ensures WillNotify(s.pc[i]) ==> SomeoneWillNotify(s)
    ensures WillNotify(s'.pc[i]) ==> SomeoneWillNotify(s')
    ensures !WillNotify(s.pc[i]) && SomeoneWillNotify(s) ==> SomeoneWillNotify(s')
  {
    if Owns(s'.pc[i]) == Owns(s.pc[i]) {
      assert forall j :: 0 <= j < |s.pc| ==> (Owns(s'.pc[j]) <==> Owns(s.pc[j]));
      if HasOwner(s) {
        var j :| 0 <= j < |s.pc| && Owns(s.pc[j]);
        assert Owns(s'.pc[j]);
      }
      if HasOwner(s') {
        var j :| 0 <= j < |s.pc| && Owns(s'.pc[j]);
        assert Owns(s.pc[j]);
      }
    }
    if !WillNotify(s.pc[i]) && SomeoneWillNotify(s) {
      var j :| 0 <= j < |s.pc| && WillNotify(s.pc[j]);
      assert s'.pc[j] == s.pc[j];
    }
  }

  lemma ThreadsMoved(s: State, i: nat, s': State)
    requires Inv(s) && i < |s.pc| == |s'.pc| && s'.pc == s.pc[i := s'.pc[i]]
    requires ThreadOk(s', i)
    requires s'.lock == s.lock || (s.lock == NOBODY && s'.lock == i) || (s.lock == i && s'.lock == NOBODY)
    requires s.inUse ==> s'.inUse || (Owns(s.pc[i]) && !Owns(s'.pc[i]))
    ensures forall j {:trigger ThreadOk(s', j)} :: 0 <= j < |s'.pc| ==> ThreadOk(s', j)
  {
    forall j | 0 <= j < |s'.pc|
      ensures ThreadOk(s', j)
    {
      assert ThreadOk(s, j) && ThreadOk(s, i);
    }
  }

  lemma {:induction false} WithoutMultiset(clients: seq<Bh>, bh: Bh)
    ensures multiset(clients) == multiset(Without(clients, bh)) + if bh in clients then multiset{bh} else multiset{}
  {
    if clients != [] {
      assert clients == [clients[0]] + clients[1..];
      if clients[0] != bh {
        WithoutMultiset(clients[1..], bh);
      }
    }
  }

  lemma FirstAndRest(clients: seq<Bh>)
    requires clients != []
    ensures multiset(clients) == multiset{clients[0]} + multiset(clients[1..])
  {
    assert clients == [clients[0]] + clients[1..];
  }

  lemma BeginInv(s: State, i: nat, s': State)
    requires Inv(s) && i < |s.pc| && Begin(s, i, s')
    ensures Inv(s')
  {
    assert ThreadOk(s, i);
    Moved(s, i, s');
    ThreadsMoved(s, i, s');
  }

  // Taking and clearing in_use.
  lemma UseInv(s: State, i: nat, s': State)
    requires Inv(s) && i < |s.pc| && (s.pc[i].Mapping? || s.pc[i].Unmapping?) && Work(s, i, s')
    ensures Inv(s')
  {
    assert ThreadOk(s, i);
    Moved(s, i, s');
    ThreadsMoved(s, i, s');
    if s.pc[i].Mapping? && !s.inUse {
      forall j | 0 <= j < |s.pc| && j != i
        ensures !Owns(s'.pc[j])
      {
        assert ThreadOk(s, j) && s'.pc[j] == s.pc[j];
      }
      assert Owns(s'.pc[i]);
    }
    if s.pc[i].Unmapping? {
      assert Owns(s.pc[i]) && WillNotify(s'.pc[i]);
      forall j | 0 <= j < |s.pc|
        ensures !Owns(s'.pc[j])
      {
        assert j != i ==> !Owns(s.pc[j]) && s'.pc[j] == s.pc[j];
      }
    }
  }

  // What happens under the lock.
  lemma NotifyLockInv(s: State, i: nat, s': State)
    requires Inv(s) && i < |s.pc| && s.pc[i].NotifyLock? && Work(s, i, s')
    ensures Inv(s')
  {
    assert ThreadOk(s, i);
    Moved(s, i, s');
    ThreadsMoved(s, i, s');
  }

  lemma NotifyInv(s: State, i: nat, s': State)
    requires Inv(s) && i < |s.pc| && s.pc[i].Notify? && Work(s, i, s')
    ensures Inv(s')
  {
    assert ThreadOk(s, i);
    Moved(s, i, s');
    ThreadsMoved(s, i, s');
    if s.clients != [] {
      FirstAndRest(s.clients);
    }
  }

  lemma RegisterInv(s: State, i: nat, s': State)
    requires Inv(s) && i < |s.pc| && Work(s, i, s')
    requires s.pc[i].RegisterLock? || s.pc[i].RegisterInsert? || s.pc[i].RegisterCheck? || s.pc[i].RegisterUnlock?
    ensures Inv(s')
  {
    assert ThreadOk(s, i);
    Moved(s, i, s');
    ThreadsMoved(s, i, s');
  }

  lemma UnregisterInv(s: State, i: nat, s': State)
    requires Inv(s) && i < |s.pc| && Work(s, i, s')
    requires s.pc[i].UnregisterLock? || s.pc[i].UnregisterUnlock?
    ensures Inv(s')
  {
    assert ThreadOk(s, i);
    Moved(s, i, s');
    ThreadsMoved(s, i, s');
  }

  // A client that is taken off the list is counted as removed.
  lemma RemoveConserves(s: State, bh: Bh)
    requires s.registered == multiset(s.clients) + s.scheduled + s.removed
    ensures s.registered == multiset(Without(s.clients, bh)) + s.scheduled
            + (s.removed + if bh in s.clients then multiset{bh} else multiset{})
  {
    WithoutMultiset(s.clients, bh);
  }

  lemma RemoveInv(s: State, i: nat, s': State)
    requires Inv(s) && i < |s.pc| && Work(s, i, s') && s.pc[i].UnregisterRemove?
    ensures Inv(s')
  {
    assert ThreadOk(s, i);
    Moved(s, i, s');
    ThreadsMoved(s, i, s');
    RemoveConserves(s, s.pc[i].bh);
  }

  lemma InvStep(s: State, s': State)
    requires Inv(s) && Next(s, s')
    ensures Inv(s')
  {
    var i: nat :| i < |s.pc| && Step(s, i, s');
    if Begin(s, i, s') {
      BeginInv(s, i, s');
    } else if s.pc[i].Mapping? || s.pc[i].Unmapping? {
      UseInv(s, i, s');
    } else if s.pc[i].NotifyLock? {
      NotifyLockInv(s, i, s');
    } else if s.pc[i].Notify? {
      NotifyInv(s, i, s');
    } else if s.pc[i].UnregisterRemove? {
      RemoveInv(s, i, s');
    } else if s.pc[i].UnregisterLock? || s.pc[i].UnregisterUnlock? {
      UnregisterInv(s, i, s');
    } else {
      RegisterInv(s, i, s');
    }
  }

  lemma {:induction false} RunInv(run: seq<State>, k: nat)
    requires IsRun(run) && k < |run|
    ensures Inv(run[k])
  {
    if k == 0 {
      InitInv(run[0]);
    } else {
      RunInv(run, k - 1);
      assert StepAt(run, k);
      InvStep(run[k - 1], run[k]);
    }
  }

  // ---------------------------------------------------------------- the theorems

  // In every reachable state, while clients wait and nobody holds the lock, the buffer
  // is in use or somebody is about to notify them.
  lemma NoForgottenClient(run: seq<State>, k: nat)
    requires IsRun(run) && k < |run|
    ensures var s := run[k];
      s.clients != [] && s.lock == NOBODY ==> s.inUse || exists i :: 0 <= i < |s.pc| && s.pc[i] == NotifyLock
  {
    RunInv(run, k);
    var s := run[k];
    if s.clients != [] && s.lock == NOBODY && !s.inUse {
      var i :| 0 <= i < |s.pc| && WillNotify(s.pc[i]);
      assert ThreadOk(s, i);
    }
  }

  // The bounce buffer has one owner while it is in use and none otherwise.
  lemma OneOwner(run: seq<State>, k: nat)
    requires IsRun(run) && k < |run|
    ensures var s := run[k];
      && (s.inUse <==> HasOwner(s))
      && forall i, j :: 0 <= i < |s.pc| && 0 <= j < |s.pc| && Owns(s.pc[i]) && Owns(s.pc[j]) ==> i == j
  {
    RunInv(run, k);
    var s := run[k];
    if HasOwner(s) {
      var i :| 0 <= i < |s.pc| && Owns(s.pc[i]);
      assert ThreadOk(s, i);
    }
  }

  // Every client that was registered waits, has been scheduled once, or was removed.
  lemma NoLostClient(run: seq<State>, k: nat)
    requires IsRun(run) && k < |run|
    ensures run[k].registered == multiset(run[k].clients) + run[k].scheduled + run[k].removed
  {
    RunInv(run, k);
  }

  // ------------------------------------------------------------------- progress

  // Steps of thread i alone lead from s to s'.
  ghost predicate Alone(s: State, i: nat, s': State, n: nat)
    decreases n
  {
    if n == 0 then s == s'
    else i < |s.pc| && exists mid: State {:trigger Work(s, i, mid)} :: Work(s, i, mid) && Alone(mid, i, s', n - 1)
  }

  lemma AloneAfter(s: State, i: nat, mid: State, s': State, n: nat)
    requires i < |s.pc| && Work(s, i, mid) && Alone(mid, i, s', n)
    ensures Alone(s, i, s', n + 1)
  {
  }

  // Once it has the lock, a notifier schedules everybody and lets go, on its own.
  lemma {:induction false} NotifyDrains(s: State, i: nat)
    requires i < |s.pc| && s.pc[i] == Notify && s.lock == i
    ensures Alone(s, i, Drained(s, i), |s.clients| + 1)
    decreases |s.clients|
  {
    if s.clients == [] {
      assert Drained(s, i) == Release(s, i);
      AloneAfter(s, i, Drained(s, i), Drained(s, i), 0);
    } else {
      var mid := s.(clients := s.clients[1..], scheduled := s.scheduled + multiset{s.clients[0]});
      DrainedRest(s, i, mid);
      NotifyDrains(mid, i);
      AloneAfter(s, i, mid, Drained(s, i), |s.clients|);
    }
  }

  ghost function Drained(s: State, i: nat): State
    requires i < |s.pc|
  {
    Release(s, i).(clients := [], scheduled := s.scheduled + multiset(s.clients))
  }

  lemma DrainedRest(s: State, i: nat, mid: State)
    requires i < |s.pc| && s.clients != []
    requires mid == s.(clients := s.clients[1..], scheduled := s.scheduled + multiset{s.clients[0]})
    ensures Drained(mid, i) == Drained(s, i)
  {
    FirstAndRest(s.clients);
    assert mid.scheduled + multiset(mid.clients) == s.scheduled + multiset(s.clients);
  }

  // So when the lock is free, a thread that has cleared in_use needs only its own
  // steps to get every waiting client scheduled.
  lemma NotifyDelivers(s: State, i: nat)
    requires i < |s.pc| && s.pc[i] == NotifyLock && s.lock == NOBODY
    ensures exists s' :: && Alone(s, i, s', |s.clients| + 2) && s'.clients == [] && s'.lock == NOBODY
                         && s'.scheduled == s.scheduled + multiset(s.clients)
  {
    var mid := s.Go(i, Notify).(lock := i);
    NotifyDrains(mid, i);
    AloneAfter(s, i, mid, Drained(mid, i), |s.clients| + 1);
  }

  // Whoever finds the buffer free gets it, others do not.
  lemma MapTakes(s: State, i: nat)
    requires i < |s.pc| && s.pc[i] == Mapping
    ensures Alone(s, i, s.Go(i, if s.inUse then Idle else Mapped).(inUse := true), 1)
  {
    var s' := s.Go(i, if s.inUse then Idle else Mapped).(inUse := true);
    AloneAfter(s, i, s', s', 0);
  }

  // Giving it back, a thread frees the buffer and gets every waiting client scheduled.
  lemma UnmapDelivers(s: State, i: nat)
    requires i < |s.pc| && s.pc[i] == Unmapping && s.lock == NOBODY
    ensures exists s' :: && Alone(s, i, s', |s.clients| + 3) && !s'.inUse && s'.clients == [] && s'.lock == NOBODY
                         && s'.scheduled == s.scheduled + multiset(s.clients)
  {
    var s1 := s.Go(i, NotifyLock).(inUse := false);
    var s2 := s1.Go(i, Notify).(lock := i);
    NotifyDrains(s2, i);
    AloneAfter(s1, i, s2, Drained(s2, i), |s.clients| + 1);
    AloneAfter(s, i, s1, Drained(s2, i), |s.clients| + 2);
  }

  // A client that registers while the buffer is in use waits.
  lemma RegisterWaits(s: State, i: nat, bh: Bh)
    requires i < |s.pc| && s.pc[i] == RegisterLock(bh) && s.lock == NOBODY && s.inUse
    ensures exists s' :: Alone(s, i, s', 4) && s'.clients == [bh] + s.clients && s'.lock == NOBODY && s'.scheduled == s.scheduled
  {
    var s1 := s.Go(i, RegisterInsert(bh)).(lock := i);
    var s2 := s1.Go(i, RegisterCheck).(clients := [bh] + s.clients, registered := s.registered + multiset{bh});
    var s3 := s2.Go(i, RegisterUnlock);
    var done := Release(s3, i);
    AloneAfter(s3, i, done, done, 0);
    AloneAfter(s2, i, s3, done, 1);
    AloneAfter(s1, i, s2, done, 2);
    AloneAfter(s, i, s1, done, 3);
  }

  // One that registers while the buffer is free is scheduled at once, as are all others.
  lemma RegisterDelivers(s: State, i: nat, bh: Bh)
    requires i < |s.pc| && s.pc[i] == RegisterLock(bh) && s.lock == NOBODY && !s.inUse
    ensures exists s' :: && Alone(s, i, s', |s.clients| + 5) && s'.clients == [] && s'.lock == NOBODY
                         && s'.scheduled == s.scheduled + multiset(s.clients) + multiset{bh}
  {
    var s1 := s.Go(i, RegisterInsert(bh)).(lock := i);
    var s2 := s1.Go(i, RegisterCheck).(clients := [bh] + s.clients, registered := s.registered + multiset{bh});
    var s3 := s2.Go(i, Notify);
    var done := Drained(s3, i);
    NotifyDrains(s3, i);
    AloneAfter(s2, i, s3, done, |s.clients| + 2);
    AloneAfter(s1, i, s2, done, |s.clients| + 3);
    AloneAfter(s, i, s1, done, |s.clients| + 4);
    ScheduledToo(s.scheduled, s.clients, bh);
  }

  lemma ScheduledToo(scheduled: multiset<Bh>, clients: seq<Bh>, bh: Bh)
    ensures scheduled + multiset([bh] + clients) == scheduled + multiset(clients) + multiset{bh}
  {
  }

  // A client that is taken off is gone once, and nobody else is.
  lemma UnregisterDelivers(s: State, i: nat, bh: Bh)
    requires i < |s.pc| && s.pc[i] == UnregisterLock(bh) && s.lock == NOBODY
    ensures exists s' :: && Alone(s, i, s', 3) && multiset(s'.clients) == multiset(s.clients) - multiset{bh}
                         && s'.lock == NOBODY && s'.scheduled == s.scheduled && s'.inUse == s.inUse
  {
    var s1 := s.Go(i, UnregisterRemove(bh)).(lock := i);
    var s2 := s1.Go(i, UnregisterUnlock).(clients := Without(s.clients, bh),
                                          removed := s.removed + if bh in s.clients then multiset{bh} else multiset{});
    var done := Release(s2, i);
    AloneAfter(s2, i, done, done, 0);
    AloneAfter(s1, i, s2, done, 1);
    AloneAfter(s, i, s1, done, 2);
    WithoutLess(s.clients, bh);
  }

  lemma WithoutLess(clients: seq<Bh>, bh: Bh)
    ensures multiset(Without(clients, bh)) == multiset(clients) - multiset{bh}
  {
    WithoutMultiset(clients, bh);
  }

  // Clients do get to wait: one thread maps, another one registers meanwhile.
  lemma Waiting(bh: Bh) returns (run: seq<State>)
    ensures IsRun(run) && var s := run[|run| - 1]; s.clients == [bh] && s.lock == NOBODY && s.pc == [Mapped, Idle]
  {
    var s := State([Idle, Idle], false, NOBODY, [], multiset{}, multiset{}, multiset{});
    run := [s];
    run := Extended(run, 0, s.(pc := [Mapping, Idle]));
    s := s.(inUse := true);
    run := Extended(run, 0, s.(pc := [Mapped, Idle]));
    assert s.(pc := [Mapped, RegisterLock(bh)]) == s.(pc := [Mapped, Idle]).Go(1, RegisterLock(bh));
    run := Extended(run, 1, s.(pc := [Mapped, RegisterLock(bh)]));
    run := Extended(run, 1, s.(pc := [Mapped, RegisterInsert(bh)], lock := 1));
    s := s.(clients := [bh], registered := multiset{bh});
    run := Extended(run, 1, s.(pc := [Mapped, RegisterCheck], lock := 1));
    run := Extended(run, 1, s.(pc := [Mapped, RegisterUnlock], lock := 1));
    run := Extended(run, 1, s.(pc := [Mapped, Idle]));
  }

  // One more step of thread i.
  lemma Extended(run: seq<State>, i: nat, s': State) returns (run': seq<State>)
    requires IsRun(run) && i < |run[|run| - 1].pc| && Step(run[|run| - 1], i, s')
    ensures run' == run + [s'] && IsRun(run')
  {
    run' := run + [s'];
    assert Step(run[|run| - 1], i, s');
    forall k | 0 < k < |run'|
      ensures StepAt(run', k)
    {
      assert k < |run| ==> StepAt(run, k);
    }
  }
}
