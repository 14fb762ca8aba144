/** Every step of the scheduler keeps the invariant; runs of any length do. */
module SchedRuns {
  import opened Bytes
  import opened SchedSpec
  import opened SchedInv

  ghost predicate Core(s: Sys) {
    Placed(s) && Exclusive(s) && WaitsOk(s) && Conserved(s)
  }

  /** The wake-up record names a task. */
  predicate RecordOk(s: Sys) {
    Recorded(s) && (s.woken.Some? ==> !IsIdle(s.woken.value))
  }

  /** What holds whenever the scheduler lock is free. */
  ghost predicate Inv(s: Sys) {
    Core(s) && RecordOk(s)
  }

  /** The record would hand the CPU to a task that is not Ready. */
  ghost predicate BadRecord(s: Sys, cpu: nat)
    requires Typed(s) && Recorded(s) && cpu < MAX_CPUS
  {
    && s.woken.Some? && s.tasks[s.woken.value].value.state != Ready
    && s.tasks[s.woken.value].value.priority < Current(s, cpu).priority
  }

  // ── Switching keeps the core ───────────────────────────────────────────────

  lemma PlacedPut(s: Sys, i: nat, t: Task)
    requires Placed(s) && Has(s, i) && |t.pending| == 2 && t.affinity == s.tasks[i].value.affinity
    ensures Placed(Put(s, i, t))
  {
  }

  lemma MoveCpu(s: Sys, cpu: nat, n: nat)
    requires WaitsOk(s) && Conserved(s) && cpu < MAX_CPUS && Has(s, n)
    ensures WaitsOk(s.(cur := s.cur[cpu := n])) && Conserved(s.(cur := s.cur[cpu := n]))
  {
    hide IdsOk, SendersOk, NoLost, Matches, InTransit, OneReason;
    var s1 := s.(cur := s.cur[cpu := n]);
    IdsKeep(s, s1);
    SendersKeep(s, s1);
    NoLostKeep(s, s1);
  }

  lemma ResumeCore(s: Sys, cpu: nat, n: nat)
    requires Placed(s) && ExclusiveBut(s, cpu) && WaitsOk(s) && Conserved(s) && cpu < MAX_CPUS && n < MAX_TASKS
    requires n == IdleSlot(cpu) || (n >= 1 && Candidate(s, cpu, n))
    ensures Core(Resume(s, cpu, n))
  {
    hide WaitsOk, Conserved, ExclusiveBut;
    PickIsPlaced(s, cpu, n);
    ResumeKeepsExclusive(s, cpu, n);
    NotBlocked(s, n);
    StateKeeps(s, n, Running);
    var s1 := Put(s, n, s.tasks[n].value.(state := Running));
    PlacedPut(s, n, s.tasks[n].value.(state := Running));
    MoveCpu(s1, cpu, n);
  }

  lemma NotBlocked(s: Sys, n: nat)
    requires WaitsOk(s) && Has(s, n) && (IsIdle(n) || s.tasks[n].value.state == Ready)
    ensures s.tasks[n].value.state != Blocked
  {
  }

  lemma SwitchAwayCore(s: Sys, cpu: nat, t: Task)
    requires Placed(s) && Exclusive(s) && cpu < MAX_CPUS
    requires t.state != Running && |t.pending| == 2 && t.affinity == Current(s, cpu).affinity
    requires WaitsOk(Put(s, s.cur[cpu], t)) && Conserved(Put(s, s.cur[cpu], t))
    ensures Core(SwitchAway(s, cpu, t)) && SwitchAway(s, cpu, t).woken == s.woken
    ensures RecordOk(s) ==> RecordOk(SwitchAway(s, cpu, t))
  {
    hide WaitsOk, Conserved, ExclusiveBut, Best, Core;
    ParkKeepsExclusive(s, cpu, t);
    PlacedPut(s, s.cur[cpu], t);
    var s1 := Put(s, s.cur[cpu], t);
    ResumeCore(s1, cpu, PickNext(s1, cpu));
  }

  lemma PreemptCore(s: Sys, cpu: nat, n: nat)
    requires Core(s) && cpu < MAX_CPUS && !IsIdle(s.cur[cpu]) && n < MAX_TASKS && n != s.cur[cpu]
    requires n == IdleSlot(cpu) || (n >= 1 && Candidate(s, cpu, n))
    ensures s.tasks[n].Some? && Core(Preempt(s, cpu, n)) && Preempt(s, cpu, n).woken == s.woken
    ensures RecordOk(s) ==> RecordOk(Preempt(s, cpu, n))
  {
    hide WaitsOk, Conserved, ExclusiveBut;
    PickIsPlaced(s, cpu, n);
    var me := Current(s, cpu).(state := Ready);
    ParkKeepsExclusive(s, cpu, me);
    PlacedPut(s, s.cur[cpu], me);
    RunningNow(s, cpu);
    StateKeeps(s, s.cur[cpu], Ready);
    ResumeCore(Put(s, s.cur[cpu], me), cpu, n);
  }

  lemma RunningNow(s: Sys, cpu: nat)
    requires Exclusive(s) && cpu < MAX_CPUS && !IsIdle(s.cur[cpu])
    ensures Has(s, s.cur[cpu]) && Current(s, cpu).state == Running
  {
  }

  /** Unless the record is bad the tail hands over to a Ready task or to none, and clears it. */
  lemma TailInv(s: Sys, cpu: nat)
    requires Inv(s) && cpu < MAX_CPUS && !IsIdle(s.cur[cpu]) && !BadRecord(s, cpu)
    ensures Inv(Tail(s, cpu)) && Tail(s, cpu).woken.None?
  {
    hide WaitsOk, Conserved, ExclusiveBut;
    RunningNow(s, cpu);
    var s1 := s.(woken := None);
    assert Core(s1) by { WokenIrrelevant(s, None); }
    if s.woken.Some? && s.tasks[s.woken.value].value.priority < Current(s, cpu).priority {
      PreemptCore(s1, cpu, s.woken.value);
    }
  }

  lemma WokenIrrelevant(s: Sys, w: Option<nat>)
    requires Core(s)
    ensures Core(s.(woken := w))
  {
    hide IdsOk, SendersOk, NoLost, Matches, InTransit, OneReason;
    var s1 := s.(woken := w);
    IdsKeep(s, s1);
    SendersKeep(s, s1);
    NoLostKeep(s, s1);
  }

  lemma PutCore(s: Sys, i: nat, t: Task)
    requires Placed(s) && Exclusive(s) && Has(s, i)
    requires |t.pending| == 2 && t.affinity == s.tasks[i].value.affinity
    requires (t.state == Running) == (s.tasks[i].value.state == Running)
    ensures Placed(Put(s, i, t)) && Exclusive(Put(s, i, t))
  {
  }

  /** History and wake-up record do not matter for placement. */
  lemma OnlyTasksPlaced(s: Sys, s': Sys)
    requires Placed(s) && Exclusive(s) && s'.tasks == s.tasks && s'.cur == s.cur
    ensures Placed(s') && Exclusive(s')
  {
  }

  // ── Each step ──────────────────────────────────────────────────────────────

  /** The caller of a syscall: a task other than the idle contexts. */
  ghost predicate Calls(s: Sys, cpu: nat) {
    cpu < MAX_CPUS && |s.cur| == MAX_CPUS && !IsIdle(s.cur[cpu])
  }

  /** The send fails, so its tail finds whatever record was there before. */
  predicate SendFails(s: Sys, cpu: nat, dst: u32)
    requires Typed(s) && cpu < MAX_CPUS
  {
    dst == Current(s, cpu).id || TaskIdx(s.tasks, dst).None?
  }

  lemma SendInv(s: Sys, cpu: nat, dst: u32, msg: Message)
    requires Inv(s) && Calls(s, cpu) && !(SendFails(s, cpu, dst) && BadRecord(s, cpu))
    ensures Inv(Send(s, cpu, dst, msg))
    ensures Send(s, cpu, dst, msg).woken in {None, s.woken}
  {
    hide WaitsOk, Conserved, ExclusiveBut, TaskIdx, Best;
    var m, me, d := s.cur[cpu], Current(s, cpu), TaskIdx(s.tasks, dst);
    RunningNow(s, cpu);
    if dst == me.id || d.None? {
      TailInv(s, cpu);
    } else {
      var t := s.tasks[d.value].value;
      var s1 := Accept(s, dst, me.id, msg);
      OnlyTasksPlaced(s, s1);
      FilterForms(t.recvFilter, me.id);
      if t.recvBlocked && Matches(t.recvFilter, me.id) {
        DirectKeeps(s, d.value, me.id, msg);
        WaitingIsBlocked(s, d.value);
        var s2 := Deliver(s1, d.value, me.id, msg);
        PutCore(s1, d.value, s2.tasks[d.value].value);
        OnlyTasksPlaced(Put(s1, d.value, s2.tasks[d.value].value), s2);
        WokenIrrelevant(s2, d);
        TailInv(s2.(woken := d), cpu);
      } else {
        SendBlocksInv(s, cpu, d.value, msg);
      }
    }
  }

  lemma FilterForms(filter: i32, id: u32)
    ensures (filter == M_ANY || filter == AsI32(id)) <==> Matches(filter, id)
  {
  }

  lemma WaitingIsBlocked(s: Sys, d: nat)
    requires WaitsOk(s) && Has(s, d) && s.tasks[d].value.recvBlocked
    ensures s.tasks[d].value.state == Blocked && !IsIdle(d)
  {
  }

  /** The receiver is not waiting for us: queue or stage, then block. */
  lemma SendBlocksInv(s: Sys, cpu: nat, d: nat, msg: Message)
    requires Inv(s) && Calls(s, cpu) && Has(s, d) && d != s.cur[cpu]
    requires s.tasks[d].value.id != Current(s, cpu).id
    requires s.tasks[d].value.recvBlocked ==> !Matches(s.tasks[d].value.recvFilter, Current(s, cpu).id)
    ensures var me, t := Current(s, cpu), s.tasks[d].value;
            var s1 := Accept(s, t.id, me.id, msg);
            var k := FreeSlot(t.pending);
            if k.Some? then
              var s2 := Put(s1, d, t.(pending := t.pending[k.value := Some(PendingSend(me.id, msg))]));
              Inv(SwitchAway(s2, cpu, Current(s2, cpu).(state := Blocked)))
            else Inv(SwitchAway(s1, cpu, me.(staged := Some(StagedSend(t.id, me.id, msg)), state := Blocked)))
    ensures var me, t := Current(s, cpu), s.tasks[d].value;
            var s1 := Accept(s, t.id, me.id, msg);
            var k := FreeSlot(t.pending);
            if k.Some? then
              var s2 := Put(s1, d, t.(pending := t.pending[k.value := Some(PendingSend(me.id, msg))]));
              SwitchAway(s2, cpu, Current(s2, cpu).(state := Blocked)).woken == s.woken
            else
              var me1 := me.(staged := Some(StagedSend(t.id, me.id, msg)), state := Blocked);
              SwitchAway(s1, cpu, me1).woken == s.woken
  {
    hide WaitsOk, Conserved, ExclusiveBut, Best, Matches;
    var m, me, t := s.cur[cpu], Current(s, cpu), s.tasks[d].value;
    RunningNow(s, cpu);
    var s1 := Accept(s, t.id, me.id, msg);
    OnlyTasksPlaced(s, s1);
    var k := FreeSlot(t.pending);
    if k.Some? {
      var t1 := t.(pending := t.pending[k.value := Some(PendingSend(me.id, msg))]);
      PutCore(s1, d, t1);
      EnqueueKeeps(s, d, m, k.value, msg);
      SwitchAwayCore(Put(s1, d, t1), cpu, me.(state := Blocked));
    } else {
      StageKeeps(s, d, m, msg);
      SwitchAwayCore(s1, cpu, me.(staged := Some(StagedSend(t.id, me.id, msg)), state := Blocked));
    }
  }

  lemma ReceiveInv(s: Sys, cpu: nat, filter: i32)
    requires Inv(s) && Calls(s, cpu)
    ensures Inv(Receive(s, cpu, filter)) && Receive(s, cpu, filter).woken in {None, s.woken}
  {
    hide WaitsOk, Conserved, ExclusiveBut, TaskIdx, FirstStaged, FirstPending, Best, Matches, Tail, TakeQueued,
        TakeStaged, Placed, Exclusive;
    PlacedTyped(s);
    var m, me := s.cur[cpu], Current(s, cpu);
    RunningNow(s, cpu);
    var k := FirstPending(me.pending, filter);
    if k.Some? {
      var i := TakeQueuedCore(s, cpu, k.value);
      var s1 := TakeQueued(s, cpu, k.value);
      WakeInv(Put(s1, i, s1.tasks[i].value.(state := Ready)), cpu, i);
    } else {
      var j := FirstStaged(s.tasks, me.id, filter, 1);
      if j.Some? {
        TakeStagedCore(s, cpu, j.value);
        StagedIsReady(s, cpu, j.value);
        WakeInv(TakeStaged(s, cpu, j.value), cpu, j.value);
      } else {
        BlockReceiveKeeps(s, m, filter);
        SwitchAwayCore(s, cpu, me.(recvBlocked := true, recvFilter := filter, state := Blocked));
      }
    }
  }

  lemma PlacedTyped(s: Sys)
    requires Placed(s)
    ensures Typed(s)
  {
  }

  lemma CoreTyped(s: Sys)
    requires Core(s)
    ensures Typed(s)
  {
  }

  /** A syscall that has just made task `i` Ready. */
  lemma WakeInv(s: Sys, cpu: nat, i: nat)
    requires Core(s) && Calls(s, cpu) && Has(s, i) && !IsIdle(i) && s.tasks[i].value.state == Ready
    ensures Inv(Tail(s.(woken := Some(i)), cpu)) && Tail(s.(woken := Some(i)), cpu).woken.None?
  {
    hide Placed, Exclusive, WaitsOk, Conserved, Tail;
    PlacedTyped(s);
    WokenIrrelevant(s, Some(i));
    TailInv(s.(woken := Some(i)), cpu);
  }

  /** The parked sender of a queued message, where the receiver's lookup finds it. */
  lemma SenderOf(s: Sys, s1: Sys, m: nat, k: nat) returns (i: nat)
    requires WaitsOk(s) && Has(s, m) && k < 2 && s.tasks[m].value.pending[k].Some? && |s1.tasks| == |s.tasks|
    requires forall j :: Has(s, j) <==> Has(s1, j)
    requires forall j :: Has(s, j) ==> Has(s1, j) && s1.tasks[j].value.id == s.tasks[j].value.id
    ensures Has(s, i) && s.tasks[i].value.id == s.tasks[m].value.pending[k].value.src
    ensures i != m && Parked(s.tasks[i].value) && !IsIdle(i)
    ensures TaskIdx(s1.tasks, s.tasks[m].value.pending[k].value.src) == Some(i)
  {
    hide TaskIdx;
    var src := s.tasks[m].value.pending[k].value.src;
    assert QueuedFrom(s, m, k, src);
    i :| Has(s, i) && s.tasks[i].value.id == src;
    var r := TaskIdx(s1.tasks, src);
    assert Has(s1, i);
    assert r.Some?;
    assert Has(s1, r.value);
    i := r.value;
  }

  lemma TakeQueuedCore(s: Sys, cpu: nat, k: nat) returns (i: nat)
    requires Inv(s) && Calls(s, cpu) && k < 2 && Current(s, cpu).pending[k].Some?
    ensures Has(s, i) && !IsIdle(i) && i != s.cur[cpu] && Parked(s.tasks[i].value)
    ensures var s1 := TakeQueued(s, cpu, k);
            && TaskIdx(s1.tasks, Current(s, cpu).pending[k].value.src) == Some(i) && s1.tasks[i] == s.tasks[i]
            && Core(Put(s1, i, s1.tasks[i].value.(state := Ready)))
  {
    hide WaitsOk, Conserved, ExclusiveBut, TaskIdx, Placed;
    PlacedTyped(s);
    var m := s.cur[cpu];
    RunningNow(s, cpu);
    var s1 := TakeQueued(s, cpu, k);
    i := SenderOf(s, s1, m, k);
    TakeQueuedKeeps(s, m, k, i);
    SameRunning(s, Put(s1, i, s1.tasks[i].value.(state := Ready)));
  }

  lemma TakeStagedCore(s: Sys, cpu: nat, j: nat)
    requires Inv(s) && Calls(s, cpu) && Has(s, j) && s.tasks[j].value.staged.Some?
    requires s.tasks[j].value.staged.value.dst == Current(s, cpu).id
    ensures j != s.cur[cpu] && !IsIdle(j) && Core(TakeStaged(s, cpu, j))
  {
    hide WaitsOk, Conserved, ExclusiveBut, Placed;
    PlacedTyped(s);
    var m := s.cur[cpu];
    RunningNow(s, cpu);
    TakeStagedKeeps(s, m, j);
    BlockedIsTask(s, j);
    SameRunning(s, TakeStaged(s, cpu, j));
  }

  lemma StagedIsReady(s: Sys, cpu: nat, j: nat)
    requires Typed(s) && cpu < MAX_CPUS && Has(s, j) && s.tasks[j].value.staged.Some? && j != s.cur[cpu]
    ensures Has(TakeStaged(s, cpu, j), j) && TakeStaged(s, cpu, j).tasks[j].value.state == Ready
  {
  }

  lemma BlockedIsTask(s: Sys, j: nat)
    requires WaitsOk(s) && Has(s, j) && s.tasks[j].value.state == Blocked
    ensures !IsIdle(j)
  {
  }

  lemma SleepInv(s: Sys, cpu: nat, ms: u32)
    requires Inv(s) && Calls(s, cpu)
    ensures Inv(Sleep(s, cpu, ms)) && Sleep(s, cpu, ms).woken == s.woken
  {
    hide WaitsOk, Conserved, ExclusiveBut, Best;
    RunningNow(s, cpu);
    SleepKeeps(s, s.cur[cpu], s.now + Clamp(ms));
    SwitchAwayCore(s, cpu, Current(s, cpu).(deadline := s.now + Clamp(ms), state := Blocked));
  }

  lemma ExitInv(s: Sys, cpu: nat)
    requires Inv(s) && Calls(s, cpu)
    ensures Inv(Exit(s, cpu)) && Exit(s, cpu).woken == s.woken
  {
    hide WaitsOk, Conserved, ExclusiveBut, Best;
    RunningNow(s, cpu);
    StateKeeps(s, s.cur[cpu], Zombie);
    SwitchAwayCore(s, cpu, Current(s, cpu).(state := Zombie));
  }

  lemma SwitchBestCore(s: Sys, cpu: nat, strict: bool)
    requires Inv(s) && Calls(s, cpu)
    ensures Inv(SwitchBest(s, cpu, strict)) && SwitchBest(s, cpu, strict).woken == s.woken
  {
    hide WaitsOk, Conserved, ExclusiveBut, Best, Nearest;
    RunningNow(s, cpu);
    var cur := s.cur[cpu];
    var next := if strict then PickNext(s, cpu) else PickNextRR(s, cpu, cur);
    if next != cur {
      PreemptCore(s, cpu, next);
    }
  }

  lemma {:induction false} OccupiedBound(tasks: seq<Option<Task>>)
    ensures Occupied(tasks) <= |tasks|
  {
    if tasks != [] {
      OccupiedBound(tasks[..|tasks| - 1]);
    }
  }

  /** Ids never run out: there are at most as many as slots. */
  lemma IdsAreSmall(s: Sys)
    requires WaitsOk(s)
    ensures 1 <= s.nextId <= 33
  {
    OccupiedBound(s.tasks);
  }

  /** A spawn, from a syscall or from the boot context. */
  lemma SpawnUserInv(s: Sys, priority: byte)
    requires Inv(s)
    ensures s.nextId < 0xFFFF_FFFF && Inv(SpawnUser(s, priority))
    ensures var i := FirstFree(s.tasks, 1); i.Some? ==> SpawnUser(s, priority).tasks[i.value].value.state == Ready
  {
    hide WaitsOk, Conserved, ExclusiveBut, FirstFree;
    IdsAreSmall(s);
    var i := FirstFree(s.tasks, 1);
    if i.Some? {
      SpawnKeeps(s, i.value, priority);
      var s1 := Put(s, i.value, NewTask(s.nextId, priority)).(nextId := s.nextId + 1);
      NewPlaced(s, s1, i.value);
      WokenIrrelevant(s1, i);
    }
  }

  lemma SpawnInv(s: Sys, cpu: nat, priority: byte)
    requires Inv(s) && Calls(s, cpu) && !(FirstFree(s.tasks, 1).None? && BadRecord(s, cpu))
    ensures s.nextId < 0xFFFF_FFFF && Inv(Spawn(s, cpu, priority)) && Spawn(s, cpu, priority).woken.None?
  {
    hide Core, FirstFree, Tail;
    CoreTyped(s);
    SpawnUserInv(s, priority);
    TailInv(SpawnUser(s, priority), cpu);
  }

  lemma NewPlaced(s: Sys, s1: Sys, i: nat)
    requires Placed(s) && Exclusive(s) && 1 <= i < MAX_TASKS && s.tasks[i].None? && s1.cur == s.cur
    requires |s1.tasks| == |s.tasks| && Has(s1, i) && s1.tasks == s.tasks[i := s1.tasks[i]]
    requires |s1.tasks[i].value.pending| == 2 && s1.tasks[i].value.affinity.None? && s1.tasks[i].value.state == Ready
    ensures Placed(s1) && Exclusive(s1)
  {
  }

  /** Waking sleepers turns Blocked tasks Ready and nothing else. */
  lemma WakeSleepersCore(s: Sys)
    requires Core(s)
    ensures Core(WakeSleepers(s))
  {
    hide IdsOk, SendersOk, NoLost, Conserved;
    WakeSleepersKeeps(s);
    var s1 := WakeSleepers(s);
    forall i | 0 <= i < MAX_TASKS && s.tasks[i].Some?
      ensures (s1.tasks[i].value.state == Running) == (s.tasks[i].value.state == Running)
    {
      assert Has(s, i) && OneReason(i, s.tasks[i].value);
    }
    SameRunning(s, s1);
  }

  lemma SameRunning(s: Sys, s1: Sys)
    requires Placed(s) && Exclusive(s) && Typed(s1) && s1.cur == s.cur
    requires forall i :: 0 <= i < MAX_TASKS ==> s1.tasks[i].Some? == s.tasks[i].Some?
    requires forall i :: 0 <= i < MAX_TASKS && s.tasks[i].Some? ==>
               && s1.tasks[i].value.affinity == s.tasks[i].value.affinity
               && (s1.tasks[i].value.state == Running) == (s.tasks[i].value.state == Running)
    ensures Placed(s1) && Exclusive(s1)
  {
  }

  lemma TimePasses(s: Sys, elapsed: nat)
    requires Inv(s)
    ensures Inv(s.(now := s.now + elapsed))
  {
    hide IdsOk, SendersOk, NoLost, Matches, InTransit, OneReason;
    var s1 := s.(now := s.now + elapsed);
    IdsKeep(s, s1);
    SendersKeep(s, s1);
    NoLostKeep(s, s1);
  }

  lemma TickInv(s: Sys, cpu: nat, fromEl0: bool)
    requires Inv(s) && cpu < MAX_CPUS && (fromEl0 ==> !IsIdle(s.cur[cpu]))
    ensures Inv(Tick(s, cpu, fromEl0)) && Tick(s, cpu, fromEl0).woken == s.woken
  {
    hide WaitsOk, Conserved, ExclusiveBut, Best, Nearest, SwitchBest;
    WakeSleepersCore(s);
    var s1 := WakeSleepers(s);
    var n := PickNext(s1, cpu);
    if !IsIdle(s.cur[cpu]) {
      RunningNow(s1, cpu);
      if fromEl0 {
        SwitchBestCore(s1, cpu, false);
      }
    } else if s.cur[cpu] == IdleSlot(cpu) || Current(s1, cpu).state == Zombie {
      IdleIsFree(s1, cpu);
      ResumeCore(s1, cpu, n);
    }
  }

  /** A CPU standing on an idle slot holds no task. */
  lemma IdleIsFree(s: Sys, cpu: nat)
    requires Exclusive(s) && cpu < MAX_CPUS && IsIdle(s.cur[cpu])
    ensures ExclusiveBut(s, cpu)
  {
  }

  lemma IdleRoundInv(s: Sys, cpu: nat)
    requires Inv(s) && 1 <= cpu < MAX_CPUS && IsIdle(s.cur[cpu])
    ensures Inv(IdleRound(s, cpu)) && IdleRound(s, cpu).woken == s.woken
  {
    hide WaitsOk, Conserved, ExclusiveBut, Best;
    var n, i := PickNext(s, cpu), IdleSlot(cpu);
    if n != i {
      var idle := s.tasks[i].value.(state := Ready);
      IdleIsFree(s, cpu);
      IdleStateFree(s, cpu, i, idle);
      PlacedPut(s, i, idle);
      IdleNotBlocked(s, i);
      StateKeeps(s, i, Ready);
      ResumeCore(Put(s, i, idle), cpu, n);
    }
  }

  lemma IdleNotBlocked(s: Sys, i: nat)
    requires WaitsOk(s) && Has(s, i) && IsIdle(i)
    ensures s.tasks[i].value.state != Blocked
  {
  }

  lemma IdleStateFree(s: Sys, cpu: nat, i: nat, t: Task)
    requires ExclusiveBut(s, cpu) && i < MAX_TASKS && IsIdle(i) && |t.pending| == 2
    ensures ExclusiveBut(Put(s, i, t), cpu)
  {
  }

  lemma EnterInv(s: Sys)
    requires Inv(s) && s.cur[0] == 0
    ensures Inv(Enter(s)) && Enter(s).woken == s.woken
  {
    hide WaitsOk, Conserved, ExclusiveBut, Best;
    IdleIsFree(s, 0);
    ResumeCore(s, 0, PickNext(s, 0));
  }

  // ── Runs ───────────────────────────────────────────────────────────────────

  datatype Event =
    | ESend(cpu: nat, dst: u32, msg: Message)
    | EReceive(cpu: nat, filter: i32)
    | ESleep(cpu: nat, ms: u32)
    | EPlain(cpu: nat) // a syscall that neither blocks nor wakes
    | ESpawn(cpu: nat, priority: byte)
    | EYield(cpu: nat)
    | EExit(cpu: nat)
    | ETick(cpu: nat, fromEl0: bool, elapsed: nat)
    | EIdle(cpu: nat)
    | EEnter
    | EBootSpawn(priority: byte) // a spawn by the boot context: no syscall, no tail

  /** Syscalls come from tasks, idle rounds from idle secondaries, `enter` and boot spawns from
      the boot context. */
  ghost predicate Enabled(s: Sys, e: Event)
    requires Typed(s)
  {
    match e
    case ETick(cpu, fromEl0, _) => cpu < MAX_CPUS && (fromEl0 ==> !IsIdle(s.cur[cpu]))
    case EIdle(cpu) => 1 <= cpu < MAX_CPUS && IsIdle(s.cur[cpu])
    case EEnter => s.cur[0] == 0
    case EBootSpawn(_) => s.cur[0] == 0
    case _ => Calls(s, e.cpu)
  }

  /** The event is a syscall that reaches its tail without recording a wake-up of its own. */
  ghost predicate BareTail(s: Sys, e: Event)
    requires Typed(s) && Enabled(s, e)
  {
    match e
    case EPlain(_) => true
    case ESend(cpu, dst, _) => SendFails(s, cpu, dst)
    case ESpawn(_, _) => FirstFree(s.tasks, 1).None?
    case _ => false
  }

  /** The event's tail acts on a record that a boot spawn left behind, to a task that is no
      longer Ready. */
  ghost predicate Bites(s: Sys, e: Event)
    requires Typed(s) && Recorded(s) && Enabled(s, e)
  {
    BareTail(s, e) && BadRecord(s, e.cpu)
  }

  ghost predicate Tame(s: Sys, e: Event)
    requires Typed(s) && Recorded(s)
  {
    Enabled(s, e) && !Bites(s, e)
  }

  ghost function Step(s: Sys, e: Event): Sys
    requires Inv(s) && Enabled(s, e)
  {
    match e
    case ESend(cpu, dst, msg) => Send(s, cpu, dst, msg)
    case EReceive(cpu, filter) => Receive(s, cpu, filter)
    case ESleep(cpu, ms) => Sleep(s, cpu, ms)
    case EPlain(cpu) => Tail(s, cpu)
    case ESpawn(cpu, priority) => IdsAreSmall(s); Spawn(s, cpu, priority)
    case EYield(cpu) => SwitchBest(s, cpu, true)
    case EExit(cpu) => Exit(s, cpu)
    case ETick(cpu, fromEl0, elapsed) => Tick(s.(now := s.now + elapsed), cpu, fromEl0)
    case EIdle(cpu) => IdleRound(s, cpu)
    case EEnter => Enter(s)
    case EBootSpawn(priority) => IdsAreSmall(s); SpawnUser(s, priority)
  }

  /** Every event that does not bite keeps the invariant; only boot spawns leave a record. */
  lemma StepInv(s: Sys, e: Event)
    requires Inv(s) && Tame(s, e)
    ensures Inv(Step(s, e))
    ensures !e.EBootSpawn? ==> Step(s, e).woken in {None, s.woken}
  {
    hide Core, Send, Receive, Sleep, Tail, Spawn, SwitchBest, Exit, Tick, IdleRound, Enter, SpawnUser;
    hide BadRecord, SendFails;
    match e
    case ESend(cpu, dst, msg) => SendInv(s, cpu, dst, msg);
    case EReceive(cpu, filter) => ReceiveInv(s, cpu, filter);
    case ESleep(cpu, ms) => SleepInv(s, cpu, ms);
    case EPlain(cpu) => TailInv(s, cpu);
    case ESpawn(cpu, priority) => SpawnInv(s, cpu, priority);
    case EYield(cpu) => SwitchBestCore(s, cpu, true);
    case EExit(cpu) => ExitInv(s, cpu);
    case ETick(cpu, fromEl0, elapsed) =>
      TimePasses(s, elapsed);
      TickInv(s.(now := s.now + elapsed), cpu, fromEl0);
    case EIdle(cpu) => IdleRoundInv(s, cpu);
    case EEnter => EnterInv(s);
    case EBootSpawn(priority) => SpawnUserInv(s, priority);
  }

  /** A run: every event is possible where it happens, and none bites. */
  ghost predicate Possible(s: Sys, es: seq<Event>)
    requires Inv(s)
    decreases |es|
  {
    es == [] || (Tame(s, es[0]) && (StepInv(s, es[0]); Possible(Step(s, es[0]), es[1..])))
  }

  ghost function After(s: Sys, es: seq<Event>): Sys
    requires Inv(s) && Possible(s, es)
    decreases |es|
  {
    if es == [] then s else (StepInv(s, es[0]); After(Step(s, es[0]), es[1..]))
  }

  /** After any run: one core per task, no lost rendezvous, no lost or doubled message. */
  lemma {:induction false} RunInv(s: Sys, es: seq<Event>)
    requires Inv(s) && Possible(s, es)
    ensures Inv(After(s, es))
    decreases |es|
  {
    hide Inv, Step, Bites;
    if es != [] {
      StepInv(s, es[0]);
      RunInv(Step(s, es[0]), es[1..]);
    }
  }

  /** Every event is possible where it happens, and none is a boot spawn. */
  ghost predicate NoBootSpawn(s: Sys, es: seq<Event>)
    requires Inv(s) && s.woken.None?
    decreases |es|
  {
    es == [] || (Enabled(s, es[0]) && !es[0].EBootSpawn? && (StepInv(s, es[0]); NoBootSpawn(Step(s, es[0]), es[1..])))
  }

  /** Once the record is clear, no run bites before the boot context spawns again. */
  lemma {:induction false} ClearRuns(s: Sys, es: seq<Event>)
    requires Inv(s) && s.woken.None? && NoBootSpawn(s, es)
    ensures Possible(s, es) && After(s, es).woken.None?
    decreases |es|
  {
    hide Inv, Step;
    if es != [] {
      StepInv(s, es[0]);
      ClearRuns(Step(s, es[0]), es[1..]);
    }
  }

  // ── The start ──────────────────────────────────────────────────────────────

  function IdleTask(i: nat): Task
    requires IsIdle(i)
  {
    Task(IdleId(i), Running, PRIO_IDLE, Some(if i == 0 then 0 else i + 1 - IDLE_SLOT_BASE), false, M_ANY, None,
        [None, None], None, 0)
  }

  /** Only the idle contexts, no CPU but 0 started. */
  ghost predicate Booted(s: Sys) {
    && |s.tasks| == MAX_TASKS
       && (forall i :: 0 <= i < MAX_TASKS ==> s.tasks[i] == if IsIdle(i) then Some(IdleTask(i)) else None)
    && s.cur == [0, 0, 0, 0] && s.woken.None? && s.nextId == 1 && s.accepted == multiset{} && s.delivered == multiset{}
  }

  lemma BootInv(s: Sys)
    requires Booted(s)
    ensures Inv(s)
  {
    BootPlaced(s);
    BootWaits(s);
    NothingHeld(s.tasks);
    hide Placed, Exclusive, WaitsOk;
  }

  lemma BootPlaced(s: Sys)
    requires Booted(s)
    ensures Placed(s) && Exclusive(s)
  {
  }

  lemma BootWaits(s: Sys)
    requires Booted(s)
    ensures WaitsOk(s)
  {
    assert Typed(s) && IdsOk(s) by {
      assert forall c :: 0 <= c < MAX_CPUS ==> s.cur[c] == 0;
    }
    assert forall j, k, src :: !QueuedFrom(s, j, k, src);
    hide IdsOk;
  }

  lemma {:induction false} NothingHeld(tasks: seq<Option<Task>>)
    requires forall i :: 0 <= i < |tasks| && tasks[i].Some? ==>
               tasks[i].value.pending == [None, None] && tasks[i].value.staged.None?
    ensures InTransit(tasks) == multiset{}
  {
    if tasks != [] {
      NothingHeld(tasks[..|tasks| - 1]);
    }
  }
}
