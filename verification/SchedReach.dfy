/** Runs from the boot state: when they stay sound, and what they say of messages. */
module SchedReach {
  import opened Bytes
  import opened SchedSpec
  import opened SchedInv
  import opened SchedRuns
  import opened SchedFacts

  // ── Exited tasks ───────────────────────────────────────────────────────────

  /** No task that has exited runs again. */
  ghost predicate GoneStay(s: Sys, r: Sys) {
    |r.tasks| == |s.tasks|
    && forall i :: Has(s, i) && !IsIdle(i) && s.tasks[i].value.state == Zombie ==>
         Has(r, i) && r.tasks[i].value.state == Zombie
  }

  lemma TailGone(s: Sys, cpu: nat)
    requires Typed(s) && Recorded(s) && cpu < MAX_CPUS && !BadRecord(s, cpu)
    requires !IsIdle(s.cur[cpu]) ==> Current(s, cpu).state == Running
    ensures GoneStay(s, Tail(s, cpu))
  {
  }

  lemma SwitchAwayGone(s: Sys, cpu: nat, t: Task)
    requires Typed(s) && cpu < MAX_CPUS && |t.pending| == 2 && Current(s, cpu).state == Running
    ensures GoneStay(s, SwitchAway(s, cpu, t))
  {
    hide Best;
  }

  lemma SwitchBestGone(s: Sys, cpu: nat, strict: bool)
    requires Typed(s) && cpu < MAX_CPUS
    ensures GoneStay(s, SwitchBest(s, cpu, strict))
  {
    hide Best, Nearest;
  }

  lemma TickGone(s: Sys, cpu: nat, fromEl0: bool)
    requires WaitsOk(s) && cpu < MAX_CPUS
    ensures GoneStay(s, Tick(s, cpu, fromEl0))
  {
    hide Best, SwitchBest, IdsOk, SendersOk, NoLost;
    var s1 := WakeSleepers(s);
    assert GoneStay(s, s1) by {
      forall i | Has(s, i) && s.tasks[i].value.state == Zombie ensures s1.tasks[i] == s.tasks[i] {
        assert OneReason(i, s.tasks[i].value);
      }
    }
    SwitchBestGone(s1, cpu, false);
  }

  lemma IdleGone(s: Sys, cpu: nat)
    requires Typed(s) && cpu < MAX_CPUS
    ensures GoneStay(s, IdleRound(s, cpu)) && GoneStay(s, Enter(s))
  {
    hide Best;
  }

  lemma SpawnGone(s: Sys, priority: byte)
    requires Typed(s) && s.nextId < 0xFFFF_FFFF
    ensures GoneStay(s, SpawnUser(s, priority))
  {
    hide FirstFree;
  }

  lemma SendGone(s: Sys, cpu: nat, dst: u32, msg: Message)
    requires Inv(s) && Tame(s, ESend(cpu, dst, msg))
    ensures GoneStay(s, Send(s, cpu, dst, msg))
  {
    hide WaitsOk, Conserved, ExclusiveBut, TaskIdx, Tail, SwitchAway, Matches;
    RunningNow(s, cpu);
    var me, d := Current(s, cpu), TaskIdx(s.tasks, dst);
    if SendFails(s, cpu, dst) {
      TailGone(s, cpu);
    } else {
      var t := s.tasks[d.value].value;
      var s1 := Accept(s, dst, me.id, msg);
      if t.recvBlocked && (t.recvFilter == M_ANY || t.recvFilter == AsI32(me.id)) {
        WaitingIsBlocked(s, d.value);
        TailGone(Deliver(s1, d.value, me.id, msg).(woken := d), cpu);
      } else {
        var k := FreeSlot(t.pending);
        if k.Some? {
          var s2 := Put(s1, d.value, t.(pending := t.pending[k.value := Some(PendingSend(me.id, msg))]));
          SwitchAwayGone(s2, cpu, Current(s2, cpu).(state := Blocked));
        } else {
          SwitchAwayGone(s1, cpu, me.(staged := Some(StagedSend(dst, me.id, msg)), state := Blocked));
        }
      }
    }
  }

  lemma ReceiveGone(s: Sys, cpu: nat, filter: i32)
    requires Inv(s) && Calls(s, cpu)
    ensures GoneStay(s, Receive(s, cpu, filter))
  {
    hide WaitsOk, Conserved, ExclusiveBut, TaskIdx, FirstStaged, FirstPending, Matches, Tail, SwitchAway;
    RunningNow(s, cpu);
    var me := Current(s, cpu);
    var k := FirstPending(me.pending, filter);
    if k.Some? {
      var i := TakeQueuedCore(s, cpu, k.value);
      var s1 := TakeQueued(s, cpu, k.value);
      TailGone(Put(s1, i, s1.tasks[i].value.(state := Ready)).(woken := Some(i)), cpu);
    } else {
      var j := FirstStaged(s.tasks, me.id, filter, 1);
      if j.Some? {
        WaitReasons(s, j.value);
        TakeStagedCore(s, cpu, j.value);
        TailGone(TakeStaged(s, cpu, j.value).(woken := j), cpu);
      } else {
        SwitchAwayGone(s, cpu, me.(recvBlocked := true, recvFilter := filter, state := Blocked));
      }
    }
  }

  lemma StepGone(s: Sys, e: Event)
    requires Inv(s) && Tame(s, e)
    ensures GoneStay(s, Step(s, e))
  {
    hide WaitsOk, Conserved, ExclusiveBut, Tail, SwitchAway, SwitchBest, Tick, IdleRound, Enter, Send, Receive,
        SpawnUser, FirstFree;
    match e
    case ESend(cpu, dst, msg) => SendGone(s, cpu, dst, msg);
    case EReceive(cpu, filter) => ReceiveGone(s, cpu, filter);
    case ESleep(cpu, ms) =>
      RunningNow(s, cpu);
      SwitchAwayGone(s, cpu, Current(s, cpu).(deadline := s.now + Clamp(ms), state := Blocked));
    case EPlain(cpu) =>
      RunningNow(s, cpu);
      TailGone(s, cpu);
    case ESpawn(cpu, priority) =>
      RunningNow(s, cpu);
      SpawnUserInv(s, priority);
      SpawnGone(s, priority);
      SpawnTail(s, cpu, priority);
    case EYield(cpu) => SwitchBestGone(s, cpu, true);
    case EExit(cpu) =>
      RunningNow(s, cpu);
      SwitchAwayGone(s, cpu, Current(s, cpu).(state := Zombie));
    case ETick(cpu, fromEl0, elapsed) =>
      TimePasses(s, elapsed);
      TickGone(s.(now := s.now + elapsed), cpu, fromEl0);
    case EIdle(cpu) => IdleGone(s, cpu);
    case EEnter => IdleGone(s, 0);
    case EBootSpawn(priority) =>
      SpawnUserInv(s, priority);
      SpawnGone(s, priority);
  }

  lemma SpawnTail(s: Sys, cpu: nat, priority: byte)
    requires Inv(s) && Tame(s, ESpawn(cpu, priority))
    ensures s.nextId < 0xFFFF_FFFF && GoneStay(SpawnUser(s, priority), Spawn(s, cpu, priority))
  {
    hide Core, FirstFree, Tail;
    CoreTyped(s);
    SpawnUserInv(s, priority);
    var s1 := SpawnUser(s, priority);
    InvRunning(s1, cpu);
    TailGone(s1, cpu);
  }

  lemma InvRunning(s: Sys, cpu: nat)
    requires Inv(s) && Calls(s, cpu)
    ensures Typed(s) && Current(s, cpu).state == Running
  {
    RunningNow(s, cpu);
  }

  // ── A stale wake-up record ─────────────────────────────────────────────────

  /** The recorded task already runs: two CPUs execute it. */
  lemma TwoCpus(s: Sys, cpu: nat)
    requires Inv(s) && Calls(s, cpu) && BadRecord(s, cpu) && s.tasks[s.woken.value].value.state == Running
    ensures !Exclusive(Tail(s, cpu))
  {
    hide WaitsOk, Conserved;
    var w, r := s.woken.value, Tail(s, cpu);
    var c :| 0 <= c < MAX_CPUS && s.cur[c] == w;
    assert r.cur[c] == w && r.cur[cpu] == w && c != cpu;
    assert r.cur[if c < cpu then c else cpu] == r.cur[if c < cpu then cpu else c];
  }

  /** The recorded task waits: it continues while it still waits. */
  lemma WaitingRuns(s: Sys, cpu: nat)
    requires Inv(s) && Calls(s, cpu) && BadRecord(s, cpu) && s.tasks[s.woken.value].value.state == Blocked
    ensures !WaitsOk(Tail(s, cpu))
  {
    hide IdsOk, NoLost, Conserved, Exclusive;
    var w, r := s.woken.value, Tail(s, cpu);
    var t, t' := s.tasks[w].value, r.tasks[w].value;
    assert t' == t.(state := Running);
    if Parked(t) {
      var j, k :| QueuedFrom(s, j, k, t.id);
      TailKeepsBuffers(s, cpu);
      assert QueuedFrom(r, j, k, r.tasks[w].value.id);
    } else {
      assert Has(r, w) && !OneReason(w, t');
    }
  }

  /** The recorded task has exited: it runs again. */
  lemma ExitedRuns(s: Sys, cpu: nat)
    requires Inv(s) && Calls(s, cpu) && BadRecord(s, cpu) && s.tasks[s.woken.value].value.state == Zombie
    ensures !GoneStay(s, Tail(s, cpu))
  {
    hide WaitsOk, Conserved;
    var w, r := s.woken.value, Tail(s, cpu);
    assert Has(s, w) && r.tasks[w].value.state == Running;
  }

  lemma BiteIsTail(s: Sys, e: Event)
    requires Inv(s) && Enabled(s, e) && Bites(s, e)
    ensures Calls(s, e.cpu) && Step(s, e) == Tail(s, e.cpu)
  {
    hide Core, Tail, TaskIdx, FirstFree;
    CoreTyped(s);
  }

  /**
   * A spawn by the boot context records a wake-up that no syscall tail
   * consumes. A later event keeps the system sound exactly when it does not
   * act on that record to run a task that is not Ready.
   */
  lemma StepExact(s: Sys, e: Event)
    requires Inv(s) && Enabled(s, e)
    ensures Inv(Step(s, e)) && GoneStay(s, Step(s, e)) <==> !Bites(s, e)
  {
    hide Core, Step, GoneStay, Tail, SendFails, FirstFree, BadRecord;
    CoreTyped(s);
    if Bites(s, e) {
      BiteIsTail(s, e);
      BiteBreaks(s, e.cpu);
    } else {
      StepInv(s, e);
      StepGone(s, e);
    }
  }

  lemma BiteBreaks(s: Sys, cpu: nat)
    requires Inv(s) && Calls(s, cpu) && BadRecord(s, cpu)
    ensures !(Inv(Tail(s, cpu)) && GoneStay(s, Tail(s, cpu)))
  {
    hide Placed, Exclusive, WaitsOk, Conserved, GoneStay, Tail;
    PlacedTyped(s);
    match s.tasks[s.woken.value].value.state
    case Running => TwoCpus(s, cpu);
    case Blocked => WaitingRuns(s, cpu);
    case Zombie => ExitedRuns(s, cpu);
  }

  // ── Runs from boot ─────────────────────────────────────────────────────────

  /** Every state a run from boot reaches is sound, and the next event keeps it so if and only if
      it does not bite. */
  lemma Reachable(s: Sys, es: seq<Event>, e: Event)
    requires Booted(s)
    ensures Inv(s)
    ensures Possible(s, es) ==> Inv(After(s, es))
    ensures Possible(s, es) && Enabled(After(s, es), e) ==>
              var r := After(s, es);
              (Inv(Step(r, e)) && GoneStay(r, Step(r, e)) <==> !Bites(r, e))
  {
    BootInv(s);
    hide Core, Booted, Step, GoneStay, BareTail, BadRecord;
    if Possible(s, es) {
      RunInv(s, es);
      CoreTyped(After(s, es));
      if Enabled(After(s, es), e) {
        StepExact(After(s, es), e);
      }
    }
  }

  lemma PickIs(s: Sys, cpu: nat, r: nat)
    requires Typed(s) && cpu < MAX_CPUS && 1 <= r < MAX_TASKS && Candidate(s, cpu, r)
    requires forall i :: 1 <= i < MAX_TASKS && Candidate(s, cpu, i) && i != r ==> !Beats(s, cpu, i, r)
    ensures PickNext(s, cpu) == r
  {
    hide Beats, PickNext;
    PickNextIsBest(s, cpu);
  }

  /** Slots 1 and 2 hold the two tasks, the rest is as at boot, and the second is recorded. */
  ghost predicate TwoTasks(s: Sys, t1: Task, t2: Task) {
    && |s.tasks| == MAX_TASKS && s.woken == Some(2) && s.tasks[1] == Some(t1) && s.tasks[2] == Some(t2)
    && forall i :: 0 <= i < MAX_TASKS && i != 1 && i != 2 ==>
         if IsIdle(i) then s.tasks[i].Some? && s.tasks[i].value.state != Ready else s.tasks[i].None?
  }

  lemma BootSpawns(s: Sys, p: byte, q: byte)
    requires Booted(s)
    ensures var r := SpawnUser(SpawnUser(s, p), q);
            TwoTasks(r, NewTask(1, p), NewTask(2, q)) && r.cur == s.cur
  {
    var s1 := SpawnUser(s, p);
    assert FirstFree(s.tasks, 1) == Some(1);
    assert FirstFree(s1.tasks, 1) == FirstFree(s1.tasks, 2) == Some(2);
  }

  /** CPU 0 enters and takes the better task, CPU 1 the other. */
  lemma BothRun(s: Sys, t1: Task, t2: Task)
    requires Typed(s) && TwoTasks(s, t1, t2) && s.cur == [0, 0, 0, 0]
    requires t1.state == t2.state == Ready && t1.affinity.None? && t2.affinity.None? && t2.priority < t1.priority
    ensures var r := IdleRound(Enter(s), 1);
            && r.cur == [2, 1, 0, 0] && r.woken == Some(2) && Has(r, 1) && Has(r, 2)
            && r.tasks[1] == Some(t1.(state := Running)) && r.tasks[2] == Some(t2.(state := Running))
  {
    hide Best;
    PickIs(s, 0, 2);
    var s1 := Enter(s);
    PickIs(s1, 1, 1);
  }

  /** The run is possible, and event `e` after it bites and leaves two CPUs executing one task. */
  ghost predicate EndsDouble(s: Sys, es: seq<Event>, e: Event) {
    && Inv(s) && Possible(s, es)
    && var r := After(s, es);
       && Inv(r) && Enabled(r, e) && Bites(r, e)
       && Step(r, e).cur[0] == Step(r, e).cur[1] && !IsIdle(Step(r, e).cur[0])
  }

  lemma OneEarlier(s: Sys, d: Event, es: seq<Event>, e: Event)
    requires Inv(s) && Tame(s, d) && EndsDouble(Step(s, d), es, e)
    ensures EndsDouble(s, [d] + es, e)
  {
    hide Inv, Step, BareTail, BadRecord, Enabled;
    assert ([d] + es)[1..] == es;
  }

  lemma LastStep(s: Sys)
    requires Inv(s) && s.cur == [2, 1, 0, 0] && s.woken == Some(2) && Has(s, 1) && Has(s, 2)
    requires s.tasks[2].value.priority < s.tasks[1].value.priority && s.tasks[2].value.state == Running
    ensures EndsDouble(s, [], EPlain(1))
  {
    hide Core;
    CoreTyped(s);
  }

  lemma FromEnter(s: Sys)
    requires Inv(s) && TwoTasks(s, NewTask(1, 192), NewTask(2, 96)) && s.cur == [0, 0, 0, 0]
    ensures EndsDouble(s, [EEnter, EIdle(1)], EPlain(1))
  {
    hide Core, TwoTasks, IdleRound, EndsDouble, Enter, Step;
    CoreTyped(s);
    BothRun(s, NewTask(1, 192), NewTask(2, 96));
    StepInv(s, EEnter);
    EnterStep(s);
    FromIdle(Enter(s));
    OneEarlier(s, EEnter, [EIdle(1)], EPlain(1));
    assert [EEnter] + [EIdle(1)] == [EEnter, EIdle(1)];
  }

  lemma FromIdle(s: Sys)
    requires Inv(s) && Typed(s) && IsIdle(s.cur[1])
    requires var r := IdleRound(s, 1);
             && r.cur == [2, 1, 0, 0] && r.woken == Some(2) && Has(r, 1) && Has(r, 2)
             && r.tasks[2].value.priority < r.tasks[1].value.priority && r.tasks[2].value.state == Running
    ensures EndsDouble(s, [EIdle(1)], EPlain(1))
  {
    hide Core, IdleRound, EndsDouble;
    StepInv(s, EIdle(1));
    LastStep(IdleRound(s, 1));
    OneEarlier(s, EIdle(1), [], EPlain(1));
    assert [EIdle(1)] + [] == [EIdle(1)];
  }

  /** The failing run: a background task and a server are spawned at boot, CPU 0 takes the
      server, CPU 1 the background task, whose first plain syscall then puts the server on both. */
  lemma ServerOnTwoCpus(s: Sys)
    requires Booted(s)
    ensures EndsDouble(s, [EBootSpawn(192), EBootSpawn(96), EEnter, EIdle(1)], EPlain(1))
  {
    hide Core, Booted, SpawnUser, TwoTasks, EndsDouble, Step;
    BootInv(s);
    BootCur(s);
    BootSpawns(s, 192, 96);
    CoreTyped(s);
    BootSpawnStep(s, 192);
    var s1 := SpawnUser(s, 192);
    CoreTyped(s1);
    BootSpawnStep(s1, 96);
    FromEnter(SpawnUser(s1, 96));
    OneEarlier(s1, EBootSpawn(96), [EEnter, EIdle(1)], EPlain(1));
    assert [EBootSpawn(96)] + [EEnter, EIdle(1)] == [EBootSpawn(96), EEnter, EIdle(1)];
    OneEarlier(s, EBootSpawn(192), [EBootSpawn(96), EEnter, EIdle(1)], EPlain(1));
    assert [EBootSpawn(192)] + [EBootSpawn(96), EEnter, EIdle(1)]
        == [EBootSpawn(192), EBootSpawn(96), EEnter, EIdle(1)];
  }

  lemma BootCur(s: Sys)
    requires Booted(s)
    ensures s.cur == [0, 0, 0, 0]
  {
  }

  lemma EnterStep(s: Sys)
    requires Inv(s) && s.cur[0] == 0
    ensures Step(s, EEnter) == Enter(s)
    ensures Typed(Enter(s)) && Enter(s).cur[1] == s.cur[1]
  {
    hide PickNext, Core, Recorded;
    CoreTyped(s);
    EnterInv(s);
    CoreTyped(Enter(s));
  }

  lemma BootSpawnStep(s: Sys, p: byte)
    requires Inv(s) && s.cur[0] == 0
    ensures s.nextId < 0xFFFF_FFFF && Step(s, EBootSpawn(p)) == SpawnUser(s, p) && Inv(SpawnUser(s, p))
  {
    hide SpawnUser, Core;
    CoreTyped(s);
    SpawnUserInv(s, p);
  }

  // ── Messages ───────────────────────────────────────────────────────────────

  /** What a buffer holds was delivered to its task. */
  ghost predicate BuffersOk(s: Sys) {
    forall i :: Has(s, i) && s.tasks[i].value.buf.Some? ==>
      Delivery(s.tasks[i].value.id, s.tasks[i].value.buf.value) in s.delivered
  }

  /** The buffers of `r` are empty or those of `s`; nothing was sent or delivered. */
  ghost predicate Silent(s: Sys, r: Sys) {
    && r.accepted == s.accepted && r.delivered == s.delivered
    && forall i :: Has(r, i) && r.tasks[i].value.buf.Some? ==>
         && Has(s, i) && r.tasks[i].value.id == s.tasks[i].value.id && r.tasks[i].value.buf == s.tasks[i].value.buf
  }

  lemma TailSilent(s: Sys, cpu: nat)
    requires Typed(s) && Recorded(s) && cpu < MAX_CPUS
    ensures Silent(s, Tail(s, cpu))
  {
  }

  lemma SwitchAwaySilent(s: Sys, cpu: nat, t: Task)
    requires Typed(s) && cpu < MAX_CPUS && |t.pending| == 2
    requires t.id == Current(s, cpu).id && t.buf == Current(s, cpu).buf
    ensures Silent(s, SwitchAway(s, cpu, t))
  {
    hide Best;
  }

  lemma SwitchBestSilent(s: Sys, cpu: nat, strict: bool)
    requires Typed(s) && cpu < MAX_CPUS
    ensures Silent(s, SwitchBest(s, cpu, strict))
  {
    hide Best, Nearest;
  }

  lemma TickSilent(s: Sys, cpu: nat, fromEl0: bool)
    requires Typed(s) && cpu < MAX_CPUS
    ensures Silent(s, Tick(s, cpu, fromEl0))
  {
    hide Best, SwitchBest;
    var s1 := WakeSleepers(s);
    assert Silent(s, s1) && Typed(s1) && s1.cur == s.cur;
    hide WakeSleepers;
    SwitchBestSilent(s1, cpu, false);
  }

  lemma IdleSilent(s: Sys, cpu: nat)
    requires Typed(s) && cpu < MAX_CPUS
    ensures Silent(s, IdleRound(s, cpu)) && Silent(s, Enter(s))
  {
    hide PickNext, Best;
  }

  lemma SpawnSilent(s: Sys, cpu: nat, priority: byte)
    requires Typed(s) && Recorded(s) && cpu < MAX_CPUS && s.nextId < 0xFFFF_FFFF
    ensures Silent(s, SpawnUser(s, priority)) && Silent(s, Spawn(s, cpu, priority))
  {
    hide Tail, FirstFree;
    TailSilent(SpawnUser(s, priority), cpu);
  }

  /** The message an event hands to the kernel. */
  ghost function Sent(s: Sys, e: Event): multiset<Delivery>
    requires Typed(s) && Enabled(s, e)
  {
    if e.ESend? && !SendFails(s, e.cpu, e.dst) then multiset{Delivery(e.dst, Stamp(e.msg, Current(s, e.cpu).id))}
    else multiset{}
  }

  /** The event adds what it sends to the accepted messages and takes no delivery back. */
  ghost predicate Grows(s: Sys, e: Event, r: Sys)
    requires Typed(s) && Enabled(s, e)
  {
    r.accepted == s.accepted + Sent(s, e) && s.delivered <= r.delivered && BuffersOk(r)
  }

  lemma DeliverOk(s: Sys, d: nat, src: u32, msg: Message)
    requires BuffersOk(s) && Has(s, d)
    ensures BuffersOk(Deliver(s, d, src, msg))
  {
  }

  lemma SendGrows(s: Sys, cpu: nat, dst: u32, msg: Message)
    requires Typed(s) && Recorded(s) && BuffersOk(s) && Calls(s, cpu)
    ensures Grows(s, ESend(cpu, dst, msg), Send(s, cpu, dst, msg))
  {
    hide TaskIdx, Tail, SwitchAway;
    var me, d := Current(s, cpu), TaskIdx(s.tasks, dst);
    if SendFails(s, cpu, dst) {
      TailSilent(s, cpu);
    } else {
      var t := s.tasks[d.value].value;
      var s1 := Accept(s, dst, me.id, msg);
      if t.recvBlocked && (t.recvFilter == M_ANY || t.recvFilter == AsI32(me.id)) {
        DeliverOk(s1, d.value, me.id, msg);
        TailSilent(Deliver(s1, d.value, me.id, msg).(woken := d), cpu);
      } else {
        var k := FreeSlot(t.pending);
        if k.Some? {
          var s2 := Put(s1, d.value, t.(pending := t.pending[k.value := Some(PendingSend(me.id, msg))]));
          SwitchAwaySilent(s2, cpu, Current(s2, cpu).(state := Blocked));
        } else {
          SwitchAwaySilent(s1, cpu, me.(staged := Some(StagedSend(dst, me.id, msg)), state := Blocked));
        }
      }
    }
  }

  /** Taking a message is one delivery, and the buffer shows it. */
  lemma TakeGrows(s: Sys, cpu: nat, t: Task, src: u32, msg: Message)
    requires BuffersOk(s) && Typed(s) && Recorded(s) && cpu < MAX_CPUS
    ensures var r := Take(s, cpu, t, src, msg);
            && BuffersOk(r) && Recorded(r) && r.accepted == s.accepted && s.delivered <= r.delivered
  {
  }

  lemma ReceiveGrows(s: Sys, cpu: nat, filter: i32)
    requires Typed(s) && Recorded(s) && BuffersOk(s) && Calls(s, cpu)
    ensures Grows(s, EReceive(cpu, filter), Receive(s, cpu, filter))
  {
    hide TaskIdx, FirstStaged, FirstPending, Matches, Tail, SwitchAway, Take;
    var me := Current(s, cpu);
    var k := FirstPending(me.pending, filter);
    if k.Some? {
      QueuedGrows(s, cpu, k.value);
    } else {
      var j := FirstStaged(s.tasks, me.id, filter, 1);
      if j.Some? {
        StagedGrows(s, cpu, j.value);
      } else {
        SwitchAwaySilent(s, cpu, me.(recvBlocked := true, recvFilter := filter, state := Blocked));
      }
    }
  }

  lemma QueuedGrows(s: Sys, cpu: nat, k: nat)
    requires Typed(s) && Recorded(s) && BuffersOk(s) && Calls(s, cpu) && k < 2 && Current(s, cpu).pending[k].Some?
    ensures var s1 := TakeQueued(s, cpu, k);
            var i := TaskIdx(s1.tasks, Current(s, cpu).pending[k].value.src);
            var r := if i.Some? && s1.tasks[i.value].value.state != Zombie
                     then Tail(Put(s1, i.value, s1.tasks[i.value].value.(state := Ready)).(woken := i), cpu)
                     else Tail(s1, cpu);
            r.accepted == s.accepted && s.delivered <= r.delivered && BuffersOk(r)
  {
    hide TaskIdx, Tail;
    var me, s1 := Current(s, cpu), TakeQueued(s, cpu, k);
    TakeGrows(s, cpu, me.(pending := me.pending[k := None]), me.pending[k].value.src, me.pending[k].value.msg);
    hide TakeQueued;
    var i := TaskIdx(s1.tasks, me.pending[k].value.src);
    if i.Some? && s1.tasks[i.value].value.state != Zombie {
      TailSilent(Put(s1, i.value, s1.tasks[i.value].value.(state := Ready)).(woken := i), cpu);
    } else {
      TailSilent(s1, cpu);
    }
  }

  lemma StagedGrows(s: Sys, cpu: nat, j: nat)
    requires Typed(s) && Recorded(s) && BuffersOk(s) && Calls(s, cpu) && Has(s, j) && s.tasks[j].value.staged.Some?
    ensures var r := Tail(TakeStaged(s, cpu, j).(woken := Some(j)), cpu);
            r.accepted == s.accepted && s.delivered <= r.delivered && BuffersOk(r)
  {
    hide Tail;
    var t := s.tasks[j].value;
    var s0 := Put(s, j, t.(staged := None, state := Ready));
    TakeGrows(s0, cpu, Current(s0, cpu), t.staged.value.src, t.staged.value.msg);
    TailSilent(TakeStaged(s, cpu, j).(woken := Some(j)), cpu);
  }

  lemma StepGrows(s: Sys, e: Event)
    requires Inv(s) && Enabled(s, e) && BuffersOk(s)
    ensures Grows(s, e, Step(s, e))
  {
    hide Core, Tail, SwitchAway, SwitchBest, Tick, IdleRound, Enter, Send, Receive, Spawn, SpawnUser;
    CoreTyped(s);
    match e
    case ESend(cpu, dst, msg) => SendGrows(s, cpu, dst, msg);
    case EReceive(cpu, filter) => ReceiveGrows(s, cpu, filter);
    case ESleep(cpu, ms) => SwitchAwaySilent(s, cpu, Current(s, cpu).(deadline := s.now + Clamp(ms), state := Blocked));
    case EPlain(cpu) => TailSilent(s, cpu);
    case ESpawn(cpu, priority) => SpawnUserInv(s, priority); SpawnSilent(s, cpu, priority);
    case EYield(cpu) => SwitchBestSilent(s, cpu, true);
    case EExit(cpu) => SwitchAwaySilent(s, cpu, Current(s, cpu).(state := Zombie));
    case ETick(cpu, fromEl0, elapsed) => TickSilent(s.(now := s.now + elapsed), cpu, fromEl0);
    case EIdle(cpu) => IdleSilent(s, cpu);
    case EEnter => IdleSilent(s, 0);
    case EBootSpawn(priority) => SpawnUserInv(s, priority); SpawnSilent(s, 0, priority);
  }

  /** The messages the sends of a run handed to the kernel. */
  ghost function SentIn(s: Sys, es: seq<Event>): multiset<Delivery>
    requires Inv(s) && Possible(s, es)
    decreases |es|
  {
    if es == [] then multiset{}
    else StepInv(s, es[0]); Sent(s, es[0]) + SentIn(Step(s, es[0]), es[1..])
  }

  lemma {:induction false} RunGrows(s: Sys, es: seq<Event>)
    requires Inv(s) && Possible(s, es) && BuffersOk(s)
    ensures After(s, es).accepted == s.accepted + SentIn(s, es) && BuffersOk(After(s, es))
    decreases |es|
  {
    hide Inv, Step, Bites, Sent, BuffersOk;
    if es != [] {
      StepInv(s, es[0]);
      StepGrows(s, es[0]);
      RunGrows(Step(s, es[0]), es[1..]);
    }
  }

  /** After any run from boot the messages sent are those delivered and those still queued or
      staged, and whatever a buffer holds was sent in the run, to that task. */
  lemma RunDelivers(s: Sys, es: seq<Event>)
    requires Booted(s)
    ensures Inv(s)
    ensures Possible(s, es) ==>
              var r := After(s, es);
              && SentIn(s, es) == r.delivered + InTransit(r.tasks)
              && forall i :: Has(r, i) && r.tasks[i].value.buf.Some? ==>
                   Delivery(r.tasks[i].value.id, r.tasks[i].value.buf.value) in SentIn(s, es)
  {
    BootInv(s);
    if Possible(s, es) {
      BootQuiet(s);
      hide Core, Booted, SentIn, InTransit;
      RunGrows(s, es);
      RunInv(s, es);
      AllAccounted(After(s, es));
    }
  }

  lemma BootQuiet(s: Sys)
    requires Booted(s)
    ensures BuffersOk(s) && s.accepted == multiset{}
  {
  }

  lemma AllAccounted(s: Sys)
    requires Inv(s)
    ensures s.accepted == s.delivered + InTransit(s.tasks)
  {
  }
}
