/** Step-by-step guarantees of the scheduler: who is picked, who is woken and why. */
module SchedFacts {
  import opened Bytes
  import opened SchedSpec
  import opened SchedInv
  import opened SchedRuns

  // ── Picking ────────────────────────────────────────────────────────────────

  lemma ForwardDistinct(cur: nat, a: nat, b: nat)
    requires cur < MAX_TASKS && a < MAX_TASKS && b < MAX_TASKS && Forward(cur, a) == Forward(cur, b)
    ensures a == b
  {
  }

  /** `pick_next` returns the candidate that beats all others, or the idle slot if there is none. */
  lemma PickNextIsBest(s: Sys, cpu: nat)
    requires Typed(s) && cpu < MAX_CPUS
    ensures var r := PickNext(s, cpu);
            if exists i :: 1 <= i < MAX_TASKS && Candidate(s, cpu, i)
            then 1 <= r && Candidate(s, cpu, r)
                 && forall i :: 1 <= i < MAX_TASKS && Candidate(s, cpu, i) && i != r ==> Beats(s, cpu, r, i)
            else r == IdleSlot(cpu)
  {
    BestIsBest(s, cpu, MAX_TASKS);
  }

  lemma {:induction false} BestIsBest(s: Sys, cpu: nat, n: nat)
    requires Typed(s) && cpu < MAX_CPUS && 1 <= n <= MAX_TASKS
    ensures Best(s, cpu, n).None? <==> forall i :: 1 <= i < n ==> !Candidate(s, cpu, i)
    ensures Best(s, cpu, n).Some? ==>
              forall i :: 1 <= i < n && Candidate(s, cpu, i) && i != Best(s, cpu, n).value ==>
                  Beats(s, cpu, Best(s, cpu, n).value, i)
  {
    if n > 1 {
      BestIsBest(s, cpu, n - 1);
      var b := Best(s, cpu, n - 1);
      if b.Some? && Candidate(s, cpu, n - 1) && !Beats(s, cpu, n - 1, b.value) {
        if Forward(s.cur[cpu], n - 1) == Forward(s.cur[cpu], b.value) {
          ForwardDistinct(s.cur[cpu], n - 1, b.value);
        }
      }
    }
  }

  lemma {:induction false} NearestIsNearest(s: Sys, cpu: nat, skip: nat, n: nat)
    requires Typed(s) && cpu < MAX_CPUS && 1 <= n <= MAX_TASKS
    ensures Nearest(s, cpu, skip, n).None? <==> forall i :: 1 <= i < n && i != skip ==> !Candidate(s, cpu, i)
    ensures Nearest(s, cpu, skip, n).Some? ==>
              forall i :: 1 <= i < n && i != skip && Candidate(s, cpu, i) ==>
                Forward(s.cur[cpu], Nearest(s, cpu, skip, n).value) <= Forward(s.cur[cpu], i)
  {
    if n > 1 {
      NearestIsNearest(s, cpu, skip, n - 1);
    }
  }

  // ── Rotation ───────────────────────────────────────────────────────────────

  /** A tick on CPU 0 that finds its task at EL0 brings every waiting task closer. */
  lemma TickRotates(s: Sys, i: nat)
    requires Inv(s) && !IsIdle(s.cur[0]) && Has(s, i) && !IsIdle(i) && s.tasks[i].value.state == Ready
    ensures var s' := Tick(s, 0, true);
            && s'.cur[0] < MAX_TASKS && !IsIdle(s'.cur[0])
            && (s'.cur[0] == i || Forward(s'.cur[0], i) < Forward(s.cur[0], i))
  {
    hide WaitsOk, Conserved, Nearest, Best;
    WakeSleepersCore(s);
    var s1, cur := WakeSleepers(s), s.cur[0];
    RunningNow(s1, 0);
    StillReady(s, i);
    NearestIsNearest(s1, 0, cur, MAX_TASKS);
    var next := Nearest(s1, 0, cur, MAX_TASKS);
    assert Candidate(s1, 0, i) && i != cur;
    assert !IsIdle(next.value);
    if next.value != i {
      Closer(cur, next.value, i);
    }
  }

  lemma StillReady(s: Sys, i: nat)
    requires WaitsOk(s) && Has(s, i) && s.tasks[i].value.state == Ready
    ensures WakeSleepers(s).tasks[i] == s.tasks[i]
  {
  }

  lemma Closer(cur: nat, next: nat, i: nat)
    requires cur < MAX_TASKS && next < MAX_TASKS && i < MAX_TASKS
    requires Forward(cur, next) <= Forward(cur, i) && next != i
    ensures Forward(next, i) < Forward(cur, i)
  {
    hide Forward;
    ForwardIs(cur, next);
    ForwardIs(cur, i);
    ForwardIs(next, i);
  }

  lemma ForwardIs(cur: nat, i: nat)
    requires cur < MAX_TASKS && i < MAX_TASKS
    ensures Forward(cur, i) == if i > cur then i - cur - 1 else i + MAX_TASKS - cur - 1
  {
  }

  /** CPU 0 only takes EL0 ticks, and task `i` is Ready before every event and never current. */
  ghost predicate Starved(s: Sys, es: seq<Event>, i: nat)
    requires Inv(s) && Possible(s, es)
    decreases |es|
  {
    && !IsIdle(s.cur[0]) && Has(s, i) && s.tasks[i].value.state == Ready
    && (es != [] ==>
          && (es[0].EEnter? || es[0].EBootSpawn? || es[0].cpu == 0 ==> es[0].ETick? && es[0].fromEl0)
          && (StepInv(s, es[0]); Starved(Step(s, es[0]), es[1..], i)))
  }

  function Ticks0(es: seq<Event>): nat {
    if es == [] then 0 else (if es[0].ETick? && es[0].cpu == 0 then 1 else 0) + Ticks0(es[1..])
  }

  /** Only so many ticks can pass over a Ready task: its forward distance, at most 31. */
  lemma {:induction false} RotationBound(s: Sys, es: seq<Event>, i: nat)
    requires Inv(s) && Possible(s, es) && i < MAX_TASKS && !IsIdle(i) && Starved(s, es, i)
    ensures Ticks0(es) <= Forward(s.cur[0], i) < MAX_TASKS
    decreases |es|
  {
    hide Inv, Tick, Send, Receive, Sleep, Tail, Spawn, SpawnUser, SwitchBest, Exit, IdleRound, Enter;
    if es != [] {
      var e := es[0];
      StepInv(s, e);
      var s' := Step(s, e);
      RotationBound(s', es[1..], i);
      if e.ETick? && e.cpu == 0 {
        var s0 := s.(now := s.now + e.elapsed);
        TimePasses(s, e.elapsed);
        TickRotates(s0, i);
        ReadyIsNotCurrent(s', i);
      } else {
        OtherCpuKeeps(s, e);
      }
    }
  }

  lemma ReadyIsNotCurrent(s: Sys, i: nat)
    requires Inv(s) && Has(s, i) && !IsIdle(i) && s.tasks[i].value.state == Ready
    ensures s.cur[0] != i
  {
  }

  lemma OtherCpuKeeps(s: Sys, e: Event)
    requires Inv(s) && Tame(s, e) && !e.EEnter? && !e.EBootSpawn? && e.cpu != 0
    ensures Step(s, e).cur[0] == s.cur[0]
  {
  }

  // ── Wake-ups ───────────────────────────────────────────────────────────────

  /** Slot `i` is the same in both states, and so is the history of deliveries. */
  ghost predicate Untouched(s: Sys, r: Sys, i: nat) {
    |r.tasks| == |s.tasks| && i < |s.tasks| && r.tasks[i] == s.tasks[i] && r.delivered == s.delivered
  }

  /** A blocked task that no CPU executes. */
  ghost predicate Sits(s: Sys, i: nat) {
    && Typed(s) && Has(s, i) && !IsIdle(i) && s.tasks[i].value.state == Blocked
    && forall c :: 0 <= c < MAX_CPUS ==> s.cur[c] != i
  }

  lemma TailLeaves(s: Sys, cpu: nat, i: nat)
    requires Sits(s, i) && Recorded(s) && cpu < MAX_CPUS && !BadRecord(s, cpu)
    ensures Untouched(s, Tail(s, cpu), i)
  {
  }

  lemma SwitchAwayLeaves(s: Sys, cpu: nat, t: Task, i: nat)
    requires Sits(s, i) && cpu < MAX_CPUS && |t.pending| == 2
    ensures Untouched(s, SwitchAway(s, cpu, t), i)
  {
  }

  lemma SwitchBestLeaves(s: Sys, cpu: nat, strict: bool, i: nat)
    requires Sits(s, i) && cpu < MAX_CPUS
    ensures Untouched(s, SwitchBest(s, cpu, strict), i)
  {
  }

  lemma TickLeaves(s: Sys, cpu: nat, fromEl0: bool, i: nat)
    requires Sits(s, i) && cpu < MAX_CPUS && s.tasks[i].value.deadline == 0
    ensures Untouched(s, Tick(s, cpu, fromEl0), i)
  {
  }

  lemma IdleLeaves(s: Sys, cpu: nat, i: nat)
    requires Sits(s, i) && cpu < MAX_CPUS
    ensures Untouched(s, IdleRound(s, cpu), i) && Untouched(s, Enter(s), i)
  {
  }

  lemma SpawnLeaves(s: Sys, cpu: nat, priority: byte, i: nat)
    requires Inv(s) && Tame(s, ESpawn(cpu, priority)) && Sits(s, i)
    ensures s.nextId < 0xFFFF_FFFF && Untouched(s, Spawn(s, cpu, priority), i)
  {
    hide Core, Tail, FirstFree;
    SpawnUserInv(s, priority);
    SpawnUserLeaves(s, priority, i);
    TailLeaves(SpawnUser(s, priority), cpu, i);
  }

  lemma SpawnUserLeaves(s: Sys, priority: byte, i: nat)
    requires Sits(s, i) && s.nextId < 0xFFFF_FFFF
    ensures Untouched(s, SpawnUser(s, priority), i) && Sits(SpawnUser(s, priority), i)
  {
    hide FirstFree;
  }

  lemma BlockedSits(s: Sys, i: nat)
    requires Inv(s) && Has(s, i) && s.tasks[i].value.state == Blocked
    ensures Sits(s, i)
  {
  }

  /** Only a send to it or a receive can touch a task blocked in IPC. */
  lemma QuietEvents(s: Sys, e: Event, i: nat)
    requires Inv(s) && Tame(s, e) && !e.ESend? && !e.EReceive?
    requires Has(s, i) && s.tasks[i].value.state == Blocked && s.tasks[i].value.deadline == 0
    ensures Untouched(s, Step(s, e), i)
  {
    hide Core, Sits, Tail, SwitchAway, SwitchBest, Tick, IdleRound, Enter, Spawn, SpawnUser;
    BlockedSits(s, i);
    CoreTyped(s);
    match e
    case ETick(cpu, fromEl0, elapsed) => LaterSits(s, elapsed, i); TickLeaves(s.(now := s.now + elapsed), cpu,
        fromEl0, i);
    case EIdle(cpu) => IdleLeaves(s, cpu, i);
    case EEnter => IdleLeaves(s, 0, i);
    case ESpawn(cpu, priority) => SpawnLeaves(s, cpu, priority, i);
    case EBootSpawn(priority) => SpawnUserInv(s, priority); SpawnUserLeaves(s, priority, i);
    case EPlain(cpu) => TailLeaves(s, cpu, i);
    case EYield(cpu) => SwitchBestLeaves(s, cpu, true, i);
    case ESleep(cpu, ms) => SwitchAwayLeaves(s, cpu,
        Current(s, cpu).(deadline := s.now + Clamp(ms), state := Blocked), i);
    case EExit(cpu) => SwitchAwayLeaves(s, cpu, Current(s, cpu).(state := Zombie), i);
  }

  lemma LaterSits(s: Sys, elapsed: nat, i: nat)
    requires Sits(s, i)
    ensures Sits(s.(now := s.now + elapsed), i)
  {
  }

  /** The task still waits as before; only its queue may have grown. */
  ghost predicate StillWaits(s: Sys, r: Sys, i: nat) {
    Has(s, i) && Has(r, i) && r.tasks[i].value == s.tasks[i].value.(pending := r.tasks[i].value.pending)
  }

  /** Tasks keep their queues and buffers. */
  ghost predicate SameBuffers(s: Sys, r: Sys) {
    && |r.tasks| == |s.tasks| && r.delivered == s.delivered
    && forall j :: Has(s, j) ==>
         && Has(r, j) && r.tasks[j].value.pending == s.tasks[j].value.pending
         && r.tasks[j].value.buf == s.tasks[j].value.buf && r.tasks[j].value.recvBlocked == s.tasks[j].value.recvBlocked
  }

  lemma TailKeepsBuffers(s: Sys, cpu: nat)
    requires Typed(s) && cpu < MAX_CPUS && (s.woken.Some? ==> Has(s, s.woken.value))
    ensures SameBuffers(s, Tail(s, cpu))
    ensures forall j :: Has(s, j) && s.tasks[j].value.state == Ready ==>
        Tail(s, cpu).tasks[j].value.state in {Ready, Running}
  {
  }

  lemma SwitchAwayKeepsBuffers(s: Sys, cpu: nat, t: Task)
    requires Typed(s) && cpu < MAX_CPUS && |t.pending| == 2
    requires t.pending == Current(s, cpu).pending && t.buf == Current(s, cpu).buf
    ensures var r := SwitchAway(s, cpu, t);
            && |r.tasks| == |s.tasks| && r.delivered == s.delivered
            && forall j :: Has(s, j) ==> Has(r, j) && r.tasks[j].value.pending == s.tasks[j].value.pending
  {
  }

  /** The message at position `k` of slot `j` is still there. */
  ghost predicate KeptAt(s: Sys, r: Sys, j: nat, k: nat) {
    Has(s, j) && Has(r, j) && k < |s.tasks[j].value.pending| && k < |r.tasks[j].value.pending|
    && r.tasks[j].value.pending[k] == s.tasks[j].value.pending[k]
  }

  /** Every queued message is where it was. */
  ghost predicate MessagesKept(s: Sys, r: Sys) {
    forall j, k :: Has(s, j) && 0 <= k < |s.tasks[j].value.pending| && s.tasks[j].value.pending[k].Some? ==>
      KeptAt(s, r, j, k)
  }

  lemma BuffersKept(s: Sys, s1: Sys, r: Sys)
    requires SameBuffers(s1, r) && |s.tasks| == |s1.tasks|
    requires forall j :: Has(s, j) ==> Has(s1, j) && s1.tasks[j].value.pending == s.tasks[j].value.pending
    ensures MessagesKept(s, r)
  {
  }

  /** A send wakes nobody but a receiver waiting for it, and drops no queued message. */
  lemma SendLeaves(s: Sys, cpu: nat, dst: u32, msg: Message, i: nat)
    requires Inv(s) && Tame(s, ESend(cpu, dst, msg)) && Has(s, i) && s.tasks[i].value.state == Blocked
    requires !(s.tasks[i].value.recvBlocked && s.tasks[i].value.id == dst
        && Matches(s.tasks[i].value.recvFilter, Current(s, cpu).id))
    ensures StillWaits(s, Send(s, cpu, dst, msg), i)
    ensures MessagesKept(s, Send(s, cpu, dst, msg))
  {
    hide Core, Tail, SwitchAway, TaskIdx, Matches, Exclusive, MessagesKept, SameBuffers;
    BlockedSits(s, i);
    CoreTyped(s);
    var me, d := Current(s, cpu), TaskIdx(s.tasks, dst);
    if dst == me.id || d.None? {
      TailLeaves(s, cpu, i);
      TailKeepsBuffers(s, cpu);
      BuffersKept(s, s, Tail(s, cpu));
    } else {
      var t := s.tasks[d.value].value;
      var s1 := Accept(s, dst, me.id, msg);
      FilterForms(t.recvFilter, me.id);
      if t.recvBlocked && Matches(t.recvFilter, me.id) {
        var s2 := Deliver(s1, d.value, me.id, msg).(woken := d);
        assert d.value != i;
        TailLeaves(s2, cpu, i);
        TailKeepsBuffers(s2, cpu);
        BuffersKept(s, s2, Tail(s2, cpu));
      } else {
        SendBlocksLeaves(s, cpu, dst, msg, i, d.value);
      }
    }
  }

  lemma SendBlocksLeaves(s: Sys, cpu: nat, dst: u32, msg: Message, i: nat, d: nat)
    requires Inv(s) && Calls(s, cpu) && Sits(s, i) && dst != Current(s, cpu).id && TaskIdx(s.tasks, dst) == Some(d)
    requires !(s.tasks[d].value.recvBlocked && Matches(s.tasks[d].value.recvFilter, Current(s, cpu).id))
    ensures StillWaits(s, Send(s, cpu, dst, msg), i)
    ensures MessagesKept(s, Send(s, cpu, dst, msg))
  {
    hide Core, SwitchAway, TaskIdx, Matches, Exclusive;
    CoreTyped(s);
    var me, t := Current(s, cpu), s.tasks[d].value;
    FilterForms(t.recvFilter, me.id);
    var s1 := Accept(s, dst, me.id, msg);
    var k := FreeSlot(t.pending);
    if k.Some? {
      var s2 := Put(s1, d, t.(pending := t.pending[k.value := Some(PendingSend(me.id, msg))]));
      SwitchAwayLeaves(s2, cpu, Current(s2, cpu).(state := Blocked), i);
      SwitchAwayKeepsBuffers(s2, cpu, Current(s2, cpu).(state := Blocked));
    } else {
      var me1 := me.(staged := Some(StagedSend(dst, me.id, msg)), state := Blocked);
      SwitchAwayLeaves(s1, cpu, me1, i);
      SwitchAwayKeepsBuffers(s1, cpu, me1);
    }
  }

  /** `i` got `msg` from `src`: it is in its buffer and in the history, and `i` may run. */
  ghost predicate Copied(s: Sys, r: Sys, i: nat, src: u32, msg: Message) {
    && Has(s, i) && Has(r, i)
    && r.tasks[i].value.buf == Some(Stamp(msg, src)) && !r.tasks[i].value.recvBlocked
    && r.tasks[i].value.state in {Ready, Running}
    && r.delivered == s.delivered + multiset{Delivery(s.tasks[i].value.id, Stamp(msg, src))}
  }

  lemma DirectCopies(s: Sys, cpu: nat, msg: Message, i: nat)
    requires Inv(s) && Calls(s, cpu) && Has(s, i) && s.tasks[i].value.recvBlocked
    requires Matches(s.tasks[i].value.recvFilter, Current(s, cpu).id) && s.tasks[i].value.id != Current(s, cpu).id
    ensures Copied(s, Send(s, cpu, s.tasks[i].value.id, msg), i, Current(s, cpu).id, msg)
  {
    hide WaitsOk, Conserved, Tail, SwitchAway, TaskIdx, Matches, Exclusive;
    var me, dst := Current(s, cpu), s.tasks[i].value.id;
    var d := TaskIdx(s.tasks, dst);
    SameSlot(s, i, d.value);
    FilterForms(s.tasks[i].value.recvFilter, me.id);
    TailKeepsBuffers(Deliver(Accept(s, dst, me.id, msg), i, me.id, msg).(woken := d), cpu);
  }

  lemma SameSlot(s: Sys, i: nat, d: nat)
    requires WaitsOk(s) && Has(s, i) && Has(s, d) && s.tasks[i].value.id == s.tasks[d].value.id
    ensures i == d
  {
  }

  /** A blocked receiver leaves its wait only in the send that fills its buffer. */
  lemma ReceiverWakesByCopy(s: Sys, e: Event, i: nat)
    requires Inv(s) && Tame(s, e) && Has(s, i) && s.tasks[i].value.recvBlocked
    ensures || StillWaits(s, Step(s, e), i)
            || (&& e.ESend? && e.dst == s.tasks[i].value.id
                && Matches(s.tasks[i].value.recvFilter, Current(s, e.cpu).id)
                && Copied(s, Step(s, e), i, Current(s, e.cpu).id, e.msg))
  {
    hide WaitsOk, Conserved, Exclusive, Send, Receive, Matches;
    WaitingIsBlocked(s, i);
    WaitReasons(s, i);
    match e
    case ESend(cpu, dst, msg) =>
      if s.tasks[i].value.id == dst && Matches(s.tasks[i].value.recvFilter, Current(s, cpu).id) {
        CallerIsOther(s, cpu, i);
        DirectCopies(s, cpu, msg, i);
      } else {
        SendLeaves(s, cpu, dst, msg, i);
      }
    case EReceive(cpu, filter) => ReceiveLeaves(s, cpu, filter, i);
    case _ => QuietEvents(s, e, i);
  }

  lemma WaitReasons(s: Sys, i: nat)
    requires WaitsOk(s) && Has(s, i)
    ensures s.tasks[i].value.recvBlocked ==> s.tasks[i].value.deadline == 0 && s.tasks[i].value.staged.None?
    ensures s.tasks[i].value.staged.Some? ==> s.tasks[i].value.deadline == 0 && s.tasks[i].value.state == Blocked
    ensures forall j, k :: QueuedFrom(s, j, k, s.tasks[i].value.id) ==> Parked(s.tasks[i].value)
  {
  }

  lemma CallerIsOther(s: Sys, cpu: nat, i: nat)
    requires Inv(s) && Calls(s, cpu) && Has(s, i) && s.tasks[i].value.state == Blocked
    ensures i != s.cur[cpu] && s.tasks[i].value.id != Current(s, cpu).id
  {
  }

  /** A receive wakes only the task whose message it takes. */
  lemma ReceiveLeaves(s: Sys, cpu: nat, filter: i32, i: nat)
    requires Inv(s) && Calls(s, cpu) && Has(s, i) && s.tasks[i].value.state == Blocked
    requires forall k :: 0 <= k < 2 && FirstPending(Current(s, cpu).pending, filter) == Some(k) ==>
               !QueuedFrom(s, s.cur[cpu], k, s.tasks[i].value.id)
    requires FirstPending(Current(s, cpu).pending, filter).None? ==>
        FirstStaged(s.tasks, Current(s, cpu).id, filter, 1) != Some(i)
    ensures StillWaits(s, Receive(s, cpu, filter), i)
  {
    hide WaitsOk, Conserved, Exclusive, Tail, SwitchAway, TaskIdx, FirstPending, FirstStaged, Matches;
    BlockedSits(s, i);
    var me := Current(s, cpu);
    var k := FirstPending(me.pending, filter);
    if k.Some? {
      var w := TakeQueuedCore(s, cpu, k.value);
      var s1 := TakeQueued(s, cpu, k.value);
      assert QueuedFrom(s, s.cur[cpu], k.value, s.tasks[w].value.id);
      TailLeaves(Put(s1, w, s1.tasks[w].value.(state := Ready)).(woken := Some(w)), cpu, i);
    } else {
      var j := FirstStaged(s.tasks, me.id, filter, 1);
      if j.Some? {
        TailLeaves(TakeStaged(s, cpu, j.value).(woken := j), cpu, i);
      } else {
        SwitchAwayLeaves(s, cpu, me.(recvBlocked := true, recvFilter := filter, state := Blocked), i);
      }
    }
  }

  lemma SwitchBestKeepsBuffers(s: Sys, cpu: nat, strict: bool)
    requires Typed(s) && cpu < MAX_CPUS
    ensures SameBuffers(s, SwitchBest(s, cpu, strict))
  {
  }

  lemma TickKeepsQueues(s: Sys, cpu: nat, fromEl0: bool, j: nat, k: nat)
    requires Typed(s) && cpu < MAX_CPUS && Has(s, j) && k < 2
    ensures KeptAt(s, Tick(s, cpu, fromEl0), j, k)
  {
    hide PickNext, PickNextRR, AnyExpired, SwitchBest;
    SwitchBestKeepsQueues(WakeSleepers(s), cpu, j, k);
  }

  lemma SwitchBestKeepsQueues(s: Sys, cpu: nat, j: nat, k: nat)
    requires Typed(s) && cpu < MAX_CPUS && Has(s, j) && k < 2
    ensures KeptAt(s, SwitchBest(s, cpu, false), j, k)
  {
    hide PickNext, PickNextRR;
  }

  lemma IdleKeepsQueues(s: Sys, cpu: nat, j: nat, k: nat)
    requires Typed(s) && cpu < MAX_CPUS && Has(s, j) && k < 2
    ensures KeptAt(s, IdleRound(s, cpu), j, k) && KeptAt(s, Enter(s), j, k)
  {
    hide PickNext, Best;
  }

  lemma SpawnKeepsQueues(s: Sys, cpu: nat, priority: byte, j: nat, k: nat)
    requires Typed(s) && Recorded(s) && cpu < MAX_CPUS && s.nextId < 0xFFFF_FFFF && Has(s, j) && k < 2
    ensures KeptAt(s, SpawnUser(s, priority), j, k) && KeptAt(s, Spawn(s, cpu, priority), j, k)
  {
    hide Tail, FirstFree;
    TailKeepsBuffers(SpawnUser(s, priority), cpu);
  }

  /** Events other than a receive by its owner keep a queue entry in place. */
  lemma QuietKeepsQueues(s: Sys, e: Event, j: nat, k: nat)
    requires Inv(s) && Tame(s, e) && !e.ESend? && !e.EReceive? && Has(s, j) && k < 2
    ensures KeptAt(s, Step(s, e), j, k)
  {
    hide Core, Tail, SwitchAway, SwitchBest, Tick, IdleRound, Enter, Spawn, SpawnUser;
    CoreTyped(s);
    match e
    case ESpawn(cpu, priority) => SpawnUserInv(s, priority); SpawnKeepsQueues(s, cpu, priority, j, k);
    case EBootSpawn(priority) => SpawnUserInv(s, priority); SpawnKeepsQueues(s, 0, priority, j, k);
    case EPlain(cpu) => TailKeepsBuffers(s, cpu);
    case ESleep(cpu, ms) => SwitchAwayKeepsBuffers(s, cpu,
        Current(s, cpu).(deadline := s.now + Clamp(ms), state := Blocked));
    case EExit(cpu) => SwitchAwayKeepsBuffers(s, cpu, Current(s, cpu).(state := Zombie));
    case EYield(cpu) => SwitchBestKeepsBuffers(s, cpu, true);
    case ETick(cpu, fromEl0, elapsed) => TickKeepsQueues(s.(now := s.now + elapsed), cpu, fromEl0, j, k);
    case EIdle(cpu) => IdleKeepsQueues(s, cpu, j, k);
    case EEnter => IdleKeepsQueues(s, 0, j, k);
  }

  /** Receiving changes no queue entry but the one it takes, if it takes one. */
  ghost predicate KeptBut(s: Sys, r: Sys, m: nat, k: Option<nat>) {
    forall j, l :: Has(s, j) && 0 <= l < 2 && !(j == m && k == Some(l)) ==> KeptAt(s, r, j, l)
  }

  lemma QueuedCopies(s: Sys, cpu: nat, filter: i32)
    requires Inv(s) && Calls(s, cpu) && FirstPending(Current(s, cpu).pending, filter).Some?
    ensures var me, k := Current(s, cpu), FirstPending(Current(s, cpu).pending, filter).value;
      && k < |me.pending| && me.pending[k].Some?
      && Copied(s, Receive(s, cpu, filter), s.cur[cpu], me.pending[k].value.src, me.pending[k].value.msg)
      && KeptBut(s, Receive(s, cpu, filter), s.cur[cpu], Some(k))
  {
    hide WaitsOk, Conserved, Exclusive, TaskIdx, FirstPending, Matches, Tail;
    RunningNow(s, cpu);
    CallerReceivesNot(s, cpu);
    var k := FirstPending(Current(s, cpu).pending, filter).value;
    var w := TakeQueuedCore(s, cpu, k);
    var s1 := TakeQueued(s, cpu, k);
    var s2 := Put(s1, w, s1.tasks[w].value.(state := Ready)).(woken := Some(w));
    TailKeepsBuffers(s2, cpu);
    TailKeepsRunner(s2, cpu);
  }

  lemma StagedCopies(s: Sys, cpu: nat, filter: i32)
    requires Inv(s) && Calls(s, cpu) && FirstPending(Current(s, cpu).pending, filter).None?
    requires FirstStaged(s.tasks, Current(s, cpu).id, filter, 1).Some?
    ensures var g := FirstStaged(s.tasks, Current(s, cpu).id, filter, 1).value;
      && Has(s, g) && s.tasks[g].value.staged.Some?
      && Copied(s, Receive(s, cpu, filter), s.cur[cpu], s.tasks[g].value.staged.value.src,
                s.tasks[g].value.staged.value.msg)
      && KeptBut(s, Receive(s, cpu, filter), s.cur[cpu], None)
  {
    hide WaitsOk, Conserved, Exclusive, FirstPending, FirstStaged, Matches, Tail;
    RunningNow(s, cpu);
    CallerReceivesNot(s, cpu);
    var g := FirstStaged(s.tasks, Current(s, cpu).id, filter, 1);
    TakeStagedCore(s, cpu, g.value);
    var s2 := TakeStaged(s, cpu, g.value).(woken := g);
    TailKeepsBuffers(s2, cpu);
    TailKeepsRunner(s2, cpu);
  }

  /** What a receive does to the caller's buffer and to everyone's queues. */
  lemma ReceiveCopies(s: Sys, cpu: nat, filter: i32)
    requires Inv(s) && Calls(s, cpu)
    ensures var m, me, r := s.cur[cpu], Current(s, cpu), Receive(s, cpu, filter);
            var k, g := FirstPending(me.pending, filter), FirstStaged(s.tasks, me.id, filter, 1);
            && (k.Some? ==> Copied(s, r, m, me.pending[k.value].value.src, me.pending[k.value].value.msg))
            && (k.None? && g.Some? ==>
                  Copied(s, r, m, s.tasks[g.value].value.staged.value.src, s.tasks[g.value].value.staged.value.msg))
            && KeptBut(s, r, m, k)
  {
    hide Core, FirstPending, FirstStaged, Matches, SwitchAway, KeptBut, Copied;
    CoreTyped(s);
    var me := Current(s, cpu);
    var k, g := FirstPending(me.pending, filter), FirstStaged(s.tasks, me.id, filter, 1);
    if k.Some? {
      QueuedCopies(s, cpu, filter);
    } else if g.Some? {
      StagedCopies(s, cpu, filter);
    } else {
      WaitKeeps(s, cpu, filter);
    }
  }

  lemma WaitKeeps(s: Sys, cpu: nat, filter: i32)
    requires Inv(s) && Calls(s, cpu) && FirstPending(Current(s, cpu).pending, filter).None?
    requires FirstStaged(s.tasks, Current(s, cpu).id, filter, 1).None?
    ensures KeptBut(s, Receive(s, cpu, filter), s.cur[cpu], None)
  {
    hide WaitsOk, Conserved, Exclusive, FirstPending, FirstStaged, Matches, SwitchAway;
    SwitchAwayKeepsBuffers(s, cpu, Current(s, cpu).(recvBlocked := true, recvFilter := filter, state := Blocked));
  }

  lemma TailKeepsRunner(s: Sys, cpu: nat)
    requires Typed(s) && cpu < MAX_CPUS && (s.woken.Some? ==> Has(s, s.woken.value)) && Current(s, cpu).state == Running
    ensures Has(Tail(s, cpu), s.cur[cpu]) && Tail(s, cpu).tasks[s.cur[cpu]].value.state in {Ready, Running}
  {
  }

  lemma CallerReceivesNot(s: Sys, cpu: nat)
    requires Inv(s) && Calls(s, cpu)
    ensures !Current(s, cpu).recvBlocked
  {
  }

  /** A sender parked in a queue leaves its wait only in the receive that copies its message out. */
  lemma SenderWakesByCopy(s: Sys, e: Event, i: nat, j: nat, k: nat)
    requires Inv(s) && Tame(s, e) && Has(s, i) && QueuedFrom(s, j, k, s.tasks[i].value.id)
    ensures || (StillWaits(s, Step(s, e), i) && KeptAt(s, Step(s, e), j, k))
            || (e.EReceive? && s.cur[e.cpu] == j
               && Copied(s, Step(s, e), j, s.tasks[i].value.id, s.tasks[j].value.pending[k].value.msg))
  {
    hide WaitsOk, Conserved, Exclusive, Send, Receive, Matches, FirstPending, FirstStaged;
    WaitReasons(s, i);
    match e
    case ESend(cpu, dst, msg) => SendLeaves(s, cpu, dst, msg, i);
    case EReceive(cpu, filter) =>
      ReceiveCopies(s, cpu, filter);
      OneEntry(s, i, j, k);
      if !(s.cur[cpu] == j && FirstPending(Current(s, cpu).pending, filter) == Some(k)) {
        ReceiveLeaves(s, cpu, filter, i);
      }
    case _ =>
      QuietEvents(s, e, i);
      QuietKeepsQueues(s, e, j, k);
  }

  lemma OneEntry(s: Sys, i: nat, j: nat, k: nat)
    requires WaitsOk(s) && Has(s, i) && QueuedFrom(s, j, k, s.tasks[i].value.id)
    ensures forall j', k' :: QueuedFrom(s, j', k', s.tasks[i].value.id) ==> j' == j && k' == k
  {
  }

  /** A sender with a staged message leaves its wait only in the receive that copies it out. */
  lemma StagerWakesByCopy(s: Sys, e: Event, i: nat)
    requires Inv(s) && Tame(s, e) && Has(s, i) && s.tasks[i].value.staged.Some?
    ensures var g := s.tasks[i].value.staged.value;
            || StillWaits(s, Step(s, e), i)
            || (e.EReceive? && Current(s, e.cpu).id == g.dst && Copied(s, Step(s, e), s.cur[e.cpu], g.src, g.msg))
  {
    hide WaitsOk, Conserved, Exclusive, Send, Receive, Matches, FirstPending, FirstStaged;
    WaitReasons(s, i);
    StagedNotReceiver(s, i);
    match e
    case ESend(cpu, dst, msg) => SendLeaves(s, cpu, dst, msg, i);
    case EReceive(cpu, filter) =>
      ReceiveCopies(s, cpu, filter);
      var k := FirstPending(Current(s, cpu).pending, filter);
      if !(k.None? && FirstStaged(s.tasks, Current(s, cpu).id, filter, 1) == Some(i)) {
        ReceiveLeaves(s, cpu, filter, i);
      }
    case _ => QuietEvents(s, e, i);
  }

  lemma StagedNotReceiver(s: Sys, i: nat)
    requires WaitsOk(s) && Has(s, i) && s.tasks[i].value.staged.Some?
    ensures !s.tasks[i].value.recvBlocked && !Parked(s.tasks[i].value)
  {
  }
}
