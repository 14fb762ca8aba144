/**
 * What each event does to the task table, said in terms of its fields: who
 * runs next, who sleeps how long, what a send and a receive leave behind.
 */
module SchedEffects {
  import opened Bytes
  import opened SchedSpec
  import opened SchedInv
  import opened SchedRuns
  import opened SchedFacts

  // ── Who runs next ──────────────────────────────────────────────────────────

  /** Slot `i` may run on `cpu`. */
  predicate Can(s: Sys, cpu: nat, i: int) {
    && 1 <= i < |s.tasks| && s.tasks[i].Some? && s.tasks[i].value.state == Ready
    && (s.tasks[i].value.affinity == None || s.tasks[i].value.affinity == Some(cpu))
  }

  /** How many slots on from `cur`, going round, slot `i` comes. */
  function Steps(cur: nat, i: nat): nat
    requires cur < 32 && i < 32
  {
    if i > cur then i - cur else i + 32 - cur
  }

  /** `n` is what `cpu` runs next: the task of the lowest priority number, and of those the first in
      slot order behind its current one; its idle slot when there is none. */
  ghost predicate Chosen(s: Sys, cpu: nat, n: nat) {
    && |s.tasks| == 32 && cpu < |s.cur| && s.cur[cpu] < 32
    && if exists i :: Can(s, cpu, i)
       then
         && Can(s, cpu, n)
         && forall i :: Can(s, cpu, i) && i != n ==>
              || s.tasks[n].value.priority < s.tasks[i].value.priority
              || (s.tasks[n].value.priority == s.tasks[i].value.priority && Steps(s.cur[cpu], n) < Steps(s.cur[cpu], i))
       else n == if cpu == 0 then 0 else 15 + cpu
  }

  /** `r` is `s` with `cpu` executing slot `n`. */
  predicate Runs(s: Sys, r: Sys, cpu: nat, n: nat) {
    && cpu < |s.cur| && n < |s.tasks| && s.tasks[n].Some?
    && r == s.(cur := s.cur[cpu := n], tasks := s.tasks[n := Some(s.tasks[n].value.(state := Running))])
  }

  lemma StepsIs(cur: nat, i: nat)
    requires cur < 32 && i < 32
    ensures Steps(cur, i) == Forward(cur, i) + 1
  {
    ForwardIs(cur, i);
  }

  lemma CanIs(s: Sys, cpu: nat, i: nat)
    requires Typed(s) && cpu < 4 && 1 <= i < 32
    ensures Can(s, cpu, i) <==> Candidate(s, cpu, i)
  {
  }

  lemma PickIs(s: Sys, cpu: nat)
    requires Typed(s) && cpu < 4
    ensures Chosen(s, cpu, PickNext(s, cpu))
  {
    hide PickNext, Forward, Candidate, Can, Steps, Typed;
    TypedSizes(s, cpu);
    PickNextIsBest(s, cpu);
    var n := PickNext(s, cpu);
    forall i | 1 <= i < 32 ensures Can(s, cpu, i) <==> Candidate(s, cpu, i) {
      CanIs(s, cpu, i);
    }
    CanRange(s, cpu);
    forall i | Can(s, cpu, i) && i != n
      ensures || s.tasks[n].value.priority < s.tasks[i].value.priority
              || (s.tasks[n].value.priority == s.tasks[i].value.priority && Steps(s.cur[cpu], n) < Steps(s.cur[cpu], i))
    {
      StepsIs(s.cur[cpu], n);
      StepsIs(s.cur[cpu], i);
      assert Beats(s, cpu, n, i);
    }
  }

  lemma TypedSizes(s: Sys, cpu: nat)
    requires Typed(s) && cpu < 4
    ensures |s.tasks| == 32 && |s.cur| == 4 && s.cur[cpu] < 32 && Has(s, s.cur[cpu])
  {
  }

  lemma CanRange(s: Sys, cpu: nat)
    requires |s.tasks| == 32
    ensures forall i :: Can(s, cpu, i) ==> 1 <= i < 32 && s.tasks[i].Some?
  {
  }

  /** The current task of `cpu` becomes `t` and the CPU goes to the task chosen then. */
  ghost predicate Leaves(s: Sys, r: Sys, cpu: nat, t: Task) {
    && cpu < |s.cur| && s.cur[cpu] < |s.tasks|
    && var s1 := s.(tasks := s.tasks[s.cur[cpu] := Some(t)]);
       cpu < |r.cur| && Chosen(s1, cpu, r.cur[cpu]) && Runs(s1, r, cpu, r.cur[cpu])
  }

  lemma SwitchAwayGoes(s: Sys, cpu: nat, t: Task)
    requires Typed(s) && cpu < 4 && |t.pending| == 2
    ensures Leaves(s, SwitchAway(s, cpu, t), cpu, t)
  {
    hide PickNext, Chosen;
    PickIs(Put(s, s.cur[cpu], t), cpu);
  }

  lemma ExitGoes(s: Sys, cpu: nat)
    requires Inv(s) && Calls(s, cpu)
    ensures Leaves(s, Step(s, EExit(cpu)), cpu, Current(s, cpu).(state := Zombie))
  {
    hide SwitchAway, Core, Leaves;
    CoreTyped(s);
    SwitchAwayGoes(s, cpu, Current(s, cpu).(state := Zombie));
  }

  /** A syscall that returns hands over to the recorded task if that is strictly better. */
  ghost predicate HandsOver(s: Sys, r: Sys, cpu: nat) {
    && |s.tasks| == 32 && |s.cur| == 4 && cpu < 4 && s.cur[cpu] < 32 && s.tasks[s.cur[cpu]].Some?
    && var c, s1 := s.cur[cpu], s.(woken := None);
       if s.woken.Some? && s.woken.value < 32 && s.tasks[s.woken.value].Some?
          && s.tasks[s.woken.value].value.priority < s.tasks[c].value.priority
       then Runs(s1.(tasks := s.tasks[c := Some(s.tasks[c].value.(state := Ready))]), r, cpu, s.woken.value)
       else r == s1
  }

  lemma TailGoes(s: Sys, cpu: nat)
    requires Typed(s) && Recorded(s) && Calls(s, cpu)
    ensures HandsOver(s, Tail(s, cpu), cpu)
  {
    TypedSizes(s, cpu);
  }

  /** The idle contexts have the lowest priority there is. */
  ghost predicate IdleLast(s: Sys) {
    forall i :: Has(s, i) && IsIdle(i) ==> s.tasks[i].value.priority == 255
  }

  /** A yield goes to the task chosen if that is strictly better than the caller, and else nowhere. */
  lemma YieldGoes(s: Sys, cpu: nat)
    requires Inv(s) && Calls(s, cpu) && IdleLast(s)
    ensures var r, c := Step(s, EYield(cpu)), s.cur[cpu];
      && |s.tasks| == 32 && c < 32 && s.tasks[c].Some?
      && if exists i :: Can(s, cpu, i) && s.tasks[i].value.priority < s.tasks[c].value.priority
         then
           && cpu < |r.cur| && Chosen(s, cpu, r.cur[cpu])
           && Runs(s.(tasks := s.tasks[c := Some(s.tasks[c].value.(state := Ready))]), r, cpu, r.cur[cpu])
         else r == s
  {
    hide PickNext, Core, Exclusive, Chosen;
    CoreTyped(s);
    NowRunning(s, cpu);
    TypedSizes(s, cpu);
    var n := PickNext(s, cpu);
    PickIs(s, cpu);
    PickedIsTask(s, cpu);
    BetterIsPicked(s, cpu, n);
    CanRange(s, cpu);
  }

  lemma BetterIsPicked(s: Sys, cpu: nat, n: nat)
    requires Chosen(s, cpu, n) && s.tasks[s.cur[cpu]].Some?
    requires n < 32 && s.tasks[n].Some? && (!Can(s, cpu, n) ==> s.tasks[n].value.priority == 255)
    ensures (exists i :: Can(s, cpu, i) && s.tasks[i].value.priority < s.tasks[s.cur[cpu]].value.priority)
       <==> s.tasks[n].value.priority < s.tasks[s.cur[cpu]].value.priority
  {
    hide Can;
    CanRange(s, cpu);
  }

  lemma NowRunning(s: Sys, cpu: nat)
    requires Inv(s) && Calls(s, cpu)
    ensures Has(s, s.cur[cpu]) && s.tasks[s.cur[cpu]].value.state == Running && s.cur[cpu] != 0
  {
    RunningNow(s, cpu);
  }

  /** When somebody can run, the pick is neither the caller, which runs, nor slot 0. */
  lemma PickedIsTask(s: Sys, cpu: nat)
    requires Inv(s) && Calls(s, cpu)
    ensures Typed(s) && var n := PickNext(s, cpu);
      && (Can(s, cpu, n) ==> n != s.cur[cpu] && n != 0)
      && (!Can(s, cpu, n) ==> IsIdle(n) && forall i :: !Can(s, cpu, i))
      && Has(s, n) && n != s.cur[cpu]
  {
    hide PickNext;
    NowRunning(s, cpu);
    PickIs(s, cpu);
  }

  /** An idle secondary goes to the task chosen, unless that is itself. */
  lemma IdleGoes(s: Sys, cpu: nat) returns (n: nat)
    requires Inv(s) && Enabled(s, EIdle(cpu))
    ensures var r, idle := Step(s, EIdle(cpu)), 15 + cpu;
      && |s.tasks| == 32 && s.tasks[idle].Some? && Chosen(s, cpu, n)
      && if n == idle then r == s
         else Runs(s.(tasks := s.tasks[idle := Some(s.tasks[idle].value.(state := Ready))]), r, cpu, n)
  {
    hide PickNext, Core, Chosen;
    CoreTyped(s);
    PickIs(s, cpu);
    n := PickNext(s, cpu);
  }

  /** The boot context starts the task chosen. */
  lemma EnterGoes(s: Sys)
    requires Inv(s) && Enabled(s, EEnter)
    ensures var r := Step(s, EEnter);
      if exists i :: Can(s, 0, i) then |r.cur| == 4 && Chosen(s, 0, r.cur[0]) && Runs(s, r, 0, r.cur[0]) else r == s
  {
    hide PickNext, Core;
    CoreTyped(s);
    PickIs(s, 0);
  }

  // ── Ticks and sleep ────────────────────────────────────────────────────────

  /** `s1` is `s` with every sleeper Ready whose time has come; slot 0 never sleeps. */
  predicate Awoken(s: Sys, s1: Sys) {
    && |s1.tasks| == |s.tasks| && s1 == s.(tasks := s1.tasks)
    && forall i :: 0 <= i < |s.tasks| ==>
         s1.tasks[i] == if i > 0 && s.tasks[i].Some? && 0 < s.tasks[i].value.deadline <= s.now
                        then Some(s.tasks[i].value.(deadline := 0, state := Ready)) else s.tasks[i]
  }

  lemma WakeIs(s: Sys)
    ensures Awoken(s, WakeSleepers(s))
  {
  }

  /** The task next in turn behind the current one. */
  ghost predicate Turn(s: Sys, cpu: nat, n: nat) {
    && |s.tasks| == 32 && cpu < |s.cur| && s.cur[cpu] < 32 && Can(s, cpu, n) && n != s.cur[cpu]
    && forall i :: Can(s, cpu, i) && i != s.cur[cpu] ==> Steps(s.cur[cpu], n) <= Steps(s.cur[cpu], i)
  }

  lemma TurnIs(s: Sys, cpu: nat)
    requires Typed(s) && cpu < 4
    ensures var n := PickNextRR(s, cpu, s.cur[cpu]);
      if exists i :: Can(s, cpu, i) && i != s.cur[cpu] then Turn(s, cpu, n) else n == IdleSlot(cpu)
  {
    hide Nearest, Forward, Candidate, Can, Steps, Typed;
    TypedSizes(s, cpu);
    NearestIsNearest(s, cpu, s.cur[cpu], 32);
    forall i | 1 <= i < 32
      ensures Can(s, cpu, i) <==> Candidate(s, cpu, i)
      ensures Steps(s.cur[cpu], i) == Forward(s.cur[cpu], i) + 1
    {
      CanIs(s, cpu, i);
      StepsIs(s.cur[cpu], i);
    }
    CanRange(s, cpu);
  }

  /** The current task, which runs, gives its turn to the next, on a secondary without one to the idle slot. */
  lemma RotateGoes(s: Sys, cpu: nat)
    requires Typed(s) && Calls(s, cpu) && Current(s, cpu).state == Running
    ensures var r, c, n := SwitchBest(s, cpu, false), s.cur[cpu], PickNextRR(s, cpu, s.cur[cpu]);
      && (if exists i :: Can(s, cpu, i) && i != c then Turn(s, cpu, n) else n == if cpu == 0 then 0 else 15 + cpu)
      && if cpu > 0 || exists i :: Can(s, cpu, i) && i != c
         then Runs(s.(tasks := s.tasks[c := Some(s.tasks[c].value.(state := Ready))]), r, cpu, n) else r == s
  {
    hide PickNextRR, Turn, Can;
    TypedSizes(s, cpu);
    TurnIs(s, cpu);
    TurnFacts(s, cpu, PickNextRR(s, cpu, s.cur[cpu]));
  }

  lemma TurnFacts(s: Sys, cpu: nat, n: nat)
    requires |s.tasks| == 32 && cpu < |s.cur|
    ensures Turn(s, cpu, n) ==> 1 <= n < 32 && s.tasks[n].Some? && n != s.cur[cpu]
  {
  }

  /** A tick wakes whose time has come. Then a CPU whose task has exited goes to the task chosen, an idle
      one only if somebody woke, and one that was in user code gives its task's turn to the next, or on
      a secondary without one to its idle slot; all others stay. */
  lemma TickGoes(s: Sys, cpu: nat, fromEl0: bool, elapsed: nat) returns (s1: Sys, n: nat)
    requires Inv(s) && Enabled(s, ETick(cpu, fromEl0, elapsed))
    ensures Awoken(s.(now := s.now + elapsed), s1)
    ensures var r, c, idle := Step(s, ETick(cpu, fromEl0, elapsed)), s.cur[cpu], if cpu == 0 then 0 else 15 + cpu;
      && |s1.tasks| == 32 && c < 32 && s1.tasks[c].Some?
      && if s1.tasks[c].value.state == Zombie || c == idle then
           && Chosen(s1, cpu, n)
           && if n != idle && (s1.tasks[c].value.state == Zombie || s1.tasks != s.tasks)
              then Runs(s1, r, cpu, n) else r == s1
         else if fromEl0 && (cpu > 0 || exists i :: Can(s1, cpu, i) && i != c) then
           && (if exists i :: Can(s1, cpu, i) && i != c then Turn(s1, cpu, n) else n == idle)
           && Runs(s1.(tasks := s1.tasks[c := Some(s1.tasks[c].value.(state := Ready))]), r, cpu, n)
         else r == s1
  {
    hide Core, PickNext, PickNextRR, Chosen, Turn, WakeSleepers, AnyExpired, Exclusive, SwitchBest, Can, Awoken;
    var s0 := s.(now := s.now + elapsed);
    TimePasses(s, elapsed);
    s1 := WakeSleepers(s0);
    WakeSleepersCore(s0);
    CoreTyped(s0);
    CoreTyped(s1);
    WakeIs(s0);
    AnyIs(s0, s1);
    TypedSizes(s1, cpu);
    PickIs(s1, cpu);
    if fromEl0 {
      CoreRunning(s1, cpu);
      RotateGoes(s1, cpu);
    }
    n := if s1.tasks[s.cur[cpu]].value.state == Zombie || s.cur[cpu] == IdleSlot(cpu) then PickNext(s1, cpu)
         else PickNextRR(s1, cpu, s.cur[cpu]);
  }

  lemma CoreRunning(s: Sys, cpu: nat)
    requires Core(s) && Calls(s, cpu)
    ensures Has(s, s.cur[cpu]) && s.tasks[s.cur[cpu]].value.state == Running && s.cur[cpu] != 0
  {
    RunningNow(s, cpu);
  }

  lemma AnyIs(s: Sys, s1: Sys)
    requires Typed(s) && Awoken(s, s1)
    ensures AnyExpired(s) <==> s1.tasks != s.tasks
  {
    if AnyExpired(s) {
      var i :| 1 <= i < |s.tasks| && Expired(s.tasks[i], s.now);
      assert s1.tasks[i] != s.tasks[i];
    } else {
      assert forall i :: 0 <= i < |s.tasks| ==> s1.tasks[i] == s.tasks[i];
    }
  }

  /** Slot `i` sleeps until `until`. */
  predicate Asleep(s: Sys, i: nat, until: nat) {
    && Has(s, i) && s.tasks[i].value.state == Blocked && s.tasks[i].value.deadline == until && until > 0
    && !s.tasks[i].value.recvBlocked && s.tasks[i].value.staged.None?
  }

  /** A sleep of `ms` milliseconds ends as many later, but at least one and at most a minute. */
  lemma FallsAsleep(s: Sys, cpu: nat, ms: u32)
    requires Inv(s) && Calls(s, cpu)
    ensures var r := Step(s, ESleep(cpu, ms));
      && Asleep(r, s.cur[cpu], s.now + (if ms == 0 then 1 else if ms <= 60000 then ms else 60000)) && r.now == s.now
      && Leaves(s, r, cpu,
         Current(s, cpu).(deadline := s.now + (if ms == 0 then 1 else if ms <= 60000 then ms else 60000),
                                            state := Blocked))
  {
    hide SwitchAway, Core, Chosen, Exclusive;
    CoreTyped(s);
    NowRunning(s, cpu);
    NoReason(s, s.cur[cpu]);
    var t := Current(s, cpu).(deadline := s.now + Clamp(ms), state := Blocked);
    SwitchAwayGoes(s, cpu, t);
    CanRange(Put(s, s.cur[cpu], t), cpu);
    NotBack(Put(s, s.cur[cpu], t), cpu, SwitchAway(s, cpu, t).cur[cpu]);
  }

  lemma NoReason(s: Sys, i: nat)
    requires Inv(s) && Has(s, i) && s.tasks[i].value.state == Running
    ensures !s.tasks[i].value.recvBlocked && s.tasks[i].value.staged.None? && s.tasks[i].value.deadline == 0
  {
    assert OneReason(i, s.tasks[i].value);
  }

  lemma NotBack(s: Sys, cpu: nat, n: nat)
    requires Chosen(s, cpu, n) && cpu < 4 && !IsIdle(s.cur[cpu]) && s.tasks[s.cur[cpu]].Some?
        && s.tasks[s.cur[cpu]].value.state != Ready
    ensures n != s.cur[cpu]
  {
  }

  /** Before its time nothing wakes a sleeper. */
  lemma StaysAsleep(s: Sys, e: Event, i: nat, until: nat)
    requires Inv(s) && Tame(s, e) && Asleep(s, i, until) && Step(s, e).now < until
    ensures Asleep(Step(s, e), i, until)
  {
    hide Core, Send, Receive, Tick, SwitchAway, SwitchBest, Tail, Spawn, SpawnUser, IdleRound, Enter, Matches;
    CoreTyped(s);
    BlockedSits(s, i);
    match e
    case ESend(cpu, dst, msg) => SendLeaves(s, cpu, dst, msg, i);
    case EReceive(cpu, filter) =>
      SleeperSendsNot(s, cpu, filter, i);
      ReceiveLeaves(s, cpu, filter, i);
    case ETick(cpu, fromEl0, elapsed) =>
      StepTime(s, e);
      LaterSits(s, elapsed, i);
      TickSleeps(s.(now := s.now + elapsed), cpu, fromEl0, i);
    case _ => QuietSleeps(s, e, i);
  }

  lemma SleeperSendsNot(s: Sys, cpu: nat, filter: i32, i: nat)
    requires Inv(s) && Calls(s, cpu) && Has(s, i) && s.tasks[i].value.deadline != 0
    ensures Typed(s)
    ensures forall k :: !QueuedFrom(s, s.cur[cpu], k, s.tasks[i].value.id)
    ensures FirstStaged(s.tasks, Current(s, cpu).id, filter, 1) != Some(i)
  {
    hide FirstStaged, Matches;
    assert OneReason(i, s.tasks[i].value);
  }

  lemma QuietSleeps(s: Sys, e: Event, i: nat)
    requires Inv(s) && Tame(s, e) && !e.ESend? && !e.EReceive? && !e.ETick? && Sits(s, i)
    ensures Untouched(s, Step(s, e), i)
  {
    hide Core, Sits, Tail, SwitchAway, SwitchBest, Tick, IdleRound, Enter, Spawn, SpawnUser;
    CoreTyped(s);
    match e
    case EIdle(cpu) => IdleLeaves(s, cpu, i);
    case EEnter => IdleLeaves(s, 0, i);
    case ESpawn(cpu, priority) => SpawnLeaves(s, cpu, priority, i);
    case EBootSpawn(priority) => SpawnUserInv(s, priority); SpawnUserLeaves(s, priority, i);
    case EPlain(cpu) => TailLeaves(s, cpu, i);
    case EYield(cpu) => SwitchBestLeaves(s, cpu, true, i);
    case ESleep(cpu, ms) => SwitchAwayLeaves(s, cpu,
        Current(s, cpu).(deadline := s.now + Clamp(ms), state := Blocked), i);
    case EExit(cpu) => SwitchAwayLeaves(s, cpu, Current(s, cpu).(state := Zombie), i);
  }

  lemma TickSleeps(s: Sys, cpu: nat, fromEl0: bool, i: nat)
    requires Sits(s, i) && cpu < MAX_CPUS && s.tasks[i].value.deadline > s.now
    ensures Untouched(s, Tick(s, cpu, fromEl0), i)
  {
    hide PickNext, PickNextRR, AnyExpired;
  }

  /** The first tick at or after its time makes a sleeper Ready, or it runs at once. */
  lemma WakesUp(s: Sys, e: Event, i: nat, until: nat)
    requires Inv(s) && Tame(s, e) && e.ETick? && Asleep(s, i, until) && s.now + e.elapsed >= until
    ensures var r := Step(s, e);
      Has(r, i) && r.tasks[i].value.state in {Ready, Running} && r.tasks[i].value.deadline == 0
  {
    hide Core, Tick, Exclusive, Chosen, Turn;
    BlockedSits(s, i);
    var s1, n := TickGoes(s, e.cpu, e.fromEl0, e.elapsed);
  }

  lemma InvFacts(s: Sys)
    requires Inv(s)
    ensures Typed(s) && Recorded(s)
  {
    hide Core;
    CoreTyped(s);
  }

  lemma StepTime(s: Sys, e: Event)
    requires Inv(s) && Tame(s, e)
    ensures Step(s, e).now == s.now + if e.ETick? then e.elapsed else 0
  {
    hide Core, Send, Receive, Sleep, Tail, Spawn, SwitchBest, Exit, Tick, IdleRound, Enter, SpawnUser;
    CoreTyped(s);
  }

  lemma {:induction false} RunTime(s: Sys, es: seq<Event>)
    requires Inv(s) && Possible(s, es)
    ensures s.now <= After(s, es).now
    decreases |es|
  {
    hide Inv, Step;
    if es != [] {
      StepInv(s, es[0]);
      StepTime(s, es[0]);
      RunTime(Step(s, es[0]), es[1..]);
    }
  }

  lemma {:induction false} SleepsOn(s: Sys, es: seq<Event>, i: nat, until: nat)
    requires Inv(s) && Possible(s, es) && Asleep(s, i, until) && After(s, es).now < until
    ensures Asleep(After(s, es), i, until)
    decreases |es|
  {
    hide Inv, Step, Asleep;
    if es != [] {
      StepInv(s, es[0]);
      RunTime(Step(s, es[0]), es[1..]);
      StaysAsleep(s, es[0], i, until);
      SleepsOn(Step(s, es[0]), es[1..], i, until);
    }
  }

  /** Over runs: a task that sleeps `ms` stays blocked through every run that ends before its time, and
      the first tick at or after that makes it Ready or Running. */
  lemma SleepsExactly(s: Sys, cpu: nat, ms: u32, es: seq<Event>, e: Event)
    requires Inv(s) && Calls(s, cpu)
    requires Possible(s, [ESleep(cpu, ms)] + es)
    ensures var r, i, until := After(s, [ESleep(cpu, ms)] + es), s.cur[cpu],
                s.now + (if ms == 0 then 1 else if ms <= 60000 then ms else 60000);
      && Inv(r)
      && (r.now < until ==> Has(r, i) && r.tasks[i].value.state == Blocked)
      && (Tame(r, e) && e.ETick? && r.now < until <= r.now + e.elapsed ==>
            Has(Step(r, e), i) && Step(r, e).tasks[i].value.state in {Ready, Running})
  {
    hide Inv, Step, Tame;
    var r0, run := Step(s, ESleep(cpu, ms)), [ESleep(cpu, ms)] + es;
    assert run[0] == ESleep(cpu, ms) && run[1..] == es;
    RunInv(s, run);
    StepInv(s, ESleep(cpu, ms));
    FallsAsleep(s, cpu, ms);
    var until := s.now + (if ms == 0 then 1 else if ms <= 60000 then ms else 60000);
    var r := After(r0, es);
    if r.now < until {
      SleepsOn(r0, es, s.cur[cpu], until);
      InvFacts(r);
      if Tame(r, e) && e.ETick? && until <= r.now + e.elapsed {
        WakesUp(r, e, s.cur[cpu], until);
      }
    }
  }

  // ── Spawning ───────────────────────────────────────────────────────────────

  /** A spawn enters a Ready task with the next id in the lowest free slot behind slot 0 and records it;
      with no free slot nothing happens. */
  lemma SpawnIs(s: Sys, priority: byte)
    requires Typed(s) && s.nextId < 0xFFFF_FFFF
    ensures var r := SpawnUser(s, priority);
      && ((forall i :: 1 <= i < 32 ==> s.tasks[i].Some?) ==> r == s)
      && forall i :: 1 <= i < 32 && s.tasks[i].None? && (forall j :: 1 <= j < i ==> s.tasks[j].Some?) ==>
           r == s.(nextId := s.nextId + 1, woken := Some(i), tasks := s.tasks[i := Some(
             Task(s.nextId, Ready, priority, None, false, -1, None, [None, None], None, 0))])
  {
    hide FirstFree;
    FreeIsFirst(s.tasks, 1);
  }

  lemma {:induction false} FreeIsFirst(tasks: seq<Option<Task>>, i: nat)
    requires i <= |tasks|
    ensures FirstFree(tasks, i).Some? ==> forall j :: i <= j < FirstFree(tasks, i).value ==> tasks[j].Some?
    decreases |tasks| - i
  {
    if i < |tasks| && tasks[i].Some? {
      FreeIsFirst(tasks, i + 1);
    }
  }

  // ── Messages ───────────────────────────────────────────────────────────────

  /** A receive with this filter takes messages from `src`: -1 stands for any sender. */
  predicate Takes(filter: i32, src: u32) {
    filter == -1 || (if filter < 0 then filter + 0x1_0000_0000 else filter) == src
  }

  lemma TakesIs(filter: i32, src: u32)
    ensures Takes(filter, src) <==> Matches(filter, src)
    ensures Takes(filter, src) <==> filter == -1 || filter == AsI32(src)
  {
  }

  /** The message as its receiver finds it: with the sender's id, whatever the sender wrote there. */
  function From(src: u32, msg: Message): Message {
    Message(src, msg.mtype, msg.data)
  }

  /** What a send does when the receiver sits in slot `d`: it fills the buffer of a receiver that waits for
      it, or queues the message in the lowest free place, or else keeps it at the sender; in the latter
      two cases the sender waits. */
  ghost predicate Sends(s: Sys, r: Sys, cpu: nat, d: nat, msg: Message)
    requires Typed(s) && cpu < 4 && Has(s, d)
  {
    var c, t := s.cur[cpu], s.tasks[d].value;
    var me := s.tasks[c].value;
    var s1 := s.(accepted := s.accepted + multiset{Delivery(t.id, From(me.id, msg))});
    if t.recvBlocked && Takes(t.recvFilter, me.id) then
      HandsOver(s1.(delivered := s.delivered + multiset{Delivery(t.id, From(me.id, msg))}, woken := Some(d),
                    tasks := s.tasks[d := Some(t.(recvBlocked := false, state := Ready,
                        buf := Some(From(me.id, msg))))]),
                r, cpu)
    else if t.pending[0].None? || t.pending[1].None? then
      var k := if t.pending[0].None? then 0 else 1;
      Leaves(s1.(tasks := s.tasks[d := Some(t.(pending := t.pending[k := Some(PendingSend(me.id, msg))]))]), r, cpu,
             me.(state := Blocked))
    else Leaves(s1, r, cpu, me.(staged := Some(StagedSend(t.id, me.id, msg)), state := Blocked))
  }

  /** A send to oneself or to nobody only returns. */
  lemma SendIs(s: Sys, cpu: nat, dst: u32, msg: Message, d: nat)
    requires Inv(s) && Calls(s, cpu)
    ensures Typed(s)
    ensures (dst == Current(s, cpu).id || forall i :: Has(s, i) ==> s.tasks[i].value.id != dst) ==>
              HandsOver(s, Step(s, ESend(cpu, dst, msg)), cpu)
    ensures dst != Current(s, cpu).id && Has(s, d) && s.tasks[d].value.id == dst ==>
              Sends(s, Step(s, ESend(cpu, dst, msg)), cpu, d, msg)
  {
    hide Core, Tail, SwitchAway, TaskIdx, HandsOver, Leaves, Takes;
    CoreTyped(s);
    InvFacts(s);
    TailGoes(s, cpu);
    if dst != Current(s, cpu).id && Has(s, d) && s.tasks[d].value.id == dst {
      SameTask(s, dst, d);
      SendsTo(s, cpu, dst, msg, d);
    }
  }

  lemma SameTask(s: Sys, id: u32, d: nat)
    requires Inv(s) && Has(s, d) && s.tasks[d].value.id == id
    ensures TaskIdx(s.tasks, id) == Some(d)
  {
    hide TaskIdx;
    var i := TaskIdx(s.tasks, id);
    SameSlot(s, d, i.value);
  }

  lemma SendsTo(s: Sys, cpu: nat, dst: u32, msg: Message, d: nat)
    requires Typed(s) && Recorded(s) && Calls(s, cpu) && dst != Current(s, cpu).id
    requires TaskIdx(s.tasks, dst) == Some(d)
    ensures Has(s, d) && Sends(s, Send(s, cpu, dst, msg), cpu, d, msg)
  {
    hide Tail, SwitchAway, TaskIdx, HandsOver, Leaves, Takes;
    var me, t := Current(s, cpu), s.tasks[d].value;
    TakesIs(t.recvFilter, me.id);
    assert d != s.cur[cpu];
    var s1 := Accept(s, dst, me.id, msg);
    if t.recvBlocked && Takes(t.recvFilter, me.id) {
      TailGoes(Deliver(s1, d, me.id, msg).(woken := Some(d)), cpu);
    } else if FreeSlot(t.pending).Some? {
      var s2 := Put(s1, d, t.(pending := t.pending[FreeSlot(t.pending).value := Some(PendingSend(me.id, msg))]));
      SwitchAwayGoes(s2, cpu, me.(state := Blocked));
    } else {
      SwitchAwayGoes(s1, cpu, me.(staged := Some(StagedSend(dst, me.id, msg)), state := Blocked));
    }
  }

  /** Place `k` of the queue holds the first message the filter takes. */
  predicate FirstTaken(q: seq<Option<PendingSend>>, filter: i32, k: int) {
    && 0 <= k < |q| && q[k].Some? && Takes(filter, q[k].value.src)
    && forall j :: 0 <= j < k ==> !(q[j].Some? && Takes(filter, q[j].value.src))
  }

  /** Slot `j` holds a message for `me` that the filter takes. */
  predicate HoldsFor(s: Sys, j: int, me: u32, filter: i32) {
    && 1 <= j < |s.tasks| && s.tasks[j].Some? && s.tasks[j].value.staged.Some? && s.tasks[j].value.state != Zombie
    && s.tasks[j].value.staged.value.dst == me && Takes(filter, s.tasks[j].value.staged.value.src)
  }

  /** The caller gets `msg` from `src` and the sender in slot `w` may run. */
  ghost predicate Gets(s: Sys, s1: Sys, r: Sys, cpu: nat, w: nat, src: u32, msg: Message)
    requires Typed(s) && cpu < 4
  {
    var c := s.cur[cpu];
    && Has(s1, c) && Has(s1, w) && w != c
    && HandsOver(s1.(delivered := s.delivered + multiset{Delivery(s.tasks[c].value.id, From(src, msg))},
                     woken := Some(w),
                     tasks := s1.tasks[c := Some(s1.tasks[c].value.(buf := Some(From(src, msg))))]
                                      [w := Some(s1.tasks[w].value.(state := Ready))]), r, cpu)
  }

  lemma PendingIs(q: seq<Option<PendingSend>>, filter: i32)
    requires |q| == 2
    ensures FirstPending(q, filter).Some? ==> FirstTaken(q, filter, FirstPending(q, filter).value)
    ensures FirstPending(q, filter).None? ==> forall k :: !FirstTaken(q, filter, k)
  {
    forall j | 0 <= j < 2 && q[j].Some? ensures Takes(filter, q[j].value.src) == Matches(filter, q[j].value.src) {
      TakesIs(filter, q[j].value.src);
    }
  }

  lemma HoldsIs(s: Sys, j: nat, me: u32, filter: i32)
    requires 1 <= j < |s.tasks|
    ensures HoldsFor(s, j, me, filter) <==> StagedFor(s.tasks[j], me, filter)
  {
    if s.tasks[j].Some? && s.tasks[j].value.staged.Some? {
      TakesIs(filter, s.tasks[j].value.staged.value.src);
    }
  }

  /** A receive takes the first message of its queue that the filter takes, ... */
  lemma ReceiveQueued(s: Sys, cpu: nat, filter: i32, k: nat) returns (w: nat)
    requires Inv(s) && Calls(s, cpu) && Typed(s) && FirstTaken(Current(s, cpu).pending, filter, k)
    ensures var me, c, r := Current(s, cpu), s.cur[cpu], Step(s, EReceive(cpu, filter));
      var p := me.pending[k].value;
      && Has(s, w) && s.tasks[w].value.id == p.src
      && Gets(s, s.(tasks := s.tasks[c := Some(me.(pending := me.pending[k := None]))]), r, cpu, w, p.src, p.msg)
  {
    hide Core, FirstPending, Takes, Matches, Receive, Gets;
    var q := Current(s, cpu).pending;
    PendingIs(q, filter);
    OneFirst(q, filter, k);
    w := TakesQueued(s, cpu, filter, k);
  }

  /** ... or else the one kept for it at the lowest slot, ... */
  lemma ReceiveStaged(s: Sys, cpu: nat, filter: i32, j: nat)
    requires Inv(s) && Calls(s, cpu) && Typed(s) && forall k :: !FirstTaken(Current(s, cpu).pending, filter, k)
    requires HoldsFor(s, j, Current(s, cpu).id, filter)
    requires forall i :: 1 <= i < j ==> !HoldsFor(s, i, Current(s, cpu).id, filter)
    ensures var g, r := s.tasks[j].value.staged.value, Step(s, EReceive(cpu, filter));
      Gets(s, s.(tasks := s.tasks[j := Some(s.tasks[j].value.(staged := None))]), r, cpu, j, g.src, g.msg)
  {
    hide Core, FirstPending, FirstStaged, Takes, Matches, Receive, Gets, HoldsFor, StagedFor, FirstTaken;
    var me := Current(s, cpu);
    PendingIs(me.pending, filter);
    LowestStaged(s, me.id, filter);
    HoldsRange(s, me.id, filter);
    StagedGets(s, cpu, filter, j);
  }

  /** ... or else it waits with that filter. */
  lemma ReceiveWaits(s: Sys, cpu: nat, filter: i32)
    requires Inv(s) && Calls(s, cpu) && Typed(s) && forall k :: !FirstTaken(Current(s, cpu).pending, filter, k)
    requires forall j :: !HoldsFor(s, j, Current(s, cpu).id, filter)
    ensures Leaves(s, Step(s, EReceive(cpu, filter)), cpu,
                   Current(s, cpu).(recvBlocked := true, recvFilter := filter, state := Blocked))
  {
    hide Core, FirstPending, FirstStaged, Takes, Matches, SwitchAway, Leaves, HoldsFor, StagedFor, FirstTaken;
    var me := Current(s, cpu);
    PendingIs(me.pending, filter);
    LowestStaged(s, me.id, filter);
    SwitchAwayGoes(s, cpu, me.(recvBlocked := true, recvFilter := filter, state := Blocked));
  }

  lemma LowestStaged(s: Sys, me: u32, filter: i32)
    requires Typed(s)
    ensures var g := FirstStaged(s.tasks, me, filter, 1);
      && (g.Some? ==> HoldsFor(s, g.value, me, filter) && forall i :: 1 <= i < g.value ==> !HoldsFor(s, i, me, filter))
      && (g.None? ==> forall j :: !HoldsFor(s, j, me, filter))
  {
    hide FirstStaged, HoldsFor, StagedFor;
    forall j | 1 <= j < 32 ensures HoldsFor(s, j, me, filter) <==> StagedFor(s.tasks[j], me, filter) {
      HoldsIs(s, j, me, filter);
    }
    HoldsRange(s, me, filter);
  }

  lemma OneFirst(q: seq<Option<PendingSend>>, filter: i32, k: nat)
    requires FirstTaken(q, filter, k)
    ensures forall j :: FirstTaken(q, filter, j) ==> j == k
  {
  }

  lemma TakesQueued(s: Sys, cpu: nat, filter: i32, k: nat) returns (w: nat)
    requires Inv(s) && Calls(s, cpu) && Typed(s) && k < 2
    requires FirstPending(Current(s, cpu).pending, filter) == Some(k)
    ensures var me, c := Current(s, cpu), s.cur[cpu];
      var p := me.pending[k].value;
      && Has(s, w) && s.tasks[w].value.id == p.src
      && Gets(s, s.(tasks := s.tasks[c := Some(me.(pending := me.pending[k := None]))]), Receive(s, cpu, filter),
         cpu, w,
              p.src, p.msg)
  {
    hide Core, Tail, TaskIdx, FirstPending, HandsOver, Matches, Exclusive;
    w := TakeQueuedCore(s, cpu, k);
    var s1 := TakeQueued(s, cpu, k);
    InvFacts(s);
    TailGoes(Put(s1, w, s1.tasks[w].value.(state := Ready)).(woken := Some(w)), cpu);
    var c, me := s.cur[cpu], Current(s, cpu);
    var p, t := me.pending[k].value, me.(pending := me.pending[k := None]);
    assert s.tasks[c := Some(t)][c := Some(t.(buf := Some(From(p.src, p.msg))))] == s1.tasks;
  }

  lemma HoldsRange(s: Sys, me: u32, filter: i32)
    ensures forall j :: HoldsFor(s, j, me, filter) ==>
      1 <= j < |s.tasks| && s.tasks[j].Some? && s.tasks[j].value.staged.Some?
  {
  }

  lemma StagedGets(s: Sys, cpu: nat, filter: i32, j: nat)
    requires Inv(s) && Calls(s, cpu) && Typed(s) && FirstPending(Current(s, cpu).pending, filter).None?
    requires FirstStaged(s.tasks, Current(s, cpu).id, filter, 1) == Some(j)
    ensures var g := s.tasks[j].value.staged.value;
      Gets(s, s.(tasks := s.tasks[j := Some(s.tasks[j].value.(staged := None))]), Receive(s, cpu, filter), cpu, j,
          g.src,
           g.msg)
  {
    hide Core, Tail, FirstPending, FirstStaged, HandsOver, Matches, Exclusive;
    TakeStagedCore(s, cpu, j);
    InvFacts(s);
    TailGoes(TakeStaged(s, cpu, j).(woken := Some(j)), cpu);
    var t := s.tasks[j].value;
    var c := s.cur[cpu];
    var me := Some(s.tasks[c].value.(buf := Some(From(t.staged.value.src, t.staged.value.msg))));
    assert s.tasks[j := Some(t.(staged := None))][c := me][j := Some(t.(staged := None, state := Ready))]
        == TakeStaged(s, cpu, j).tasks;
  }

  // ── Ticks on a secondary ───────────────────────────────────────────────────

  /** A tick in user code takes the CPU from its task for the idle slot if and only if the CPU is a
      secondary and no task that can run comes before its idle slot, or the idle slot cannot run and
      no task can. */
  lemma TickIdles(s: Sys, cpu: nat, elapsed: nat) returns (s1: Sys)
    requires Inv(s) && Calls(s, cpu)
    ensures Awoken(s.(now := s.now + elapsed), s1)
    ensures var r, c, idle := Step(s, ETick(cpu, true, elapsed)), s.cur[cpu], if cpu == 0 then 0 else 15 + cpu;
      && c < 32 && idle < 32 && cpu < |r.cur|
      && (r.cur[cpu] == idle <==>
            cpu > 0 && forall i :: Can(s1, cpu, i) && i != c && i != idle ==>
              Can(s1, cpu, idle) && Steps(c, idle) < Steps(c, i))
  {
    hide Core, Exclusive, Chosen, Turn, Tick, Can, Awoken, Steps;
    CoreTyped(s);
    NowRunning(s, cpu);
    var n;
    s1, n := TickGoes(s, cpu, true, elapsed);
    StillRuns(s.(now := s.now + elapsed), s1, s.cur[cpu], s, cpu);
    CanRange(s1, cpu);
    var c, idle := s.cur[cpu], if cpu == 0 then 0 else 15 + cpu;
    if exists i :: Can(s1, cpu, i) && i != c {
      TurnMeans(s1, cpu, n);
      if n == idle {
        forall i | Can(s1, cpu, i) && i != c && i != idle ensures Steps(c, idle) < Steps(c, i) {
          StepsDiffer(c, idle, i);
        }
      }
    }
  }

  lemma StillRuns(s0: Sys, s1: Sys, i: nat, s: Sys, cpu: nat)
    requires Inv(s) && s0 == s.(now := s0.now) && Awoken(s0, s1) && Has(s, i) && s.tasks[i].value.state == Running
    ensures Has(s1, i) && s1.tasks[i] == s.tasks[i] && s1.cur == s.cur
  {
    NoReason(s, i);
  }

  lemma TurnMeans(s: Sys, cpu: nat, n: nat)
    requires Turn(s, cpu, n)
    ensures Can(s, cpu, n) && n != s.cur[cpu] && n < 32
    ensures forall i :: Can(s, cpu, i) && i != s.cur[cpu] ==> Steps(s.cur[cpu], n) <= Steps(s.cur[cpu], i)
  {
  }

  lemma StepsDiffer(c: nat, n: nat, m: nat)
    requires c < 32 && n < 32 && m < 32
    ensures Steps(c, n) == Steps(c, m) <==> n == m
  {
  }

  /** Only slot 1 holds a task; nobody sleeps. */
  ghost predicate Lone(s: Sys) {
    && |s.tasks| == 32
    && (forall i :: Has(s, i) ==> s.tasks[i].value.deadline == 0 && (i == 1 || IsIdle(i)))
    && (forall i :: Has(s, i) && i != 1 && i != 16 ==> s.tasks[i].value.state == Running)
  }

  lemma BootTable(s: Sys)
    requires Booted(s)
    ensures Inv(s) && Typed(s) && s.cur == [0, 0, 0, 0] && s.nextId == 1 && Lone(s)
    ensures s.tasks[1].None? && Has(s, 16) && s.tasks[16].value.state == Running
  {
    hide Inv;
    BootInv(s);
    InvFacts(s);
  }

  lemma SpawnFirst(s: Sys, p: byte)
    requires Typed(s) && s.nextId == 1 && s.tasks[1].None?
    ensures SpawnUser(s, p) == s.(nextId := 2, woken := Some(1), tasks := s.tasks[1 := Some(
              Task(1, Ready, p, None, false, -1, None, [None, None], None, 0))])
  {
  }

  lemma BootLone(s: Sys, p: byte)
    requires Booted(s)
    ensures Inv(s) && s.cur == [0, 0, 0, 0] && Typed(s) && s.nextId == 1
    ensures var s1 := SpawnUser(s, p);
      && Lone(s1) && s1.cur == s.cur && Has(s1, 1) && s1.tasks[1].value.state == Ready
      && s1.tasks[1].value.affinity == None && Has(s1, 16) && s1.tasks[16].value.state == Running
  {
    hide Booted, Inv, SpawnUser;
    BootTable(s);
    SpawnFirst(s, p);
  }

  lemma OnlyOne(s: Sys, cpu: nat)
    requires Lone(s) && Has(s, 16) && s.tasks[16].value.state == Running
    ensures forall i :: Can(s, cpu, i) ==> i == 1
  {
  }

  /** The only task, spawned at boot and taken up by CPU 1, is Ready again after the first tick there,
      and the CPU idle. */
  ghost predicate EndsIdle(s: Sys, p: byte) {
    && Inv(s) && Tame(s, EBootSpawn(p))
    && var s1 := Step(s, EBootSpawn(p));
       && Inv(s1) && Tame(s1, EIdle(1))
       && var s2 := Step(s1, EIdle(1));
          && Inv(s2) && Tame(s2, ETick(1, true, 1)) && s2.cur[1] == 1 && s2.tasks[1].value.state == Running
          && var s3 := Step(s2, ETick(1, true, 1));
             |s3.cur| == 4 && s3.cur[1] == 16 && Has(s3, 1) && s3.tasks[1].value.state == Ready
  }

  /** One failing input. */
  lemma LoneTask(s: Sys, p: byte)
    requires Booted(s)
    ensures EndsIdle(s, p)
  {
    hide Core, Booted, SpawnUser, Chosen, Tick, IdleRound, Lone;
    BootLone(s, p);
    InvFacts(s);
    StepInv(s, EBootSpawn(p));
    var s1 := Step(s, EBootSpawn(p));
    var s2 := LoneRuns(s1);
    var s3 := LoneIdles(s2);
  }

  lemma LoneRuns(s: Sys) returns (r: Sys)
    requires Inv(s) && Lone(s) && s.cur == [0, 0, 0, 0] && Has(s, 1) && Has(s, 16)
    requires s.tasks[1].value.state == Ready && s.tasks[1].value.affinity == None && s.tasks[16].value.state == Running
    ensures Typed(s) && Recorded(s) && Tame(s, EIdle(1)) && r == Step(s, EIdle(1)) && Inv(r)
    ensures Lone(r) && r.cur == [0, 1, 0, 0] && Has(r, 1) && r.tasks[1].value.state == Running
        && Has(r, 16) && r.tasks[16].value.state == Ready
  {
    hide Core, IdleRound, Chosen;
    InvFacts(s);
    StepInv(s, EIdle(1));
    r := Step(s, EIdle(1));
    var n := IdleGoes(s, 1);
    OnlyOne(s, 1);
    assert Can(s, 1, 1);
    ChosenOne(s, 1, n);
  }

  lemma ChosenOne(s: Sys, cpu: nat, n: nat)
    requires Chosen(s, cpu, n) && Can(s, cpu, 1) && forall i :: Can(s, cpu, i) ==> i == 1
    ensures n == 1
  {
  }

  lemma LoneIdles(s: Sys) returns (r: Sys)
    requires Inv(s) && Lone(s) && s.cur == [0, 1, 0, 0] && Has(s, 1) && s.tasks[1].value.state == Running
    requires Has(s, 16) && s.tasks[16].value.state == Ready
    ensures Typed(s) && Recorded(s) && Tame(s, ETick(1, true, 1)) && r == Step(s, ETick(1, true, 1)) && Inv(r)
    ensures |r.cur| == 4 && r.cur[1] == 16 && Has(r, 1) && r.tasks[1].value.state == Ready
  {
    hide Core, Tick, Chosen, Turn;
    InvFacts(s);
    StepInv(s, ETick(1, true, 1));
    r := Step(s, ETick(1, true, 1));
    var s1 := TickIdles(s, 1, 1);
    assert s1.tasks == s.tasks;
    var s2, n := TickGoes(s, 1, true, 1);
    assert s2.tasks == s.tasks;
  }

  // ── What never changes ─────────────────────────────────────────────────────

  /** Nobody's id, priority or CPU changed, and nobody left the table. */
  ghost predicate SameWho(s: Sys, r: Sys) {
    && |r.tasks| == |s.tasks|
    && forall i :: Has(s, i) ==>
         && Has(r, i) && r.tasks[i].value.id == s.tasks[i].value.id
         && r.tasks[i].value.priority == s.tasks[i].value.priority
         && r.tasks[i].value.affinity == s.tasks[i].value.affinity
  }

  predicate Same(t: Task, u: Task) {
    t.id == u.id && t.priority == u.priority && t.affinity == u.affinity
  }

  lemma WhoThen(s: Sys, s1: Sys, r: Sys)
    requires SameWho(s, s1) && SameWho(s1, r)
    ensures SameWho(s, r)
  {
  }

  lemma TailWho(s: Sys, cpu: nat)
    requires Typed(s) && Recorded(s) && cpu < 4
    ensures SameWho(s, Tail(s, cpu))
  {
  }

  lemma AwayWho(s: Sys, cpu: nat, t: Task)
    requires Typed(s) && cpu < 4 && |t.pending| == 2 && Same(t, Current(s, cpu))
    ensures SameWho(s, SwitchAway(s, cpu, t))
  {
    hide PickNext;
  }

  lemma BestWho(s: Sys, cpu: nat, strict: bool)
    requires Typed(s) && cpu < 4
    ensures SameWho(s, SwitchBest(s, cpu, strict))
  {
    hide PickNext, PickNextRR;
  }

  lemma IdleWho(s: Sys, cpu: nat)
    requires Typed(s) && cpu < 4
    ensures SameWho(s, IdleRound(s, cpu)) && SameWho(s, Enter(s))
  {
    hide PickNext;
  }

  lemma TickWho(s: Sys, cpu: nat, fromEl0: bool)
    requires Typed(s) && cpu < 4
    ensures SameWho(s, Tick(s, cpu, fromEl0))
  {
    hide PickNext, SwitchBest, AnyExpired;
    BestWho(WakeSleepers(s), cpu, false);
  }

  lemma SpawnWho(s: Sys, priority: byte)
    requires Typed(s) && s.nextId < 0xFFFF_FFFF
    ensures SameWho(s, SpawnUser(s, priority))
  {
    hide FirstFree;
  }

  lemma SendWho(s: Sys, cpu: nat, dst: u32, msg: Message)
    requires Typed(s) && Recorded(s) && cpu < 4
    ensures SameWho(s, Send(s, cpu, dst, msg))
  {
    hide Tail, SwitchAway, TaskIdx;
    TailWho(s, cpu);
    var me, d := Current(s, cpu), TaskIdx(s.tasks, dst);
    if dst != me.id && d.Some? {
      var t, s1 := s.tasks[d.value].value, Accept(s, dst, me.id, msg);
      if t.recvBlocked && (t.recvFilter == M_ANY || t.recvFilter == AsI32(me.id)) {
        TailWho(Deliver(s1, d.value, me.id, msg).(woken := d), cpu);
      } else if FreeSlot(t.pending).Some? {
        var s2 := Put(s1, d.value,
            t.(pending := t.pending[FreeSlot(t.pending).value := Some(PendingSend(me.id, msg))]));
        AwayWho(s2, cpu, Current(s2, cpu).(state := Blocked));
      } else {
        AwayWho(s1, cpu, me.(staged := Some(StagedSend(dst, me.id, msg)), state := Blocked));
      }
    }
  }

  lemma ReceiveWho(s: Sys, cpu: nat, filter: i32)
    requires Typed(s) && Recorded(s) && cpu < 4
    ensures SameWho(s, Receive(s, cpu, filter))
  {
    hide Tail, SwitchAway, TaskIdx, FirstPending, FirstStaged;
    var me := Current(s, cpu);
    var k := FirstPending(me.pending, filter);
    if k.Some? {
      var s1 := TakeQueued(s, cpu, k.value);
      var i := TaskIdx(s1.tasks, me.pending[k.value].value.src);
      if i.Some? && s1.tasks[i.value].value.state != Zombie {
        TailWho(Put(s1, i.value, s1.tasks[i.value].value.(state := Ready)).(woken := i), cpu);
      } else {
        TailWho(s1, cpu);
      }
    } else {
      var j := FirstStaged(s.tasks, me.id, filter, 1);
      if j.Some? {
        TailWho(TakeStaged(s, cpu, j.value).(woken := j), cpu);
      } else {
        AwayWho(s, cpu, me.(recvBlocked := true, recvFilter := filter, state := Blocked));
      }
    }
  }

  /** No event changes who a task is, and the idle contexts stay last. */
  lemma StepWho(s: Sys, e: Event)
    requires Inv(s) && Tame(s, e)
    ensures SameWho(s, Step(s, e)) && (IdleLast(s) ==> IdleLast(Step(s, e)))
  {
    hide Core, Send, Receive, Tail, SwitchAway, SwitchBest, Tick, IdleRound, Enter, SpawnUser, SameWho;
    InvFacts(s);
    match e {
    case ESend(cpu, dst, msg) => SendWho(s, cpu, dst, msg);
    case EReceive(cpu, filter) => ReceiveWho(s, cpu, filter);
    case ESleep(cpu, ms) => AwayWho(s, cpu, Current(s, cpu).(deadline := s.now + Clamp(ms), state := Blocked));
    case EPlain(cpu) => TailWho(s, cpu);
    case ESpawn(cpu, priority) => SpawnUserInv(s, priority); SpawnTailWho(s, cpu, priority);
    case EYield(cpu) => BestWho(s, cpu, true);
    case EExit(cpu) => AwayWho(s, cpu, Current(s, cpu).(state := Zombie));
    case ETick(cpu, fromEl0, elapsed) => TickTimeWho(s, cpu, fromEl0, elapsed);
    case EIdle(cpu) => IdleWho(s, cpu);
    case EEnter => IdleWho(s, 0);
    case EBootSpawn(priority) => SpawnUserInv(s, priority); SpawnWho(s, priority);
    }
    if IdleLast(s) {
      IdleStays(s, Step(s, e));
    }
  }

  lemma SpawnTailWho(s: Sys, cpu: nat, priority: byte)
    requires Inv(s) && Typed(s) && cpu < 4 && s.nextId < 0xFFFF_FFFF && Inv(SpawnUser(s, priority)) && Recorded(s)
    ensures SameWho(s, Spawn(s, cpu, priority))
  {
    hide Core, Tail, SpawnUser, SameWho;
    SpawnWho(s, priority);
    InvFacts(SpawnUser(s, priority));
    TailWho(SpawnUser(s, priority), cpu);
    WhoThen(s, SpawnUser(s, priority), Spawn(s, cpu, priority));
  }

  lemma TickTimeWho(s: Sys, cpu: nat, fromEl0: bool, elapsed: nat)
    requires Typed(s) && cpu < 4
    ensures Typed(s.(now := s.now + elapsed)) && SameWho(s, Tick(s.(now := s.now + elapsed), cpu, fromEl0))
  {
    hide Tick;
    TickWho(s.(now := s.now + elapsed), cpu, fromEl0);
  }

  lemma IdleStays(s: Sys, r: Sys)
    requires Typed(s) && SameWho(s, r) && IdleLast(s)
    ensures IdleLast(r)
  {
  }
}
