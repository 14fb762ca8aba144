/** The scheduler and IPC syscalls as they run: a mutable task table under one lock. */
module Kernel {
  import opened Bytes
  import opened SchedSpec
  import opened SchedRuns

  class Scheduler {
    const tasks: array<Option<Task>>
    const current: array<nat> // per-CPU current slot
    var woken: Option<nat>
    var nextId: u32
    var ticks: nat
    ghost var accepted: multiset<Delivery>
    ghost var delivered: multiset<Delivery>

    ghost function Abs(): Sys
      reads this, tasks, current
    {
      Sys(tasks[..], current[..], woken, nextId, ticks, accepted, delivered)
    }

    ghost predicate Valid()
      reads this, tasks, current
    {
      tasks.Length == MAX_TASKS && current.Length == MAX_CPUS && Typed(Abs())
    }

    /** The table with the boot context, then the idle slot of every other CPU. */
    constructor ()
      ensures Valid() && Booted(Abs()) && ticks == 0 && fresh(tasks) && fresh(current)
    {
      tasks := new Option<Task>[MAX_TASKS](_ => None);
      current := new nat[MAX_CPUS](_ => 0);
      woken, nextId, ticks := None, 1, 0;
      accepted, delivered := multiset{}, multiset{};
      new;
      tasks[0] := Some(IdleTask(0));
      for cpu := 1 to MAX_CPUS
        invariant forall i :: 0 <= i < MAX_TASKS ==>
                    tasks[i] == if i == 0 || IDLE_SLOT_BASE <= i < IDLE_SLOT_BASE + cpu - 1 then Some(IdleTask(i))
                        else None
        invariant forall c :: 0 <= c < MAX_CPUS ==> current[c] == 0
        invariant woken == None && nextId == 1 && ticks == 0 && accepted == delivered == multiset{}
      {
        tasks[IdleSlot(cpu)] := Some(IdleTask(IdleSlot(cpu)));
      }
      assert current[..] == [0, 0, 0, 0];
      assert tasks[..][0] == tasks[0];
    }

    // ── Picking ──────────────────────────────────────────────────────────────

    method PickNext(cpu: nat) returns (r: nat)
      requires Valid() && cpu < MAX_CPUS
      ensures r == SchedSpec.PickNext(Abs(), cpu)
    {
      var n, cur := tasks.Length, current[cpu];
      var best: Option<(byte, nat)> := None;
      for idx := 1 to n
        invariant best.None? ==> Best(Abs(), cpu, idx).None?
        invariant best.Some? ==>
                    && Best(Abs(), cpu, idx) == Some(best.value.1)
                    && best.value.0 == tasks[best.value.1].value.priority
      {
        if tasks[idx].Some? {
          var t := tasks[idx].value;
          if t.affinity.Some? && t.affinity.value != cpu {
            continue;
          }
          if t.state == Ready {
            var forward := (idx + n - cur - 1) % n;
            if best.None? {
              best := Some((t.priority, idx));
            } else {
              var bfwd := (best.value.1 + n - cur - 1) % n;
              if t.priority < best.value.0 || (t.priority == best.value.0 && forward < bfwd) {
                best := Some((t.priority, idx));
              }
            }
          }
        }
      }
      r := if best.Some? then best.value.1 else IdleSlot(cpu);
    }

    method PickNextRR(cpu: nat, exclude: nat) returns (r: nat)
      requires Valid() && cpu < MAX_CPUS
      ensures r == SchedSpec.PickNextRR(Abs(), cpu, exclude)
    {
      var n, cur := tasks.Length, current[cpu];
      var best: Option<nat> := None;
      for idx := 1 to n
        invariant best == Nearest(Abs(), cpu, exclude, idx)
      {
        if idx == exclude {
          continue;
        }
        if tasks[idx].Some? {
          var t := tasks[idx].value;
          if t.affinity.Some? && t.affinity.value != cpu {
            continue;
          }
          if t.state == Ready {
            var forward := (idx + n - cur - 1) % n;
            if best.None? || forward < (best.value + n - cur - 1) % n {
              best := Some(idx);
            }
          }
        }
      }
      r := if best.Some? then best.value else IdleSlot(cpu);
    }

    // ── Switching ────────────────────────────────────────────────────────────

    method SetTask(i: nat, t: Task)
      requires Valid() && i < MAX_TASKS && |t.pending| == 2
      modifies tasks
      ensures Valid() && Abs() == Put(old(Abs()), i, t)
    {
      tasks[i] := Some(t);
    }

    /** Slot `n` becomes Running and current on `cpu`. */
    method ResumeOn(cpu: nat, n: nat)
      requires Valid() && cpu < MAX_CPUS && n < MAX_TASKS && tasks[n].Some?
      modifies tasks, current
      ensures Valid() && Abs() == Resume(old(Abs()), cpu, n)
    {
      tasks[n] := Some(tasks[n].value.(state := Running));
      current[cpu] := n;
    }

    /** Parks the caller as `t` and runs the best other task. */
    method SwitchAway(cpu: nat, t: Task)
      requires Valid() && cpu < MAX_CPUS && |t.pending| == 2
      modifies tasks, current
      ensures Valid() && Abs() == SchedSpec.SwitchAway(old(Abs()), cpu, t)
    {
      SetTask(current[cpu], t);
      var next := PickNext(cpu);
      ResumeOn(cpu, next);
    }

    /** The syscall tail. */
    method Reschedule(cpu: nat)
      requires Valid() && cpu < MAX_CPUS
      requires Recorded(Abs())
      modifies this`woken, tasks, current
      ensures Valid() && Abs() == Tail(old(Abs()), cpu)
    {
      if woken.None? {
        return;
      }
      var w, cur := woken.value, current[cpu];
      woken := None;
      if cur == IdleSlot(cpu) {
        return;
      }
      if tasks[w].value.priority >= tasks[cur].value.priority {
        return;
      }
      SetTask(cur, tasks[cur].value.(state := Ready));
      ResumeOn(cpu, w);
    }

    method SwitchBest(cpu: nat, strict: bool)
      requires Valid() && cpu < MAX_CPUS
      modifies tasks, current
      ensures Valid() && Abs() == SchedSpec.SwitchBest(old(Abs()), cpu, strict)
    {
      var cur := current[cpu];
      if cur == 0 || tasks[cur].value.state != Running {
        return;
      }
      var next;
      if strict {
        next := PickNext(cpu);
      } else {
        next := PickNextRR(cpu, cur);
      }
      if next == cur || next == 0 {
        return;
      }
      if strict && tasks[next].value.priority >= tasks[cur].value.priority {
        return;
      }
      SetTask(cur, tasks[cur].value.(state := Ready));
      ResumeOn(cpu, next);
    }

    // ── IPC ──────────────────────────────────────────────────────────────────

    method TaskIdx(id: u32) returns (r: Option<nat>)
      requires Valid()
      ensures r == SchedSpec.TaskIdx(Abs().tasks, id)
    {
      for i := 0 to tasks.Length
        invariant SchedSpec.TaskIdx(Abs().tasks, id) == TaskIdxFrom(Abs().tasks, id, i)
      {
        if tasks[i].Some? && tasks[i].value.id == id {
          return Some(i);
        }
      }
      r := None;
    }

    /** The buffer of `d` is filled and `d` leaves its wait. */
    method Deliver(d: nat, src: u32, msg: Message)
      requires Valid() && d < MAX_TASKS && tasks[d].Some?
      modifies this`delivered, tasks
      ensures Valid() && Abs() == SchedSpec.Deliver(old(Abs()), d, src, msg)
    {
      var t := tasks[d].value;
      tasks[d] := Some(t.(recvBlocked := false, state := Ready, buf := Some(Stamp(msg, src))));
      delivered := delivered + multiset{Delivery(t.id, Stamp(msg, src))};
    }

    method SysSend(cpu: nat, dst: u32, msg: Message) returns (code: int)
      requires Valid() && Recorded(Abs()) && cpu < MAX_CPUS
      modifies this, tasks, current
      ensures Valid() && Abs() == Send(old(Abs()), cpu, dst, msg)
      ensures code == if dst == old(Current(Abs(), cpu)).id then -2
                      else if old(SchedSpec.TaskIdx(Abs().tasks, dst)).None? then -3 else 0
    {
      hide SchedSpec.TaskIdx, SchedSpec.SwitchAway, Tail, Matches;
      var me := tasks[current[cpu]].value;
      if dst == me.id {
        Reschedule(cpu);
        return -2;
      }
      var d := TaskIdx(dst);
      if d.None? {
        Reschedule(cpu);
        return -3;
      }
      var t := tasks[d.value].value;
      accepted := accepted + multiset{Delivery(dst, Stamp(msg, me.id))};
      if t.recvBlocked && (t.recvFilter == M_ANY || t.recvFilter == AsI32(me.id)) {
        Deliver(d.value, me.id, msg);
        woken := d;
        Reschedule(cpu);
        return 0;
      }
      var k := FirstEmpty(t.pending);
      if k.None? {
        SwitchAway(cpu, me.(staged := Some(StagedSend(dst, me.id, msg)), state := Blocked));
        return 0;
      }
      SetTask(d.value, t.(pending := t.pending[k.value := Some(PendingSend(me.id, msg))]));
      SwitchAway(cpu, tasks[current[cpu]].value.(state := Blocked));
      return 0;
    }

    static method FirstEmpty(q: seq<Option<PendingSend>>) returns (k: Option<nat>)
      requires |q| == 2
      ensures k == FreeSlot(q)
    {
      for i := 0 to 2
        invariant forall j :: 0 <= j < i ==> q[j].Some?
      {
        if q[i].None? {
          return Some(i);
        }
      }
      k := None;
    }

    method SysReceive(cpu: nat, filter: i32)
      requires Valid() && Recorded(Abs()) && cpu < MAX_CPUS
      modifies this, tasks, current
      ensures Valid() && Abs() == Receive(old(Abs()), cpu, filter)
    {
      hide SchedSpec.TaskIdx, SchedSpec.SwitchAway, Tail, Matches, FirstStaged;
      var m := current[cpu];
      var me := tasks[m].value;
      var k := MatchPending(me.pending, filter);
      if k.Some? {
        var p := me.pending[k.value].value;
        TakeInto(m, me.(pending := me.pending[k.value := None]), p.src, p.msg);
        var i := TaskIdx(p.src);
        if i.Some? {
          var t := tasks[i.value].value;
          if t.state != Zombie {
            SetTask(i.value, t.(state := Ready));
            woken := i;
          }
        }
        Reschedule(cpu);
        return;
      }
      var j := FindStaged(me.id, filter);
      if j.Some? {
        var t := tasks[j.value].value;
        SetTask(j.value, t.(staged := None, state := Ready));
        TakeInto(m, tasks[m].value, t.staged.value.src, t.staged.value.msg);
        woken := j;
        Reschedule(cpu);
        return;
      }
      SwitchAway(cpu, me.(recvBlocked := true, recvFilter := filter, state := Blocked));
    }

    /** The running caller's buffer is filled. */
    method TakeInto(m: nat, t: Task, src: u32, msg: Message)
      requires Valid() && m < MAX_TASKS && |t.pending| == 2
      modifies this`delivered, tasks
      ensures Valid()
      ensures Abs() == Put(old(Abs()), m, t.(buf := Some(Stamp(msg, src))))
                       .(delivered := old(delivered) + multiset{Delivery(t.id, Stamp(msg, src))})
    {
      tasks[m] := Some(t.(buf := Some(Stamp(msg, src))));
      delivered := delivered + multiset{Delivery(t.id, Stamp(msg, src))};
    }

    static method MatchPending(q: seq<Option<PendingSend>>, filter: i32) returns (k: Option<nat>)
      requires |q| == 2
      ensures k == FirstPending(q, filter)
    {
      for i := 0 to 2
        invariant forall j :: 0 <= j < i ==> !(q[j].Some? && Matches(filter, q[j].value.src))
      {
        if q[i].Some? && (filter == M_ANY || q[i].value.src == AsU32(filter)) {
          return Some(i);
        }
      }
      k := None;
    }

    method FindStaged(me: u32, filter: i32) returns (r: Option<nat>)
      requires Valid()
      ensures r == FirstStaged(Abs().tasks, me, filter, 1)
    {
      for i := 1 to tasks.Length
        invariant FirstStaged(Abs().tasks, me, filter, 1) == FirstStaged(Abs().tasks, me, filter, i)
      {
        if tasks[i].Some? {
          var t := tasks[i].value;
          var hit := t.staged.Some? && t.staged.value.dst == me
                     && (filter == M_ANY || t.staged.value.src == AsU32(filter));
          if hit && t.state != Zombie {
            return Some(i);
          }
        }
      }
      r := None;
    }

    // ── Time, life and death ─────────────────────────────────────────────────

    method SysSleep(cpu: nat, ms: u32)
      requires Valid() && cpu < MAX_CPUS
      modifies tasks, current
      ensures Valid() && Abs() == Sleep(old(Abs()), cpu, ms)
    {
      SwitchAway(cpu, tasks[current[cpu]].value.(deadline := ticks + Clamp(ms), state := Blocked));
    }

    method WakeSleepers() returns (woke: bool)
      requires Valid()
      modifies tasks
      ensures Valid() && Abs() == SchedSpec.WakeSleepers(old(Abs()))
      ensures woke == AnyExpired(old(Abs()))
    {
      ghost var s := Abs();
      woke := false;
      for i := 1 to tasks.Length
        invariant Valid() && tasks.Length == |s.tasks| && tasks[0] == s.tasks[0]
        invariant forall j :: 1 <= j < i ==> tasks[j] == Woken(s.tasks[j], ticks)
        invariant forall j :: i <= j < tasks.Length ==> tasks[j] == s.tasks[j]
        invariant woke <==> exists j :: 1 <= j < i && Expired(s.tasks[j], ticks)
      {
        if tasks[i].Some? {
          var t := tasks[i].value;
          if t.deadline != 0 && t.deadline <= ticks {
            tasks[i] := Some(t.(deadline := 0, state := Ready));
            woke := true;
          }
        }
      }
      assert tasks[..] == SchedSpec.WakeSleepers(s).tasks;
    }

    method TickPreempt(cpu: nat, fromEl0: bool)
      requires Valid() && cpu < MAX_CPUS
      modifies tasks, current
      ensures Valid() && Abs() == Tick(old(Abs()), cpu, fromEl0)
    {
      hide SchedSpec.WakeSleepers, SchedSpec.PickNext, SchedSpec.SwitchBest;
      var cur, idle := current[cpu], IdleSlot(cpu);
      var woke := WakeSleepers();
      if tasks[cur].value.state == Zombie {
        var next := PickNext(cpu);
        if next != cur && next != idle {
          ResumeOn(cpu, next);
        }
        return;
      }
      if cur == idle {
        if woke {
          var next := PickNext(cpu);
          if next != idle {
            ResumeOn(cpu, next);
          }
        }
        return;
      }
      if !fromEl0 {
        return;
      }
      SwitchBest(cpu, false);
    }

    method YieldCpu(cpu: nat)
      requires Valid() && cpu < MAX_CPUS
      modifies tasks, current
      ensures Valid() && Abs() == SchedSpec.SwitchBest(old(Abs()), cpu, true)
    {
      SwitchBest(cpu, true);
    }

    method ExitCurrent(cpu: nat)
      requires Valid() && cpu < MAX_CPUS
      modifies tasks, current
      ensures Valid() && Abs() == Exit(old(Abs()), cpu)
    {
      SwitchAway(cpu, tasks[current[cpu]].value.(state := Zombie));
    }

    /** One round of `secondary_enter`. */
    method SecondaryRound(cpu: nat)
      requires Valid() && cpu < MAX_CPUS
      modifies tasks, current
      ensures Valid() && Abs() == IdleRound(old(Abs()), cpu)
    {
      hide SchedSpec.PickNext;
      var idle := IdleSlot(cpu);
      var next := PickNext(cpu);
      if next != idle {
        SetTask(idle, tasks[idle].value.(state := Ready));
        ResumeOn(cpu, next);
      }
    }

    method EnterScheduler()
      requires Valid()
      modifies tasks, current
      ensures Valid() && Abs() == Enter(old(Abs()))
    {
      var next := PickNext(0);
      if next != IdleSlot(0) {
        ResumeOn(0, next);
      }
    }

    /** A new Ready task in the first free slot, recorded as woken; the boot context calls this
        without a syscall tail. */
    method SpawnServer(priority: byte) returns (id: Option<u32>)
      requires Valid() && nextId < 0xFFFF_FFFF
      modifies this, tasks
      ensures Valid() && Abs() == SpawnUser(old(Abs()), priority)
      ensures Recorded(old(Abs())) ==> Recorded(Abs())
      ensures id == if FirstFree(old(tasks[..]), 1).None? then None else Some(old(nextId))
    {
      var slot: Option<nat> := None;
      for i := 1 to tasks.Length
        invariant slot.None? && FirstFree(Abs().tasks, 1) == FirstFree(Abs().tasks, i)
        invariant Abs() == old(Abs())
      {
        if tasks[i].None? {
          slot := Some(i);
          break;
        }
      }
      if slot.None? {
        return None;
      }
      id := Some(nextId);
      SetTask(slot.value, NewTask(nextId, priority));
      nextId := nextId + 1;
      woken := slot;
    }

    /** The `spawn` syscall. */
    method SysSpawn(cpu: nat, priority: byte) returns (id: Option<u32>)
      requires Valid() && Recorded(Abs()) && cpu < MAX_CPUS && nextId < 0xFFFF_FFFF
      modifies this, tasks, current
      ensures Valid() && Abs() == Spawn(old(Abs()), cpu, priority)
      ensures id == if FirstFree(old(tasks[..]), 1).None? then None else Some(old(nextId))
    {
      hide Tail, FirstFree;
      id := SpawnServer(priority);
      Reschedule(cpu);
    }
  }

  // ── Every run of the methods ───────────────────────────────────────────────

  /** Executes one event with the methods above, biting or not. */
  method Execute(k: Scheduler, e: Event)
    requires k.Valid() && Inv(k.Abs()) && Enabled(k.Abs(), e)
    modifies k, k.tasks, k.current
    ensures k.Valid() && k.Abs() == Step(old(k.Abs()), e)
  {
    hide Inv, Send, Receive, Sleep, Tail, Spawn, SpawnUser, SwitchBest, Exit, Tick, IdleRound, Enter;
    InvWoken(k.Abs());
    match e
    case ESend(cpu, dst, msg) => var _ := k.SysSend(cpu, dst, msg);
    case EReceive(cpu, filter) => k.SysReceive(cpu, filter);
    case ESleep(cpu, ms) => k.SysSleep(cpu, ms);
    case EPlain(cpu) => k.Reschedule(cpu);
    case ESpawn(cpu, priority) => var _ := k.SysSpawn(cpu, priority);
    case EYield(cpu) => k.YieldCpu(cpu);
    case EExit(cpu) => k.ExitCurrent(cpu);
    case ETick(cpu, fromEl0, elapsed) =>
      k.ticks := k.ticks + elapsed;
      k.TickPreempt(cpu, fromEl0);
    case EIdle(cpu) => k.SecondaryRound(cpu);
    case EEnter => k.EnterScheduler();
    case EBootSpawn(priority) => var _ := k.SpawnServer(priority);
  }

  /** Boots and executes a run; the table ends where the transition system does. */
  method BootAndRun(es: seq<Event>, ghost s: Sys) returns (k: Scheduler)
    requires Booted(s) && s.now == 0 && Inv(s) && Possible(s, es)
    ensures k.Valid() && k.Abs() == After(s, es) && Inv(k.Abs())
  {
    k := new Scheduler();
    SameBoot(s, k.Abs());
    hide Inv, Step, Bites, Booted, Enabled;
    for i := 0 to |es|
      invariant k.Valid() && fresh(k) && fresh(k.tasks) && fresh(k.current)
      invariant Inv(k.Abs()) && Possible(k.Abs(), es[i..]) && After(k.Abs(), es[i..]) == After(s, es)
    {
      assert es[i..][0] == es[i] && es[i..][1..] == es[i + 1..];
      StepInv(k.Abs(), es[i]);
      Execute(k, es[i]);
    }
    assert es[|es|..] == [];
  }

  lemma SameBoot(s: Sys, r: Sys)
    requires Booted(s) && Booted(r) && s.now == r.now
    ensures s == r
  {
    assert s.tasks == r.tasks;
  }

  lemma InvWoken(s: Sys)
    requires Inv(s)
    ensures Recorded(s) && s.nextId < 0xFFFF_FFFF && Typed(s)
  {
    IdsAreSmall(s);
  }
}
