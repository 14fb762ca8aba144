/**
 * The scheduler and rendezvous IPC as a transition system. Every syscall,
 * tick and idle-loop round runs under one lock, so each is one step from a
 * state of the task table to the next.
 */
module SchedSpec {
  import opened Bytes

  const MAX_TASKS: nat := 32
  const MAX_CPUS: nat := 4
  const IDLE_SLOT_BASE: nat := 16
  const PRIO_IDLE: byte := 255
  const M_ANY: int := -1

  type i32 = x: int | -0x8000_0000 <= x < 0x8000_0000

  datatype TaskState = Ready | Running | Blocked | Zombie

  datatype Message = Message(src: u32, mtype: u32, data: seq<u32>)

  /** A message parked at its receiver. */
  datatype PendingSend = PendingSend(src: u32, msg: Message)

  /** A message kept at its sender because the receiver's queue was full. */
  datatype StagedSend = StagedSend(dst: u32, src: u32, msg: Message)

  datatype Task = Task(
    id: u32,
    state: TaskState,
    priority: byte,
    affinity: Option<nat>,
    recvBlocked: bool,
    recvFilter: i32,
    buf: Option<Message>, // what the last receive put into the task's buffer
    pending: seq<Option<PendingSend>>,
    staged: Option<StagedSend>,
    deadline: nat)

  /** A message on its way: who must get it, and what must be in the buffer. */
  datatype Delivery = Delivery(dst: u32, msg: Message)

  datatype Sys = Sys(
    tasks: seq<Option<Task>>,
    cur: seq<nat>, // the slot each CPU executes
    woken: Option<nat>,
    nextId: u32,
    now: nat,
    accepted: multiset<Delivery>, // history: every message a send took
    delivered: multiset<Delivery>) // history: every message put into a buffer

  function IdleSlot(cpu: nat): nat {
    if cpu == 0 then 0 else IDLE_SLOT_BASE + cpu - 1
  }

  /** Slots 0, 16, 17 and 18 belong to the CPUs' idle contexts. */
  predicate IsIdle(i: nat) {
    i == 0 || IDLE_SLOT_BASE <= i < IDLE_SLOT_BASE + MAX_CPUS - 1
  }

  function AsU32(x: i32): u32 {
    if x < 0 then x + 0x1_0000_0000 else x
  }

  function AsI32(x: u32): i32 {
    if x >= 0x8000_0000 then x - 0x1_0000_0000 else x
  }

  /** A receive filter accepts a sender. */
  predicate Matches(filter: i32, src: u32) {
    filter == M_ANY || src == AsU32(filter)
  }

  /** The state has 32 slots and 4 CPUs, each CPU standing on an occupied slot. */
  ghost predicate Typed(s: Sys) {
    && |s.tasks| == MAX_TASKS && |s.cur| == MAX_CPUS
    && (forall i :: 0 <= i < MAX_TASKS && s.tasks[i].Some? ==> |s.tasks[i].value.pending| == 2)
    && (forall i :: 0 <= i < MAX_TASKS && IsIdle(i) ==> s.tasks[i].Some?)
    && (forall c :: 0 <= c < MAX_CPUS ==> s.cur[c] < MAX_TASKS && s.tasks[s.cur[c]].Some?)
  }

  function Put(s: Sys, i: nat, t: Task): Sys
    requires i < |s.tasks|
  {
    s.(tasks := s.tasks[i := Some(t)])
  }

  // ── Picking ────────────────────────────────────────────────────────────────

  predicate Candidate(s: Sys, cpu: nat, i: nat)
    requires i < |s.tasks|
  {
    && s.tasks[i].Some?
    && s.tasks[i].value.state == Ready
    && (s.tasks[i].value.affinity.Some? ==> s.tasks[i].value.affinity.value == cpu)
  }

  /** Forward distance from slot `cur`, in 0..31. */
  function Forward(cur: nat, i: nat): nat
    requires cur < MAX_TASKS
  {
    (i + MAX_TASKS - cur - 1) % MAX_TASKS
  }

  /** Slot `i` beats slot `b` in the priority pick. */
  predicate Beats(s: Sys, cpu: nat, i: nat, b: nat)
    requires Typed(s) && cpu < MAX_CPUS && i < MAX_TASKS && b < MAX_TASKS
    requires s.tasks[i].Some? && s.tasks[b].Some?
  {
    var p, q := s.tasks[i].value.priority, s.tasks[b].value.priority;
    p < q || (p == q && Forward(s.cur[cpu], i) < Forward(s.cur[cpu], b))
  }

  /** The best candidate among slots `1..n`, as the scan in `pick_next` finds it. */
  function Best(s: Sys, cpu: nat, n: nat): (r: Option<nat>)
    requires Typed(s) && cpu < MAX_CPUS && 1 <= n <= MAX_TASKS
    ensures r.Some? ==> 1 <= r.value < n && Candidate(s, cpu, r.value)
  {
    if n == 1 then None
    else
      var b := Best(s, cpu, n - 1);
      if Candidate(s, cpu, n - 1) && (b.None? || Beats(s, cpu, n - 1, b.value)) then Some(n - 1) else b
  }

  function PickNext(s: Sys, cpu: nat): (r: nat)
    requires Typed(s) && cpu < MAX_CPUS
    ensures r < MAX_TASKS && s.tasks[r].Some?
    ensures r == IdleSlot(cpu) || (r >= 1 && Candidate(s, cpu, r))
  {
    var b := Best(s, cpu, MAX_TASKS);
    if b.Some? then b.value else IdleSlot(cpu)
  }

  /** The nearest candidate ahead among slots `1..n` other than `skip`. */
  function Nearest(s: Sys, cpu: nat, skip: nat, n: nat): (r: Option<nat>)
    requires Typed(s) && cpu < MAX_CPUS && 1 <= n <= MAX_TASKS
    ensures r.Some? ==> 1 <= r.value < n && r.value != skip && Candidate(s, cpu, r.value)
  {
    if n == 1 then None
    else
      var b := Nearest(s, cpu, skip, n - 1);
      if n - 1 != skip && Candidate(s, cpu, n - 1)
         && (b.None? || Forward(s.cur[cpu], n - 1) < Forward(s.cur[cpu], b.value))
      then Some(n - 1) else b
  }

  function PickNextRR(s: Sys, cpu: nat, skip: nat): (r: nat)
    requires Typed(s) && cpu < MAX_CPUS
    ensures r < MAX_TASKS && s.tasks[r].Some?
    ensures r == IdleSlot(cpu) || (r >= 1 && r != skip && Candidate(s, cpu, r))
  {
    var b := Nearest(s, cpu, skip, MAX_TASKS);
    if b.Some? then b.value else IdleSlot(cpu)
  }

  /** No CPU other than `cpu` moved to another slot. */
  predicate OnlyCpu(s: Sys, r: Sys, cpu: nat) {
    && |r.cur| == |s.cur|
    && forall c :: 0 <= c < |s.cur| && c != cpu ==> r.cur[c] == s.cur[c]
  }

  // ── Switching ──────────────────────────────────────────────────────────────

  /** CPU `cpu` continues in slot `n`. */
  function Resume(s: Sys, cpu: nat, n: nat): (r: Sys)
    requires cpu < |s.cur| && n < |s.tasks| && s.tasks[n].Some?
    ensures OnlyCpu(s, r, cpu) && r.now == s.now
  {
    Put(s, n, s.tasks[n].value.(state := Running)).(cur := s.cur[cpu := n])
  }

  /** The current task of `cpu` becomes `t` and the CPU goes to the best candidate. */
  function SwitchAway(s: Sys, cpu: nat, t: Task): (r: Sys)
    requires Typed(s) && cpu < MAX_CPUS && |t.pending| == 2
    ensures OnlyCpu(s, r, cpu) && r.now == s.now
  {
    var s1 := Put(s, s.cur[cpu], t);
    Resume(s1, cpu, PickNext(s1, cpu))
  }

  function Current(s: Sys, cpu: nat): Task
    requires Typed(s) && cpu < MAX_CPUS
  {
    s.tasks[s.cur[cpu]].value
  }

  /** Preempt the current task in favour of slot `n`. */
  function Preempt(s: Sys, cpu: nat, n: nat): (r: Sys)
    requires Typed(s) && cpu < MAX_CPUS && n < MAX_TASKS && s.tasks[n].Some?
    ensures OnlyCpu(s, r, cpu) && r.now == s.now
  {
    Resume(Put(s, s.cur[cpu], Current(s, cpu).(state := Ready)), cpu, n)
  }

  /** The wake-up record names an occupied slot. */
  predicate Recorded(s: Sys) {
    s.woken.Some? ==> s.woken.value < |s.tasks| && s.tasks[s.woken.value].Some?
  }

  /** The syscall tail: hand over to the recorded task if it is strictly better. */
  function Tail(s: Sys, cpu: nat): (r: Sys)
    requires Typed(s) && Recorded(s) && cpu < MAX_CPUS
    ensures OnlyCpu(s, r, cpu) && r.now == s.now
  {
    var s1 := s.(woken := None);
    if s.woken.None? || s.cur[cpu] == IdleSlot(cpu)
       || s.tasks[s.woken.value].value.priority >= Current(s, cpu).priority
    then s1
    else Preempt(s1, cpu, s.woken.value)
  }

  function SwitchBest(s: Sys, cpu: nat, strict: bool): (r: Sys)
    requires Typed(s) && cpu < MAX_CPUS
    ensures OnlyCpu(s, r, cpu) && r.now == s.now
  {
    var cur := s.cur[cpu];
    if cur == 0 || Current(s, cpu).state != Running then s
    else
      var next := if strict then PickNext(s, cpu) else PickNextRR(s, cpu, cur);
      if next == cur || next == 0 then s
      else if strict && s.tasks[next].value.priority >= Current(s, cpu).priority then s
      else Preempt(s, cpu, next)
  }

  // ── IPC ────────────────────────────────────────────────────────────────────

  /** First slot from `i` on holding a task with this id. */
  function TaskIdxFrom(tasks: seq<Option<Task>>, id: u32, i: nat): (r: Option<nat>)
    requires i <= |tasks|
    ensures r.Some? ==> i <= r.value < |tasks| && tasks[r.value].Some? && tasks[r.value].value.id == id
    ensures r.None? ==> forall j :: i <= j < |tasks| && tasks[j].Some? ==> tasks[j].value.id != id
    decreases |tasks| - i
  {
    if i == |tasks| then None
    else if tasks[i].Some? && tasks[i].value.id == id then Some(i)
    else TaskIdxFrom(tasks, id, i + 1)
  }

  function TaskIdx(tasks: seq<Option<Task>>, id: u32): (r: Option<nat>)
    ensures r.Some? ==> r.value < |tasks| && tasks[r.value].Some? && tasks[r.value].value.id == id
    ensures r.None? ==> forall i :: 0 <= i < |tasks| && tasks[i].Some? ==> tasks[i].value.id != id
  {
    TaskIdxFrom(tasks, id, 0)
  }

  function Stamp(msg: Message, src: u32): Message {
    msg.(src := src)
  }

  /** `d` gets `msg` from `src` in its buffer; it no longer waits. */
  function Deliver(s: Sys, d: nat, src: u32, msg: Message): Sys
    requires d < |s.tasks| && s.tasks[d].Some?
  {
    var t := s.tasks[d].value;
    Put(s, d, t.(recvBlocked := false, state := Ready, buf := Some(Stamp(msg, src))))
    .(delivered := s.delivered + multiset{Delivery(t.id, Stamp(msg, src))})
  }

  function Accept(s: Sys, dst: u32, src: u32, msg: Message): Sys {
    s.(accepted := s.accepted + multiset{Delivery(dst, Stamp(msg, src))})
  }

  function FreeSlot(q: seq<Option<PendingSend>>): (k: Option<nat>)
    requires |q| == 2
    ensures k.Some? ==> k.value < 2 && q[k.value].None?
  {
    if q[0].None? then Some(0) else if q[1].None? then Some(1) else None
  }

  function Send(s: Sys, cpu: nat, dst: u32, msg: Message): (r: Sys)
    requires Typed(s) && Recorded(s) && cpu < MAX_CPUS
    ensures OnlyCpu(s, r, cpu) && r.now == s.now
  {
    var me := Current(s, cpu);
    var d := TaskIdx(s.tasks, dst);
    if dst == me.id || d.None? then Tail(s, cpu)
    else
      var t := s.tasks[d.value].value;
      var s1 := Accept(s, dst, me.id, msg);
      if t.recvBlocked && (t.recvFilter == M_ANY || t.recvFilter == AsI32(me.id)) then
        Tail(Deliver(s1, d.value, me.id, msg).(woken := d), cpu)
      else
        var k := FreeSlot(t.pending);
        if k.Some? then
          var s2 := Put(s1, d.value, t.(pending := t.pending[k.value := Some(PendingSend(me.id, msg))]));
          SwitchAway(s2, cpu, Current(s2, cpu).(state := Blocked))
        else
          SwitchAway(s1, cpu, me.(staged := Some(StagedSend(dst, me.id, msg)), state := Blocked))
  }

  /** First queue position whose sender the filter accepts. */
  function FirstPending(q: seq<Option<PendingSend>>, filter: i32): (k: Option<nat>)
    requires |q| == 2
    ensures k.Some? ==> k.value < 2 && q[k.value].Some? && Matches(filter, q[k.value].value.src)
    ensures k.Some? ==> forall j :: 0 <= j < k.value && q[j].Some? ==> !Matches(filter, q[j].value.src)
    ensures k.None? ==> forall j :: 0 <= j < 2 && q[j].Some? ==> !Matches(filter, q[j].value.src)
  {
    if q[0].Some? && Matches(filter, q[0].value.src) then Some(0)
    else if q[1].Some? && Matches(filter, q[1].value.src) then Some(1)
    else None
  }

  predicate StagedFor(o: Option<Task>, me: u32, filter: i32) {
    && o.Some? && o.value.staged.Some? && o.value.state != Zombie
    && o.value.staged.value.dst == me && Matches(filter, o.value.staged.value.src)
  }

  /** First slot from `i` on whose task has a message staged for `me`. */
  function FirstStaged(tasks: seq<Option<Task>>, me: u32, filter: i32, i: nat): (r: Option<nat>)
    requires i <= |tasks|
    ensures r.Some? ==> i <= r.value < |tasks| && StagedFor(tasks[r.value], me, filter)
    ensures r.Some? ==> forall j :: i <= j < r.value ==> !StagedFor(tasks[j], me, filter)
    ensures r.None? ==> forall j :: i <= j < |tasks| ==> !StagedFor(tasks[j], me, filter)
    decreases |tasks| - i
  {
    if i == |tasks| then None
    else if StagedFor(tasks[i], me, filter) then Some(i)
    else FirstStaged(tasks, me, filter, i + 1)
  }

  /** The receiver's own buffer is filled; it keeps running. */
  function Take(s: Sys, cpu: nat, t: Task, src: u32, msg: Message): Sys
    requires Typed(s) && cpu < MAX_CPUS
  {
    Put(s, s.cur[cpu], t.(buf := Some(Stamp(msg, src))))
    .(delivered := s.delivered + multiset{Delivery(t.id, Stamp(msg, src))})
  }

  /** The caller takes the message at position `k` of its queue. */
  function TakeQueued(s: Sys, cpu: nat, k: nat): (r: Sys)
    requires Typed(s) && cpu < MAX_CPUS && k < 2 && Current(s, cpu).pending[k].Some?
    ensures Typed(r) && r.cur == s.cur && r.woken == s.woken && r.now == s.now
  {
    var me := Current(s, cpu);
    var p := me.pending[k].value;
    Take(s, cpu, me.(pending := me.pending[k := None]), p.src, p.msg)
  }

  /** The caller takes the message staged at slot `j`, which becomes Ready. */
  function TakeStaged(s: Sys, cpu: nat, j: nat): (r: Sys)
    requires Typed(s) && cpu < MAX_CPUS && j < MAX_TASKS && s.tasks[j].Some? && s.tasks[j].value.staged.Some?
    ensures Typed(r) && r.cur == s.cur && r.woken == s.woken && r.now == s.now
  {
    var t := s.tasks[j].value;
    var s1 := Put(s, j, t.(staged := None, state := Ready));
    Take(s1, cpu, Current(s1, cpu), t.staged.value.src, t.staged.value.msg)
  }

  function Receive(s: Sys, cpu: nat, filter: i32): (r: Sys)
    requires Typed(s) && Recorded(s) && cpu < MAX_CPUS
    ensures OnlyCpu(s, r, cpu) && r.now == s.now
  {
    var me := Current(s, cpu);
    var k := FirstPending(me.pending, filter);
    if k.Some? then
      var s1 := TakeQueued(s, cpu, k.value);
      var i := TaskIdx(s1.tasks, me.pending[k.value].value.src);
      if i.Some? && s1.tasks[i.value].value.state != Zombie then
        Tail(Put(s1, i.value, s1.tasks[i.value].value.(state := Ready)).(woken := i), cpu)
      else Tail(s1, cpu)
    else
      var j := FirstStaged(s.tasks, me.id, filter, 1);
      if j.Some? then Tail(TakeStaged(s, cpu, j.value).(woken := j), cpu)
      else SwitchAway(s, cpu, me.(recvBlocked := true, recvFilter := filter, state := Blocked))
  }

  // ── Time, life and death ───────────────────────────────────────────────────

  function Clamp(ms: u32): nat {
    if ms < 1 then 1 else if ms > 60_000 then 60_000 else ms
  }

  function Sleep(s: Sys, cpu: nat, ms: u32): (r: Sys)
    requires Typed(s) && cpu < MAX_CPUS
    ensures OnlyCpu(s, r, cpu) && r.now == s.now
  {
    SwitchAway(s, cpu, Current(s, cpu).(deadline := s.now + Clamp(ms), state := Blocked))
  }

  predicate Expired(o: Option<Task>, now: nat) {
    o.Some? && o.value.deadline != 0 && o.value.deadline <= now
  }

  function Woken(o: Option<Task>, now: nat): Option<Task> {
    if Expired(o, now) then Some(o.value.(deadline := 0, state := Ready)) else o
  }

  /** Every expired sleeper of slots 1.. is Ready again. */
  function WakeSleepers(s: Sys): Sys {
    s.(tasks := seq(|s.tasks|, i requires 0 <= i < |s.tasks| => if i == 0 then s.tasks[i]
        else Woken(s.tasks[i], s.now)))
  }

  predicate AnyExpired(s: Sys) {
    exists i :: 1 <= i < |s.tasks| && Expired(s.tasks[i], s.now)
  }

  function Tick(s: Sys, cpu: nat, fromEl0: bool): (r: Sys)
    requires Typed(s) && cpu < MAX_CPUS
    ensures OnlyCpu(s, r, cpu) && r.now == s.now
  {
    var s1 := WakeSleepers(s);
    var cur := s.cur[cpu];
    if Current(s1, cpu).state == Zombie then
      var n := PickNext(s1, cpu);
      if n != cur && n != IdleSlot(cpu) then Resume(s1, cpu, n) else s1
    else if cur == IdleSlot(cpu) then
      var n := PickNext(s1, cpu);
      if AnyExpired(s) && n != IdleSlot(cpu) then Resume(s1, cpu, n) else s1
    else if fromEl0 then SwitchBest(s1, cpu, false)
    else s1
  }

  function Exit(s: Sys, cpu: nat): (r: Sys)
    requires Typed(s) && cpu < MAX_CPUS
    ensures OnlyCpu(s, r, cpu) && r.now == s.now
  {
    SwitchAway(s, cpu, Current(s, cpu).(state := Zombie))
  }

  /** One round of a secondary's idle loop. */
  function IdleRound(s: Sys, cpu: nat): (r: Sys)
    requires Typed(s) && cpu < MAX_CPUS
    ensures OnlyCpu(s, r, cpu) && r.now == s.now
  {
    var n := PickNext(s, cpu);
    if n == IdleSlot(cpu) then s
    else
      var idle := s.tasks[IdleSlot(cpu)].value;
      Resume(Put(s, IdleSlot(cpu), idle.(state := Ready)), cpu, n)
  }

  /** The boot context of CPU 0 enters the scheduler. */
  function Enter(s: Sys): (r: Sys)
    requires Typed(s)
    ensures r.now == s.now
  {
    var n := PickNext(s, 0);
    if n == 0 then s else Resume(s, 0, n)
  }

  function FirstFree(tasks: seq<Option<Task>>, i: nat): (r: Option<nat>)
    requires i <= |tasks|
    ensures r.Some? ==> i <= r.value < |tasks| && tasks[r.value].None?
    ensures r.None? ==> forall j :: i <= j < |tasks| ==> tasks[j].Some?
    decreases |tasks| - i
  {
    if i == |tasks| then None else if tasks[i].None? then Some(i) else FirstFree(tasks, i + 1)
  }

  function NewTask(id: u32, priority: byte): Task {
    Task(id, Ready, priority, None, false, M_ANY, None, [None, None], None, 0)
  }

  /** A new task in the first free slot, recorded as woken. */
  function SpawnUser(s: Sys, priority: byte): (r: Sys)
    requires |s.tasks| == MAX_TASKS && s.nextId < 0xFFFF_FFFF
    ensures r.cur == s.cur && r.now == s.now
  {
    var i := FirstFree(s.tasks, 1);
    if i.None? then s
    else Put(s, i.value, NewTask(s.nextId, priority)).(nextId := s.nextId + 1, woken := i)
  }

  /** The `spawn` syscall: the caller's tail follows. */
  function Spawn(s: Sys, cpu: nat, priority: byte): (r: Sys)
    requires Typed(s) && Recorded(s) && cpu < MAX_CPUS && s.nextId < 0xFFFF_FFFF
    ensures OnlyCpu(s, r, cpu) && r.now == s.now
  {
    Tail(SpawnUser(s, priority), cpu)
  }
}
