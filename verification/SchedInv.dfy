/** What every run of the scheduler and its IPC keeps. */
module SchedInv {
  import opened Bytes
  import opened SchedSpec

  // ── The invariant ──────────────────────────────────────────────────────────

  /** Idle tasks are bound to their CPU, all others may run anywhere; a CPU
      stands on a real task, on its own idle slot, or (not yet started) on slot 0. */
  ghost predicate Placed(s: Sys) {
    && Typed(s)
    && (forall i :: 0 <= i < MAX_TASKS && s.tasks[i].Some? ==>
          if i == 0 then s.tasks[i].value.affinity == Some(0)
          else if IsIdle(i) then s.tasks[i].value.affinity == Some(i + 1 - IDLE_SLOT_BASE)
          else s.tasks[i].value.affinity == None)
    && (forall c :: 0 <= c < MAX_CPUS && IsIdle(s.cur[c]) ==> s.cur[c] == 0 || s.cur[c] == IdleSlot(c))
  }

  /** `Running` means executing, and a task executes on one CPU only; CPU
      `but` is exempt (it is in the middle of a switch). */
  ghost predicate ExclusiveBut(s: Sys, but: int) {
    && Typed(s)
    && (forall c :: 0 <= c < MAX_CPUS && c != but && !IsIdle(s.cur[c]) ==> s.tasks[s.cur[c]].value.state == Running)
    && (forall i :: 0 <= i < MAX_TASKS && !IsIdle(i) && s.tasks[i].Some? && s.tasks[i].value.state == Running ==>
          exists c :: 0 <= c < MAX_CPUS && c != but && s.cur[c] == i)
    && (forall c, c' :: 0 <= c < c' < MAX_CPUS && c != but && c' != but && s.cur[c] == s.cur[c'] ==> IsIdle(s.cur[c]))
  }

  /** At most one core executes a task, and it is Running exactly when one does. */
  ghost predicate Exclusive(s: Sys) {
    ExclusiveBut(s, -1)
  }

  /** Taking the current task off a CPU. */
  lemma ParkKeepsExclusive(s: Sys, cpu: nat, t: Task)
    requires Exclusive(s) && cpu < MAX_CPUS && t.state != Running && |t.pending| == 2
    ensures ExclusiveBut(Put(s, s.cur[cpu], t), cpu)
  {
  }

  /** Putting a task nobody executes, or the CPU's own idle slot, on it. */
  lemma ResumeKeepsExclusive(s: Sys, cpu: nat, n: nat)
    requires Placed(s) && ExclusiveBut(s, cpu) && cpu < MAX_CPUS && n < MAX_TASKS && s.tasks[n].Some?
    requires IsIdle(n) || s.tasks[n].value.state != Running
    ensures Exclusive(Resume(s, cpu, n))
  {
    var s1 := Resume(s, cpu, n);
    assert s1.cur[cpu] == n && Typed(s1);
    assert forall c :: 0 <= c < MAX_CPUS && c != cpu ==> s1.cur[c] == s.cur[c] && (s.cur[c] == n ==> IsIdle(n));
    hide Typed;
    forall i | 0 <= i < MAX_TASKS && !IsIdle(i) && s1.tasks[i].Some? && s1.tasks[i].value.state == Running
      ensures exists c :: 0 <= c < MAX_CPUS && c != -1 && s1.cur[c] == i
    {
      if i != n {
        var c :| 0 <= c < MAX_CPUS && c != cpu && s.cur[c] == i;
        assert s1.cur[c] == i;
      }
    }
  }

  lemma PickIsPlaced(s: Sys, cpu: nat, n: nat)
    requires Placed(s) && cpu < MAX_CPUS && n < MAX_TASKS
    requires n == IdleSlot(cpu) || (n >= 1 && Candidate(s, cpu, n))
    ensures s.tasks[n].Some? && (IsIdle(n) ==> n == IdleSlot(cpu))
    ensures IsIdle(n) || s.tasks[n].value.state == Ready
  {
  }

  // ── IPC bookkeeping ────────────────────────────────────────────────────────

  predicate Has(s: Sys, i: int) {
    0 <= i < |s.tasks| && s.tasks[i].Some?
  }

  function IdleId(i: nat): nat {
    if i == 0 then 0 else 0x4000_0000 + i + 1 - IDLE_SLOT_BASE
  }

  /** Task ids are distinct; the ids handed out so far are below `nextId`. */
  ghost predicate IdsOk(s: Sys) {
    && (forall i, j :: 0 <= i < j && Has(s, i) && Has(s, j) ==> s.tasks[i].value.id != s.tasks[j].value.id)
    && (forall i :: Has(s, i) ==>
          if IsIdle(i) then s.tasks[i].value.id == IdleId(i) else 1 <= s.tasks[i].value.id < s.nextId)
    && 1 <= s.nextId <= 1 + Occupied(s.tasks)
  }

  function Occupied(tasks: seq<Option<Task>>): nat {
    if tasks == [] then 0
    else Occupied(tasks[..|tasks| - 1]) + (if tasks[|tasks| - 1].Some? then 1 else 0)
  }

  /** Blocked as a queued sender and for no other reason. */
  predicate Parked(t: Task) {
    t.state == Blocked && !t.recvBlocked && t.deadline == 0 && t.staged.None?
  }

  /** A task waits for at most one thing, and only while Blocked. */
  predicate OneReason(i: nat, t: Task) {
    && (t.recvBlocked ==> t.state == Blocked && t.deadline == 0 && t.staged.None?)
    && (t.deadline != 0 ==> t.state == Blocked && t.staged.None?)
    && (t.staged.Some? ==> t.state == Blocked && t.staged.value.src == t.id && t.staged.value.dst != t.id)
    && (IsIdle(i) ==> t.state != Blocked)
  }

  predicate QueuedFrom(s: Sys, j: int, k: int, src: u32) {
    && Has(s, j) && 0 <= k < |s.tasks[j].value.pending|
    && s.tasks[j].value.pending[k].Some? && s.tasks[j].value.pending[k].value.src == src
  }

  ghost predicate HasId(s: Sys, id: u32) {
    exists i :: Has(s, i) && s.tasks[i].value.id == id
  }

  ghost predicate IsQueued(s: Sys, id: u32) {
    exists j, k :: QueuedFrom(s, j, k, id)
  }

  /** A queued message keeps its sender parked, a parked sender has a message
      queued, and no sender has two. */
  ghost predicate SendersOk(s: Sys) {
    && (forall i, j, k :: Has(s, i) && QueuedFrom(s, j, k, s.tasks[i].value.id) ==> i != j && Parked(s.tasks[i].value))
    && (forall j, k, src: u32 :: QueuedFrom(s, j, k, src) ==> src < s.nextId && HasId(s, src))
    && (forall i :: Has(s, i) && Parked(s.tasks[i].value) ==> IsQueued(s, s.tasks[i].value.id))
    && (forall j, k, j', k', src :: QueuedFrom(s, j, k, src) && QueuedFrom(s, j', k', src) ==> j == j' && k == k')
  }

  /** No lost rendezvous: what a blocked receiver would accept is neither in
      its queue nor staged for it. */
  ghost predicate NoLost(s: Sys) {
    && (forall i, k, src :: Has(s, i) && s.tasks[i].value.recvBlocked && QueuedFrom(s, i, k, src) ==>
          !Matches(s.tasks[i].value.recvFilter, src))
    && (forall i, j :: Has(s, i) && Has(s, j) && s.tasks[i].value.recvBlocked && s.tasks[j].value.staged.Some?
                       && s.tasks[j].value.staged.value.dst == s.tasks[i].value.id ==>
          !Matches(s.tasks[i].value.recvFilter, s.tasks[j].value.staged.value.src))
  }

  ghost predicate WaitsOk(s: Sys) {
    && Typed(s) && IdsOk(s) && SendersOk(s) && NoLost(s)
    && (forall i :: Has(s, i) ==> OneReason(i, s.tasks[i].value))
  }

  // ── Conservation ───────────────────────────────────────────────────────────

  function QueuedMsg(dst: u32, o: Option<PendingSend>): multiset<Delivery> {
    if o.Some? then multiset{Delivery(dst, Stamp(o.value.msg, o.value.src))} else multiset{}
  }

  function StagedMsg(o: Option<StagedSend>): multiset<Delivery> {
    if o.Some? then multiset{Delivery(o.value.dst, Stamp(o.value.msg, o.value.src))} else multiset{}
  }

  /** The messages a task slot holds: its queue, and the one staged at it. */
  function Held(o: Option<Task>): multiset<Delivery> {
    if o.None? || |o.value.pending| != 2 then multiset{}
    else
      var t := o.value;
      QueuedMsg(t.id, t.pending[0]) + QueuedMsg(t.id, t.pending[1]) + StagedMsg(t.staged)
  }

  function InTransit(tasks: seq<Option<Task>>): multiset<Delivery> {
    if tasks == [] then multiset{}
    else InTransit(tasks[..|tasks| - 1]) + Held(tasks[|tasks| - 1])
  }

  lemma {:induction false} InTransitUpdate(tasks: seq<Option<Task>>, i: nat, o: Option<Task>)
    requires i < |tasks|
    ensures InTransit(tasks[i := o]) + Held(tasks[i]) == InTransit(tasks) + Held(o)
  {
    hide Held;
    var l := |tasks| - 1;
    var r := InTransit(tasks[..l]);
    if i < l {
      InTransitUpdate(tasks[..l], i, o);
      assert tasks[i := o][..l] == tasks[..l][i := o];
      Exchange(InTransit(tasks[..l][i := o]), Held(tasks[i]), r, Held(o), Held(tasks[l]));
    } else {
      assert tasks[i := o][..l] == tasks[..l];
      Exchange(r, Held(tasks[i]), r, Held(tasks[i]), Held(o));
    }
  }

  lemma Exchange<T>(a: multiset<T>, b: multiset<T>, c: multiset<T>, d: multiset<T>, e: multiset<T>)
    requires a + b == c + d
    ensures (a + e) + b == (c + e) + d
    ensures (a + e) + b == (a + b) + e
  {
    assert (a + e) + b == (a + b) + e;
    assert (c + e) + d == (c + d) + e;
  }

  /** Every accepted message is delivered, queued or staged: none is lost, none doubled. */
  ghost predicate Conserved(s: Sys) {
    s.accepted == s.delivered + InTransit(s.tasks)
  }

  lemma {:induction false} SameOccupied(a: seq<Option<Task>>, b: seq<Option<Task>>)
    requires |a| == |b| && forall i :: 0 <= i < |a| ==> a[i].Some? == b[i].Some?
    ensures Occupied(a) == Occupied(b)
  {
    if a != [] {
      SameOccupied(a[..|a| - 1], b[..|b| - 1]);
    }
  }

  lemma {:induction false} OccupiedUpdate(tasks: seq<Option<Task>>, i: nat, t: Task)
    requires i < |tasks| && tasks[i].None?
    ensures Occupied(tasks[i := Some(t)]) == Occupied(tasks) + 1
  {
    var l := |tasks| - 1;
    if i < l {
      OccupiedUpdate(tasks[..l], i, t);
      assert tasks[i := Some(t)][..l] == tasks[..l][i := Some(t)];
    } else {
      assert tasks[i := Some(t)][..l] == tasks[..l];
    }
  }

  lemma {:induction false} SameInTransit(a: seq<Option<Task>>, b: seq<Option<Task>>)
    requires |a| == |b| && forall i :: 0 <= i < |a| ==> Held(a[i]) == Held(b[i])
    ensures InTransit(a) == InTransit(b)
  {
    if a != [] {
      SameInTransit(a[..|a| - 1], b[..|b| - 1]);
    }
  }

  // ── Keeping the parts ──────────────────────────────────────────────────────

  /** Replacing one task: what it newly holds balances what it gave up. */
  lemma PutConserves(s: Sys, s': Sys, i: nat, come: multiset<Delivery>, gone: multiset<Delivery>)
    requires Conserved(s) && i < |s.tasks| == |s'.tasks| && s'.tasks == s.tasks[i := s'.tasks[i]]
    requires s'.accepted == s.accepted + come && s'.delivered == s.delivered + gone
    requires Held(s.tasks[i]) + come == Held(s'.tasks[i]) + gone
    ensures Conserved(s')
  {
    hide Held, InTransit;
    InTransitUpdate(s.tasks, i, s'.tasks[i]);
    Balance(s.delivered, InTransit(s.tasks), InTransit(s'.tasks), Held(s.tasks[i]), Held(s'.tasks[i]), come, gone);
  }

  lemma Balance<T>(del: multiset<T>, a: multiset<T>, b: multiset<T>, h: multiset<T>, h': multiset<T>,
        come: multiset<T>, gone: multiset<T>)
    requires b + h == a + h' && h + come == h' + gone
    ensures del + a + come == del + gone + b
  {
    forall x ensures (a + come)[x] == (gone + b)[x] {
      assert (b + h)[x] == (a + h')[x] && (h + come)[x] == (h' + gone)[x];
    }
    assert a + come == gone + b;
    assert del + a + come == del + (a + come);
    assert del + gone + b == del + (gone + b);
  }

  lemma SameHeldConserves(s: Sys, s': Sys)
    requires Conserved(s) && |s.tasks| == |s'.tasks| && s'.accepted == s.accepted && s'.delivered == s.delivered
    requires forall i :: 0 <= i < |s.tasks| ==> Held(s'.tasks[i]) == Held(s.tasks[i])
    ensures Conserved(s')
  {
    hide Held;
    SameInTransit(s.tasks, s'.tasks);
  }

  /** Filling an empty queue position adds exactly that message to what the task holds. */
  lemma HeldQueue(t: Task, k: nat, p: PendingSend)
    requires |t.pending| == 2 && k < 2 && t.pending[k].None?
    ensures Held(Some(t)) + multiset{Delivery(t.id, Stamp(p.msg, p.src))}
        == Held(Some(t.(pending := t.pending[k := Some(p)])))
  {
  }

  lemma HeldSame(t: Task, t': Task)
    requires t'.id == t.id && t'.pending == t.pending && t'.staged == t.staged
    ensures Held(Some(t')) == Held(Some(t))
  {
  }

  lemma IdsKeep(s: Sys, s': Sys)
    requires IdsOk(s) && |s'.tasks| == |s.tasks| && s'.nextId == s.nextId
    requires forall i :: 0 <= i < |s.tasks| ==>
               s.tasks[i].Some? == s'.tasks[i].Some?
                   && (s.tasks[i].Some? ==> s'.tasks[i].value.id == s.tasks[i].value.id)
    ensures IdsOk(s')
  {
    SameOccupied(s.tasks, s'.tasks);
  }

  /** `s'` has no queue entries that `s` does not have. */
  ghost predicate FewerQueued(s: Sys, s': Sys) {
    forall j, k, x :: QueuedFrom(s', j, k, x) ==> QueuedFrom(s, j, k, x)
  }

  lemma SendersKeep(s: Sys, s': Sys)
    requires SendersOk(s) && s.nextId <= s'.nextId && FewerQueued(s, s')
    requires forall i :: Has(s, i) ==> Has(s', i) && s'.tasks[i].value.id == s.tasks[i].value.id
    requires forall i, j, k :: Has(s', i) && QueuedFrom(s', j, k, s'.tasks[i].value.id) ==>
               Has(s, i) && s.tasks[i].value.id == s'.tasks[i].value.id
                   && (Parked(s.tasks[i].value) ==> Parked(s'.tasks[i].value))
    requires forall i :: Has(s', i) && Parked(s'.tasks[i].value) ==> Has(s, i) && Parked(s.tasks[i].value)
    requires forall i, j, k :: Has(s', i) && Parked(s'.tasks[i].value) && QueuedFrom(s, j, k, s'.tasks[i].value.id) ==>
               QueuedFrom(s', j, k, s'.tasks[i].value.id)
    ensures SendersOk(s')
  {
  }

  lemma NoLostKeep(s: Sys, s': Sys)
    requires NoLost(s) && FewerQueued(s, s')
    requires forall i :: Has(s', i) && s'.tasks[i].value.recvBlocked ==>
               && Has(s, i) && s.tasks[i].value.recvBlocked
               && s.tasks[i].value.id == s'.tasks[i].value.id
                  && s.tasks[i].value.recvFilter == s'.tasks[i].value.recvFilter
    requires forall i :: Has(s', i) && s'.tasks[i].value.staged.Some? ==>
               Has(s, i) && s'.tasks[i].value.staged == s.tasks[i].value.staged
    ensures NoLost(s')
  {
  }

  /** Nobody holds a queued message of a task that is not parked. */
  lemma UnparkedHasNoneQueued(s: Sys, m: nat)
    requires SendersOk(s) && Has(s, m) && !Parked(s.tasks[m].value)
    ensures forall j, k :: !QueuedFrom(s, j, k, s.tasks[m].value.id)
  {
  }

  /** A task change that adds no waiting message and ends no queued send. */
  predicate Calm(i: nat, t: Task, t': Task) {
    && t'.id == t.id && t'.pending == t.pending
    && (t'.staged == t.staged || t'.staged.None?)
    && (t'.recvBlocked ==> t.recvBlocked && t'.recvFilter == t.recvFilter)
    && Parked(t) == Parked(t')
    && OneReason(i, t')
  }

  lemma CalmKeeps(s: Sys, s': Sys)
    requires WaitsOk(s) && |s'.tasks| == |s.tasks| && s'.nextId == s.nextId && s'.cur == s.cur
    requires forall i :: 0 <= i < |s.tasks| ==>
               s.tasks[i].Some? == s'.tasks[i].Some?
                   && (s.tasks[i].Some? ==> Calm(i, s.tasks[i].value, s'.tasks[i].value))
    ensures WaitsOk(s')
  {
    hide IdsOk, SendersOk, NoLost, Matches;
    IdsKeep(s, s');
    SendersKeep(s, s');
    NoLostKeep(s, s');
  }

  // ── The IPC part of each step ──────────────────────────────────────────────

  /** A direct rendezvous: the blocked receiver gets the message at once. */
  lemma DirectKeeps(s: Sys, d: nat, src: u32, msg: Message)
    requires WaitsOk(s) && Conserved(s) && Has(s, d) && s.tasks[d].value.recvBlocked
    ensures var s1 := Deliver(Accept(s, s.tasks[d].value.id, src, msg), d, src, msg);
            WaitsOk(s1) && Conserved(s1)
  {
    hide IdsOk, SendersOk, NoLost, InTransit;
    var s1 := Deliver(Accept(s, s.tasks[d].value.id, src, msg), d, src, msg);
    var one := multiset{Delivery(s.tasks[d].value.id, Stamp(msg, src))};
    PutConserves(s, s1, d, one, one);
    CalmKeeps(s, s1);
  }

  /** Our message joins the queue of a receiver that does not wait for us; we park. */
  lemma EnqueueKeeps(s: Sys, d: nat, m: nat, k: nat, msg: Message)
    requires WaitsOk(s) && Conserved(s) && Has(s, d) && Has(s, m) && m != d && !IsIdle(m)
    requires s.tasks[m].value.state == Running && k < 2 && s.tasks[d].value.pending[k].None?
    requires s.tasks[d].value.recvBlocked ==> !Matches(s.tasks[d].value.recvFilter, s.tasks[m].value.id)
    ensures var me, t := s.tasks[m].value, s.tasks[d].value;
            var s1 := Put(Accept(s, t.id, me.id, msg), d, t.(pending := t.pending[k := Some(PendingSend(me.id, msg))]));
            var s2 := Put(s1, m, me.(state := Blocked));
            WaitsOk(s2) && Conserved(s2)
  {
    hide IdsOk, SendersOk, NoLost, OneReason, InTransit, Held, Conserved;
    var me, t := s.tasks[m].value, s.tasks[d].value;
    var p := PendingSend(me.id, msg);
    var s1 := Put(Accept(s, t.id, me.id, msg), d, t.(pending := t.pending[k := Some(p)]));
    var s2 := Put(s1, m, me.(state := Blocked));
    QueueConserves(s, s1, d, k, p);
    OneSameHeld(s1, s2, m);
    EnqueueWaits(s, s2, d, m, k);
  }

  lemma QueueConserves(s: Sys, s1: Sys, d: nat, k: nat, p: PendingSend)
    requires Conserved(s) && Has(s, d) && |s.tasks[d].value.pending| == 2 && k < 2 && s.tasks[d].value.pending[k].None?
    requires s1 == Put(Accept(s, s.tasks[d].value.id, p.src, p.msg), d,
        s.tasks[d].value.(pending := s.tasks[d].value.pending[k := Some(p)]))
    ensures Conserved(s1)
  {
    hide InTransit, Held;
    HeldQueue(s.tasks[d].value, k, p);
    PutConserves(s, s1, d, multiset{Delivery(s.tasks[d].value.id, Stamp(p.msg, p.src))}, multiset{});
  }

  lemma UnqueueConserves(s: Sys, s1: Sys, m: nat, k: nat)
    requires Conserved(s) && Has(s, m) && |s.tasks[m].value.pending| == 2 && k < 2 && s.tasks[m].value.pending[k].Some?
    requires |s1.tasks| == |s.tasks| && Has(s1, m) && s1.tasks == s.tasks[m := s1.tasks[m]]
    requires s1.tasks[m].value
        == s.tasks[m].value.(pending := s.tasks[m].value.pending[k := None], buf := s1.tasks[m].value.buf)
    requires s1.accepted == s.accepted
    requires var p := s.tasks[m].value.pending[k].value;
             s1.delivered == s.delivered + multiset{Delivery(s.tasks[m].value.id, Stamp(p.msg, p.src))}
    ensures Conserved(s1)
  {
    hide InTransit, Held;
    var p, t := s.tasks[m].value.pending[k].value, s1.tasks[m].value;
    HeldQueue(t, k, p);
    assert t.pending[k := Some(p)] == s.tasks[m].value.pending;
    HeldSame(s.tasks[m].value, t.(pending := t.pending[k := Some(p)]));
    PutConserves(s, s1, m, multiset{}, multiset{Delivery(s.tasks[m].value.id, Stamp(p.msg, p.src))});
  }

  lemma OneSameHeld(s: Sys, s': Sys, m: nat)
    requires Conserved(s) && Has(s, m) && Has(s', m) && |s'.tasks| == |s.tasks| && s'.tasks == s.tasks[m := s'.tasks[m]]
    requires s'.tasks[m].value.id == s.tasks[m].value.id && s'.tasks[m].value.pending == s.tasks[m].value.pending
    requires s'.tasks[m].value.staged == s.tasks[m].value.staged
    requires s'.accepted == s.accepted && s'.delivered == s.delivered
    ensures Conserved(s')
  {
    hide Held;
    HeldSame(s.tasks[m].value, s'.tasks[m].value);
    SameHeldConserves(s, s');
  }

  /** `s2` differs from `s` in that a message of `m` is queued at `d` and `m` is parked. */
  ghost predicate Enqueued(s: Sys, s2: Sys, d: nat, m: nat, k: nat) {
    && Has(s, d) && Has(s, m) && Has(s2, d) && m != d && k < |s.tasks[d].value.pending|
       && s.tasks[d].value.pending[k].None?
    && |s2.tasks| == |s.tasks| && s2.nextId == s.nextId
    && (forall i :: 0 <= i < |s.tasks| && i != d && i != m ==> s2.tasks[i] == s.tasks[i])
    && s2.tasks[m] == Some(s.tasks[m].value.(state := Blocked))
    && s2.tasks[d].value == s.tasks[d].value.(pending := s2.tasks[d].value.pending)
    && |s2.tasks[d].value.pending| == |s.tasks[d].value.pending|
    && s2.tasks[d].value.pending == s.tasks[d].value.pending[k := s2.tasks[d].value.pending[k]]
    && s2.tasks[d].value.pending[k].Some? && s2.tasks[d].value.pending[k].value.src == s.tasks[m].value.id
  }

  lemma EnqueueWaits(s: Sys, s2: Sys, d: nat, m: nat, k: nat)
    requires WaitsOk(s) && Enqueued(s, s2, d, m, k) && s2.cur == s.cur && Typed(s)
    requires s.tasks[m].value.state == Running && !IsIdle(m)
    requires s.tasks[d].value.recvBlocked ==> !Matches(s.tasks[d].value.recvFilter, s.tasks[m].value.id)
    ensures WaitsOk(s2)
  {
    hide IdsOk, SendersOk, NoLost, Matches;
    IdsKeep(s, s2);
    UnparkedHasNoneQueued(s, m);
    EnqueueSenders(s, s2, d, m, k);
    EnqueueNoLost(s, s2, d, m, k);
  }

  lemma EnqueueQueue(s: Sys, s2: Sys, d: nat, m: nat, k: nat)
    requires Enqueued(s, s2, d, m, k)
    ensures forall j, l, x :: QueuedFrom(s2, j, l, x) ==>
        QueuedFrom(s, j, l, x) || (j == d && l == k && x == s.tasks[m].value.id)
    ensures forall j, l, x :: QueuedFrom(s, j, l, x) ==> QueuedFrom(s2, j, l, x)
    ensures QueuedFrom(s2, d, k, s.tasks[m].value.id)
    ensures forall i :: Has(s2, i) <==> Has(s, i)
    ensures forall i :: Has(s2, i) ==> Has(s, i) && s2.tasks[i].value.id == s.tasks[i].value.id
    ensures forall i :: Has(s2, i) && i != m ==> Parked(s2.tasks[i].value) == Parked(s.tasks[i].value)
  {
  }

  lemma EnqueueSenders(s: Sys, s2: Sys, d: nat, m: nat, k: nat)
    requires IdsOk(s) && SendersOk(s) && Enqueued(s, s2, d, m, k)
    requires forall j, l :: !QueuedFrom(s, j, l, s.tasks[m].value.id)
    requires s.tasks[m].value.state == Running && OneReason(m, s.tasks[m].value) && !IsIdle(m)
    ensures SendersOk(s2)
    ensures forall j, l, x :: QueuedFrom(s2, j, l, x) ==>
        QueuedFrom(s, j, l, x) || (j == d && l == k && x == s.tasks[m].value.id)
  {
    EnqueueQueue(s, s2, d, m, k);
    assert Has(s2, m) && Parked(s2.tasks[m].value);
    hide Enqueued, QueuedFrom, Parked, OneReason;
    forall i, j, l | Has(s2, i) && QueuedFrom(s2, j, l, s2.tasks[i].value.id)
      ensures i != j && Parked(s2.tasks[i].value)
    {
      assert Has(s, i) && s2.tasks[i].value.id == s.tasks[i].value.id;
      assert i == m || s.tasks[i].value.id != s.tasks[m].value.id;
    }
    forall i | Has(s2, i) && Parked(s2.tasks[i].value) ensures IsQueued(s2, s2.tasks[i].value.id) {
      assert Has(s, i) && s2.tasks[i].value.id == s.tasks[i].value.id;
      if i != m {
        var j, l :| QueuedFrom(s, j, l, s.tasks[i].value.id);
        assert QueuedFrom(s2, j, l, s.tasks[i].value.id);
      }
    }
    forall j, l, x: u32 | QueuedFrom(s2, j, l, x) ensures x < s2.nextId && HasId(s2, x) {
      if QueuedFrom(s, j, l, x) {
        var i :| Has(s, i) && s.tasks[i].value.id == x;
        assert Has(s2, i) && s2.tasks[i].value.id == x;
      }
    }
  }

  lemma EnqueueNoLost(s: Sys, s2: Sys, d: nat, m: nat, k: nat)
    requires NoLost(s) && Enqueued(s, s2, d, m, k)
    requires forall j, l, x :: QueuedFrom(s2, j, l, x) ==>
        QueuedFrom(s, j, l, x) || (j == d && l == k && x == s.tasks[m].value.id)
    requires s.tasks[d].value.recvBlocked ==> !Matches(s.tasks[d].value.recvFilter, s.tasks[m].value.id)
    ensures NoLost(s2)
  {
  }

  /** The receiver's queue is full: the message is staged at us and we block. */
  lemma StageKeeps(s: Sys, d: nat, m: nat, msg: Message)
    requires WaitsOk(s) && Conserved(s) && Has(s, d) && Has(s, m) && m != d && !IsIdle(m)
    requires s.tasks[m].value.state == Running && s.tasks[d].value.id != s.tasks[m].value.id
    requires s.tasks[d].value.recvBlocked ==> !Matches(s.tasks[d].value.recvFilter, s.tasks[m].value.id)
    ensures var me, t := s.tasks[m].value, s.tasks[d].value;
            var s1 := Put(Accept(s, t.id, me.id, msg), m,
                me.(staged := Some(StagedSend(t.id, me.id, msg)), state := Blocked));
            WaitsOk(s1) && Conserved(s1)
  {
    hide IdsOk, SendersOk, NoLost, InTransit, Conserved;
    var me, t := s.tasks[m].value, s.tasks[d].value;
    var s1 := Put(Accept(s, t.id, me.id, msg), m, me.(staged := Some(StagedSend(t.id, me.id, msg)), state := Blocked));
    assert OneReason(m, me);
    StageConserves(s, m, t.id, msg);
    IdsKeep(s, s1);
    UnparkedHasNoneQueued(s, m);
    SendersKeep(s, s1);
    StageNoLost(s, s1, d, m);
  }

  lemma StageConserves(s: Sys, m: nat, dst: u32, msg: Message)
    requires Conserved(s) && Has(s, m) && s.tasks[m].value.staged.None? && |s.tasks[m].value.pending| == 2
    ensures var me := s.tasks[m].value;
      Conserved(Put(Accept(s, dst, me.id, msg), m, me.(staged := Some(StagedSend(dst, me.id, msg)), state := Blocked)))
  {
    hide InTransit, Conserved;
    var me := s.tasks[m].value;
    var s1 := Put(Accept(s, dst, me.id, msg), m, me.(staged := Some(StagedSend(dst, me.id, msg)), state := Blocked));
    PutConserves(s, s1, m, multiset{Delivery(dst, Stamp(msg, me.id))}, multiset{});
  }

  lemma StageNoLost(s: Sys, s1: Sys, d: nat, m: nat)
    requires IdsOk(s) && NoLost(s) && FewerQueued(s, s1) && |s.tasks| == |s1.tasks|
    requires Has(s, d) && Has(s, m) && Has(s1, m) && m != d && !s1.tasks[m].value.recvBlocked
    requires forall i :: 0 <= i < |s.tasks| && i != m ==> s1.tasks[i] == s.tasks[i]
    requires s1.tasks[m].value.staged.Some? && s1.tasks[m].value.staged.value.dst == s.tasks[d].value.id
    requires s1.tasks[m].value.staged.value.src == s.tasks[m].value.id
    requires s.tasks[d].value.recvBlocked ==> !Matches(s.tasks[d].value.recvFilter, s.tasks[m].value.id)
    ensures NoLost(s1)
  {
  }

  /** A receiver takes a queued message; its sender is released. */
  lemma TakeQueuedKeeps(s: Sys, m: nat, k: nat, i: nat)
    requires WaitsOk(s) && Conserved(s) && Has(s, m) && k < 2 && s.tasks[m].value.pending[k].Some?
    requires s.tasks[m].value.state == Running
    requires Has(s, i) && s.tasks[i].value.id == s.tasks[m].value.pending[k].value.src
    ensures i != m && Parked(s.tasks[i].value)
    ensures var me, t := s.tasks[m].value, s.tasks[i].value;
            var p := me.pending[k].value;
            var s1 := Put(s, m, me.(pending := me.pending[k := None], buf := Some(Stamp(p.msg, p.src))))
                      .(delivered := s.delivered + multiset{Delivery(me.id, Stamp(p.msg, p.src))});
            var s2 := Put(s1, i, t.(state := Ready));
            WaitsOk(s2) && Conserved(s2)
  {
    hide IdsOk, NoLost, InTransit, Held;
    var me, t := s.tasks[m].value, s.tasks[i].value;
    assert QueuedFrom(s, m, k, t.id);
    assert i != m && Parked(t);
    hide SendersOk, QueuedFrom, OneReason;
    var p := me.pending[k].value;
    var s1 := Put(s, m, me.(pending := me.pending[k := None], buf := Some(Stamp(p.msg, p.src))))
              .(delivered := s.delivered + multiset{Delivery(me.id, Stamp(p.msg, p.src))});
    var s2 := Put(s1, i, t.(state := Ready));
    UnqueueConserves(s, s1, m, k);
    OneSameHeld(s1, s2, i);
    DequeueWaits(s, s2, m, k, i);
  }

  lemma DequeueWaits(s: Sys, s2: Sys, m: nat, k: nat, i: nat)
    requires WaitsOk(s) && |s2.tasks| == |s.tasks| && s2.cur == s.cur && s2.nextId == s.nextId
    requires Has(s, m) && Has(s, i) && Has(s2, m) && i != m && QueuedFrom(s, m, k, s.tasks[i].value.id)
    requires Parked(s.tasks[i].value)
    requires s2.tasks[m].value
        == s.tasks[m].value.(pending := s.tasks[m].value.pending[k := None], buf := s2.tasks[m].value.buf)
    requires s2.tasks[i] == Some(s.tasks[i].value.(state := Ready))
    requires forall j :: 0 <= j < |s.tasks| && j != i && j != m ==> s2.tasks[j] == s.tasks[j]
    ensures WaitsOk(s2)
  {
    hide IdsOk, NoLost, SendersOk;
    IdsKeep(s, s2);
    DequeueQueue(s, s2, m, k, i);
    hide QueuedFrom;
    SendersKeep(s, s2);
    NoLostKeep(s, s2);
  }

  /** Exactly the taken entry is gone from the queues. */
  lemma DequeueQueue(s: Sys, s2: Sys, m: nat, k: nat, i: nat)
    requires SendersOk(s) && |s2.tasks| == |s.tasks|
    requires Has(s, m) && Has(s, i) && Has(s2, m) && Has(s2, i) && i != m && QueuedFrom(s, m, k, s.tasks[i].value.id)
    requires s2.tasks[m].value.pending == s.tasks[m].value.pending[k := None]
        && s2.tasks[i].value.pending == s.tasks[i].value.pending
    requires forall j :: 0 <= j < |s.tasks| && j != i && j != m ==> s2.tasks[j] == s.tasks[j]
    ensures forall j, l, x :: QueuedFrom(s2, j, l, x) ==> QueuedFrom(s, j, l, x) && x != s.tasks[i].value.id
    ensures forall j, l, x :: QueuedFrom(s, j, l, x) && x != s.tasks[i].value.id ==> QueuedFrom(s2, j, l, x)
  {
    var id := s.tasks[i].value.id;
    forall j, l, x | QueuedFrom(s2, j, l, x) ensures QueuedFrom(s, j, l, x) && x != id {
      if j == m {
        assert l != k;
      } else if j != i {
        assert s2.tasks[j] == s.tasks[j];
      }
      assert QueuedFrom(s, j, l, x);
    }
    forall j, l, x | QueuedFrom(s, j, l, x) && x != id ensures QueuedFrom(s2, j, l, x) {
      if j == m {
        assert l != k;
      } else if j != i {
        assert s2.tasks[j] == s.tasks[j];
      }
    }
  }

  /** A receiver takes the message staged at another task, which is released. */
  lemma TakeStagedKeeps(s: Sys, m: nat, i: nat)
    requires WaitsOk(s) && Conserved(s) && Has(s, m) && Has(s, i) && s.tasks[i].value.staged.Some?
    requires s.tasks[m].value.state == Running && s.tasks[i].value.staged.value.dst == s.tasks[m].value.id
    ensures i != m && s.tasks[i].value.state == Blocked
    ensures var me, t := s.tasks[m].value, s.tasks[i].value;
            var g := t.staged.value;
            var s1 := Put(s, i, t.(staged := None, state := Ready));
            var s2 := Put(s1, m, me.(buf := Some(Stamp(g.msg, g.src))))
                      .(delivered := s.delivered + multiset{Delivery(me.id, Stamp(g.msg, g.src))});
            WaitsOk(s2) && Conserved(s2)
  {
    hide IdsOk, SendersOk, NoLost, InTransit;
    var me, t := s.tasks[m].value, s.tasks[i].value;
    var g := t.staged.value;
    var one := multiset{Delivery(me.id, Stamp(g.msg, g.src))};
    var s1 := Put(s, i, t.(staged := None, state := Ready)).(delivered := s.delivered + one);
    var s2 := Put(s1, m, me.(buf := Some(Stamp(g.msg, g.src))));
    UnstageConserves(s, s1, i);
    OneSameHeld(s1, s2, m);
    CalmKeeps(s, s2);
  }

  lemma UnstageConserves(s: Sys, s1: Sys, i: nat)
    requires Conserved(s) && Has(s, i) && |s.tasks[i].value.pending| == 2 && s.tasks[i].value.staged.Some?
    requires |s1.tasks| == |s.tasks|
    requires s1.tasks == s.tasks[i := Some(s.tasks[i].value.(staged := None, state := Ready))]
    requires s1.accepted == s.accepted
    requires var g := s.tasks[i].value.staged.value;
             s1.delivered == s.delivered + multiset{Delivery(g.dst, Stamp(g.msg, g.src))}
    ensures Conserved(s1)
  {
    hide InTransit;
    var g := s.tasks[i].value.staged.value;
    PutConserves(s, s1, i, multiset{}, multiset{Delivery(g.dst, Stamp(g.msg, g.src))});
  }

  /** Nothing acceptable is queued or staged: the receiver blocks. */
  lemma BlockReceiveKeeps(s: Sys, m: nat, filter: i32)
    requires WaitsOk(s) && Conserved(s) && Has(s, m) && !IsIdle(m) && s.tasks[m].value.state == Running
    requires FirstPending(s.tasks[m].value.pending, filter).None?
    requires FirstStaged(s.tasks, s.tasks[m].value.id, filter, 1).None?
    ensures var s1 := Put(s, m, s.tasks[m].value.(recvBlocked := true, recvFilter := filter, state := Blocked));
            WaitsOk(s1) && Conserved(s1)
  {
    hide IdsOk, SendersOk, NoLost, InTransit, Matches, FirstPending, FirstStaged;
    var s1 := Put(s, m, s.tasks[m].value.(recvBlocked := true, recvFilter := filter, state := Blocked));
    OneSameHeld(s, s1, m);
    IdsKeep(s, s1);
    UnparkedHasNoneQueued(s, m);
    SendersKeep(s, s1);
    BlockNoLost(s, s1, m, filter);
  }

  lemma BlockNoLost(s: Sys, s1: Sys, m: nat, filter: i32)
    requires NoLost(s) && Typed(s) && Has(s, m) && Has(s1, m) && IdsOk(s) && |s.tasks| == |s1.tasks|
    requires forall i :: Has(s, i) ==> OneReason(i, s.tasks[i].value)
    requires s1.tasks[m].value == s.tasks[m].value.(recvBlocked := true, recvFilter := filter, state := Blocked)
    requires forall i :: 0 <= i < |s.tasks| && i != m ==> s1.tasks[i] == s.tasks[i]
    requires FirstPending(s.tasks[m].value.pending, filter).None?
    requires FirstStaged(s.tasks, s.tasks[m].value.id, filter, 1).None?
    ensures NoLost(s1)
  {
    hide Matches;
    forall i, k, src | Has(s1, i) && s1.tasks[i].value.recvBlocked && QueuedFrom(s1, i, k, src)
      ensures !Matches(s1.tasks[i].value.recvFilter, src)
    {
      assert QueuedFrom(s, i, k, src);
      if i == m {
        assert s.tasks[m].value.pending[k].Some?;
      }
    }
    forall i, j | Has(s1, i) && Has(s1, j) && s1.tasks[i].value.recvBlocked && s1.tasks[j].value.staged.Some?
                  && s1.tasks[j].value.staged.value.dst == s1.tasks[i].value.id
      ensures !Matches(s1.tasks[i].value.recvFilter, s1.tasks[j].value.staged.value.src)
    {
      assert Has(s, j) && OneReason(j, s.tasks[j].value) && s.tasks[j].value.staged == s1.tasks[j].value.staged;
      if i == m {
        assert j != 0;
        assert !StagedFor(s.tasks[j], s.tasks[m].value.id, filter);
      }
    }
  }

  lemma SleepKeeps(s: Sys, m: nat, deadline: nat)
    requires deadline > 0 && WaitsOk(s) && Conserved(s) && Has(s, m) && !IsIdle(m) && s.tasks[m].value.state == Running
    ensures var s1 := Put(s, m, s.tasks[m].value.(deadline := deadline, state := Blocked));
            WaitsOk(s1) && Conserved(s1)
  {
    hide IdsOk, SendersOk, NoLost, InTransit;
    var s1 := Put(s, m, s.tasks[m].value.(deadline := deadline, state := Blocked));
    OneSameHeld(s, s1, m);
    CalmKeeps(s, s1);
  }

  lemma WakeSleepersKeeps(s: Sys)
    requires WaitsOk(s) && Conserved(s)
    ensures WaitsOk(WakeSleepers(s)) && Conserved(WakeSleepers(s))
  {
    hide IdsOk, SendersOk, NoLost, InTransit, Held;
    var s1 := WakeSleepers(s);
    forall i | 0 <= i < |s.tasks| ensures Held(s1.tasks[i]) == Held(s.tasks[i]) {
      if s.tasks[i].Some? {
        HeldSame(s.tasks[i].value, s1.tasks[i].value);
      }
    }
    SameHeldConserves(s, s1);
    CalmKeeps(s, s1);
  }

  lemma SpawnKeeps(s: Sys, i: nat, priority: byte)
    requires WaitsOk(s) && Conserved(s) && s.nextId < 0x4000_0000
    requires 1 <= i < MAX_TASKS && s.tasks[i].None?
    ensures var s1 := Put(s, i, NewTask(s.nextId, priority)).(nextId := s.nextId + 1);
            WaitsOk(s1) && Conserved(s1)
  {
    hide IdsOk, SendersOk, NoLost, InTransit, Held, Matches;
    var s1 := Put(s, i, NewTask(s.nextId, priority)).(nextId := s.nextId + 1);
    NewTaskHolds(s.nextId, priority);
    SameHeldConserves(s, s1);
    SpawnIds(s, s1, i, priority);
    NoLostKeep(s, s1);
  }

  lemma NewTaskHolds(id: u32, priority: byte)
    ensures Held(Some(NewTask(id, priority))) == Held(None) == multiset{}
  {
  }

  lemma SpawnIds(s: Sys, s1: Sys, i: nat, priority: byte)
    requires IdsOk(s) && SendersOk(s) && s.nextId < 0x4000_0000 && |s.tasks| == MAX_TASKS
    requires 1 <= i < MAX_TASKS && s.tasks[i].None? && !IsIdle(i)
    requires s1.tasks == s.tasks[i := Some(NewTask(s.nextId, priority))] && s1.nextId == s.nextId + 1
    ensures IdsOk(s1) && SendersOk(s1)
  {
    assert IdsOk(s1) by {
      hide Occupied, SendersOk;
      OccupiedUpdate(s.tasks, i, NewTask(s.nextId, priority));
    }
    assert forall j, l :: !QueuedFrom(s, j, l, s.nextId) by {
      hide Occupied;
    }
    hide SendersOk, IdsOk, Occupied;
    assert forall j, l, x :: QueuedFrom(s1, j, l, x) <==> QueuedFrom(s, j, l, x);
    hide QueuedFrom;
    SendersKeep(s, s1);
  }

  /** Changes of state that do not touch Blocked. */
  lemma StateKeeps(s: Sys, i: nat, state: TaskState)
    requires WaitsOk(s) && Conserved(s) && Has(s, i)
    requires state != Blocked && s.tasks[i].value.state != Blocked
    ensures var s1 := Put(s, i, s.tasks[i].value.(state := state)); WaitsOk(s1) && Conserved(s1)
  {
    hide IdsOk, SendersOk, NoLost, InTransit, Held;
    var s1 := Put(s, i, s.tasks[i].value.(state := state));
    OneSameHeld(s, s1, i);
    CalmKeeps(s, s1);
  }
}
