/** The split virtqueue as two one-way rings between the kernel and the guest. */
module Virtqueue {
  import opened Bytes

  const QUEUE_SIZE := 16

  function Next(i: u16): u16 {
    (i + 1) % 0x1_0000
  }

  // ── One ring ───────────────────────────────────────────────────────────────

  /** `idx` is shared; `prod`, `cons` and `snap` are the shadow indices of the producer, the
      consumer, and the value of `idx` the consumer last read. `log` and `out` are all
      entries ever published and taken; `pending` is written but not published. */
  datatype Ring<T> = Ring(slots: seq<T>, idx: u16, prod: u16, cons: u16, snap: u16, log: seq<T>, out: seq<T>,
      pending: Option<T>, look: nat)

  function Held<T>(r: Ring<T>): nat {
    |r.log| + if r.pending.Some? then 1 else 0
  }

  ghost predicate RingOk<T>(r: Ring<T>) {
    && |r.slots| == QUEUE_SIZE
    && r.idx == r.prod == |r.log| % 0x1_0000 && r.cons == |r.out| % 0x1_0000 && r.snap == r.look % 0x1_0000
    && |r.out| <= r.look <= |r.log| && Held(r) <= |r.out| + QUEUE_SIZE
    && r.out <= r.log
    && (forall i :: |r.out| <= i < |r.log| ==> r.slots[i % QUEUE_SIZE] == r.log[i])
    && (r.pending.Some? ==> r.slots[|r.log| % QUEUE_SIZE] == r.pending.value)
  }

  /** The producer writes the next slot. */
  function Write<T>(r: Ring<T>, x: T): Ring<T>
    requires |r.slots| == QUEUE_SIZE
  {
    r.(slots := r.slots[r.prod % QUEUE_SIZE := x], pending := Some(x))
  }

  /** It bumps the index. */
  function Publish<T>(r: Ring<T>): Ring<T>
    requires r.pending.Some?
  {
    r.(prod := Next(r.prod), idx := Next(r.prod), log := r.log + [r.pending.value], pending := None)
  }

  /** The consumer reads the index. */
  function Look<T>(r: Ring<T>): Ring<T> {
    r.(snap := r.idx, look := |r.log|)
  }

  /** It takes one entry, while its index differs from the one read. */
  function Take<T>(r: Ring<T>): Ring<T>
    requires |r.slots| == QUEUE_SIZE
  {
    r.(out := r.out + [r.slots[r.cons % QUEUE_SIZE]], cons := Next(r.cons))
  }

  lemma Wraps(n: nat)
    ensures n % 0x1_0000 % QUEUE_SIZE == n % QUEUE_SIZE && Next(n % 0x1_0000) == (n + 1) % 0x1_0000
  {
    var q, r := n / 0x1_0000, n % 0x1_0000;
    assert n == 0x1_0000 * q + r;
    ModOf(n, 4096 * q, r);
    NextOf(q, r);
  }

  lemma ModOf(n: nat, q: nat, r: nat)
    requires n == QUEUE_SIZE * q + r
    ensures n % QUEUE_SIZE == r % QUEUE_SIZE
  {
    var q', r' := r / QUEUE_SIZE, r % QUEUE_SIZE;
    assert n == QUEUE_SIZE * (q + q') + r';
  }

  lemma NextOf(q: nat, r: nat)
    requires r < 0x1_0000
    ensures (0x1_0000 * q + r + 1) % 0x1_0000 == Next(r)
  {
    if r == 0xFFFF {
      assert 0x1_0000 * q + r + 1 == 0x1_0000 * (q + 1);
    }
  }

  /** Fewer than 16 apart, two different places have different slots. */
  lemma Slots(i: nat, j: nat)
    requires i < j < i + QUEUE_SIZE
    ensures i % QUEUE_SIZE != j % QUEUE_SIZE
  {
  }

  lemma WriteOk<T>(r: Ring<T>, x: T)
    requires RingOk(r) && r.pending.None? && |r.log| < |r.out| + QUEUE_SIZE
    ensures RingOk(Write(r, x))
  {
    Wraps(|r.log|);
    forall i | |r.out| <= i < |r.log| ensures i % QUEUE_SIZE != |r.log| % QUEUE_SIZE {
      Slots(i, |r.log|);
    }
  }

  lemma PublishOk<T>(r: Ring<T>)
    requires RingOk(r) && r.pending.Some?
    ensures RingOk(Publish(r))
  {
    Wraps(|r.log|);
  }

  lemma LookOk<T>(r: Ring<T>)
    requires RingOk(r)
    ensures RingOk(Look(r)) && (Look(r).cons == Look(r).snap <==> r.out == r.log)
  {
  }

  lemma TakeOk<T>(r: Ring<T>)
    requires RingOk(r) && r.cons != r.snap
    ensures RingOk(Take(r)) && |r.out| < |r.log| && Take(r).out == r.log[..|r.out| + 1]
  {
    Wraps(|r.out|);
    assert |r.out| < r.look;
    assert r.log[..|r.out| + 1] == r.log[..|r.out|] + [r.log[|r.out|]];
  }

  /** Without room the write destroys the entry the consumer takes next, unless it is the
      same entry again. */
  lemma Overrun<T>(r: Ring<T>, x: T)
    requires RingOk(r) && r.pending.None? && |r.log| == |r.out| + QUEUE_SIZE
    ensures r.out <= r.log && |r.out| < |r.log|
    ensures Take(Write(r, x)).out <= r.log <==> x == r.log[|r.out|]
  {
    Wraps(|r.log|);
    Wraps(|r.out|);
    Around(|r.out|);
    assert r.out <= r.log && r.prod % QUEUE_SIZE == r.cons % QUEUE_SIZE;
    hide RingOk;
    assert Take(Write(r, x)).out == r.out + [x];
    PrefixOne(r.out, r.log, x);
  }

  /** Sixteen descriptors posted, none taken: the seventeenth is taken first. */
  lemma SeventeenPosted()
    ensures var ds := seq(QUEUE_SIZE, i => i);
      var r := Ring(ds, 16, 16, 0, 0, ds, [], None, 0);
      RingOk(r) && Take(Write(r, 99)).out == [99]
  {
  }

  lemma Around(n: nat)
    ensures (n + QUEUE_SIZE) % QUEUE_SIZE == n % QUEUE_SIZE
  {
  }

  lemma PrefixOne<T>(out: seq<T>, log: seq<T>, x: T)
    requires out <= log && |out| < |log|
    ensures out + [x] <= log <==> x == log[|out|]
  {
  }

  // ── The two rings together ─────────────────────────────────────────────────

  datatype Elem = Elem(id: nat, len: nat)

  /** Descriptors go out on `avail` and come back on `used`. */
  datatype Queue = Queue(avail: Ring<nat>, used: Ring<Elem>)

  datatype Step =
    | PostWrite(desc: nat) | PostBump
    | GuestLook | GuestTake
    | PutWrite(e: Elem) | PutBump
    | KernelLook | KernelTake

  /** The kernel has at most 16 buffers outstanding, and the guest returns only what it
      has seen; the rest is what the code tests. */
  predicate Enabled(q: Queue, s: Step) {
    match s
    case PostWrite(_) => q.avail.pending.None? && |q.avail.log| < |q.used.out| + QUEUE_SIZE
    case PostBump => q.avail.pending.Some?
    case GuestLook => true
    case GuestTake => q.avail.cons != q.avail.snap
    case PutWrite(_) => q.used.pending.None? && |q.used.log| < |q.avail.out|
    case PutBump => q.used.pending.Some?
    case KernelLook => true
    case KernelTake => q.used.cons != q.used.snap
  }

  ghost predicate QueueOk(q: Queue) {
    RingOk(q.avail) && RingOk(q.used) && Held(q.used) <= |q.avail.out| && Held(q.avail) <= |q.used.out| + QUEUE_SIZE
  }

  ghost function Apply(q: Queue, s: Step): Queue
    requires QueueOk(q) && Enabled(q, s)
  {
    match s
    case PostWrite(d) => q.(avail := Write(q.avail, d))
    case PostBump => q.(avail := Publish(q.avail))
    case GuestLook => q.(avail := Look(q.avail))
    case GuestTake => q.(avail := Take(q.avail))
    case PutWrite(e) => q.(used := Write(q.used, e))
    case PutBump => q.(used := Publish(q.used))
    case KernelLook => q.(used := Look(q.used))
    case KernelTake => q.(used := Take(q.used))
  }

  lemma RingBounds<T>(r: Ring<T>)
    requires RingOk(r)
    ensures |r.slots| == QUEUE_SIZE && |r.out| <= |r.log|
    ensures r.cons != r.snap ==> |r.out| < |r.log|
  {
  }

  lemma ApplyOk(q: Queue, s: Step)
    requires QueueOk(q) && Enabled(q, s)
    ensures QueueOk(Apply(q, s))
  {
    hide RingOk;
    RingBounds(q.avail);
    RingBounds(q.used);
    match s {
      case PostWrite(d) => WriteOk(q.avail, d);
      case PostBump => PublishOk(q.avail);
      case GuestLook => LookOk(q.avail);
      case GuestTake => TakeOk(q.avail);
      case PutWrite(e) => WriteOk(q.used, e);
      case PutBump => PublishOk(q.used);
      case KernelLook => LookOk(q.used);
      case KernelTake => TakeOk(q.used);
    }
  }

  ghost function Run(q: Queue, steps: seq<Step>): Queue
    requires QueueOk(q)
    ensures QueueOk(Run(q, steps))
    decreases |steps|
  {
    if steps == [] then q
    else if Enabled(q, steps[0]) then (ApplyOk(q, steps[0]); Run(Apply(q, steps[0]), steps[1..]))
    else Run(q, steps[1..])
  }

  ghost function Fresh(ring: seq<nat>, uring: seq<Elem>): (q: Queue)
    requires |ring| == QUEUE_SIZE && |uring| == QUEUE_SIZE
    ensures QueueOk(q)
  {
    Queue(Ring(ring, 0, 0, 0, 0, [], [], None, 0), Ring(uring, 0, 0, 0, 0, [], [], None, 0))
  }

  /** For runs of any length and any interleaving, the guest takes the posted descriptors
      in order, each once, and the kernel the returned ones; a side that has just read an
      index equal to its own has taken everything. */
  lemma InOrder(ring: seq<nat>, uring: seq<Elem>, steps: seq<Step>)
    requires |ring| == QUEUE_SIZE && |uring| == QUEUE_SIZE
    ensures var q := Run(Fresh(ring, uring), steps);
      && q.avail.out <= q.avail.log && q.used.out <= q.used.log
      && |q.used.out| <= |q.used.log| <= |q.avail.out| <= |q.avail.log| <= |q.used.out| + QUEUE_SIZE
      && (q.avail.cons == q.avail.idx <==> q.avail.out == q.avail.log)
      && (q.used.cons == q.used.idx <==> q.used.out == q.used.log)
  {
    var q := Run(Fresh(ring, uring), steps);
    LookOk(q.avail);
    LookOk(q.used);
  }

  /** Writing a slot and bumping the index, as one call does. */
  function Post(q: Queue, desc: nat): Queue
    requires |q.avail.slots| == QUEUE_SIZE
  {
    q.(avail := Publish(Write(q.avail, desc)))
  }

  function Put(q: Queue, e: Elem): Queue
    requires |q.used.slots| == QUEUE_SIZE
  {
    q.(used := Publish(Write(q.used, e)))
  }

  // ── In shared memory ───────────────────────────────────────────────────────

  /** The shared region: descriptor lengths and both rings. `q` is the history. */
  class Region {
    const lens: array<nat>
    const avail: array<nat>
    const used: array<Elem>
    var availIdx: u16
    var usedIdx: u16
    ghost var q: Queue

    ghost predicate Ok()
      reads this, avail, used
    {
      && lens.Length == avail.Length == used.Length == QUEUE_SIZE && lens != avail
      && QueueOk(q) && q.avail.slots == avail[..] && q.used.slots == used[..] && q.avail.idx == availIdx
         && q.used.idx == usedIdx
    }

    constructor ()
      ensures Ok() && q.avail.log == [] && q.used.log == [] && fresh(lens) && fresh(avail) && fresh(used)
    {
      lens, avail, used := new nat[QUEUE_SIZE](_ => 0), new nat[QUEUE_SIZE](_ => 0),
          new Elem[QUEUE_SIZE](_ => Elem(0, 0));
      availIdx, usedIdx := 0, 0;
      new;
      q := Fresh(avail[..], used[..]);
    }
  }

  /** One party's view: the region and its two shadow indices. */
  class View {
    const mem: Region
    var availIdx: u16
    var lastUsedIdx: u16

    constructor (mem: Region)
      ensures this.mem == mem && availIdx == 0 && lastUsedIdx == 0
    {
      this.mem, availIdx, lastUsedIdx := mem, 0, 0;
    }

    ghost predicate Kernel()
      reads this, mem, mem.avail, mem.used
    {
      mem.Ok() && availIdx == mem.q.avail.prod && lastUsedIdx == mem.q.used.cons && mem.q.avail.pending.None?
    }

    ghost predicate Guest()
      reads this, mem, mem.avail, mem.used
    {
      mem.Ok() && availIdx == mem.q.avail.cons && lastUsedIdx == mem.q.used.prod && mem.q.used.pending.None?
    }

    /** Posts a descriptor to the guest. */
    method PostAvail(desc: nat, len: nat)
      requires Kernel() && desc < QUEUE_SIZE
      modifies this`availIdx, mem`availIdx, mem`q, mem.lens, mem.avail
      ensures mem.lens[desc] == len && mem.q == Post(old(mem.q), desc)
      ensures mem.q.avail.log == old(mem.q.avail.log) + [desc]
      ensures mem.avail[..] == mem.q.avail.slots && mem.availIdx == availIdx == mem.q.avail.idx
      ensures old(Enabled(mem.q, PostWrite(desc))) ==> Kernel()
    {
      if Enabled(mem.q, PostWrite(desc)) {
        ApplyOk(mem.q, PostWrite(desc));
        ApplyOk(Apply(mem.q, PostWrite(desc)), PostBump);
      }
      hide QueueOk;
      mem.lens[desc] := len;
      mem.avail[availIdx % QUEUE_SIZE] := desc;
      availIdx := Next(availIdx);
      mem.availIdx := availIdx;
      mem.q := Post(mem.q, desc);
    }

    /** Returns a descriptor to the kernel. */
    method GuestPutUsed(desc: nat, written: nat)
      requires Guest()
      modifies this`lastUsedIdx, mem`usedIdx, mem`q, mem.used
      ensures mem.q == Put(old(mem.q), Elem(desc, written))
      ensures mem.q.used.log == old(mem.q.used.log) + [Elem(desc, written)]
      ensures mem.used[..] == mem.q.used.slots && mem.usedIdx == lastUsedIdx == mem.q.used.idx
      ensures old(Enabled(mem.q, PutWrite(Elem(desc, written)))) ==> Guest()
    {
      if Enabled(mem.q, PutWrite(Elem(desc, written))) {
        ApplyOk(mem.q, PutWrite(Elem(desc, written)));
        ApplyOk(Apply(mem.q, PutWrite(Elem(desc, written))), PutBump);
      }
      hide QueueOk;
      mem.used[lastUsedIdx % QUEUE_SIZE] := Elem(desc, written);
      lastUsedIdx := Next(lastUsedIdx);
      mem.usedIdx := lastUsedIdx;
      mem.q := Put(mem.q, Elem(desc, written));
    }

    /** Hands over every descriptor posted and not yet seen, in post order. */
    method GuestPollAvail() returns (out: seq<nat>)
      requires Guest()
      modifies this`availIdx, mem`q
      ensures Guest() && mem.q.used == old(mem.q.used) && mem.q.avail.log == old(mem.q.avail.log)
      ensures mem.q.avail.out == mem.q.avail.log == old(mem.q.avail.out) + out
    {
      out := [];
      ghost var start := mem.q.avail.out;
      LookOk(mem.q.avail);
      mem.q := Apply(mem.q, GuestLook);
      var idx := mem.availIdx;
      while availIdx != idx
        invariant Guest() && mem.q.used == old(mem.q.used) && mem.q.avail.log == old(mem.q.avail.log)
        invariant mem.q.avail.snap == idx && mem.q.avail.look == |mem.q.avail.log| && mem.q.avail.out == start + out
        decreases |mem.q.avail.log| - |mem.q.avail.out|
      {
        TakeOk(mem.q.avail);
        ApplyOk(mem.q, GuestTake);
        out := out + [mem.avail[availIdx % QUEUE_SIZE]];
        mem.q := Apply(mem.q, GuestTake);
        availIdx := Next(availIdx);
      }
      LookOk(mem.q.avail);
    }

    /** Hands over every descriptor returned and not yet collected, in return order. */
    method PollUsed() returns (out: seq<Elem>)
      requires Kernel()
      modifies this`lastUsedIdx, mem`q
      ensures Kernel() && mem.q.avail == old(mem.q.avail) && mem.q.used.log == old(mem.q.used.log)
      ensures mem.q.used.out == mem.q.used.log == old(mem.q.used.out) + out
    {
      out := [];
      ghost var start := mem.q.used.out;
      while true
        invariant Kernel() && mem.q.avail == old(mem.q.avail) && mem.q.used.log == old(mem.q.used.log)
        invariant mem.q.used.out == start + out
        decreases |mem.q.used.log| - |mem.q.used.out|
      {
        hide RingOk, Apply, Look;
        SeenNothing();
        mem.q := Apply(mem.q, KernelLook);
        if mem.usedIdx == lastUsedIdx { break; }
        var e := TakeUsed();
        out := out + [e];
      }
    }

    /** The kernel looks at the index: it finds nothing new exactly when all was collected. */
    lemma SeenNothing()
      requires Kernel()
      ensures var q := Apply(mem.q, KernelLook);
        && QueueOk(q) && q.avail == mem.q.avail && q == mem.q.(used := q.used)
        && q.used == mem.q.used.(look := q.used.look, snap := q.used.snap) && q.used.snap == mem.usedIdx
        && (mem.usedIdx == lastUsedIdx <==> mem.q.used.out == mem.q.used.log)
    {
      LookOk(mem.q.used);
    }

    /** One turn of the loop: the next element leaves the ring. */
    method TakeUsed() returns (e: Elem)
      requires Kernel() && mem.q.used.snap == mem.usedIdx != lastUsedIdx
      modifies this`lastUsedIdx, mem`q
      ensures Kernel() && mem.q.avail == old(mem.q.avail) && mem.q.used.log == old(mem.q.used.log)
      ensures mem.q.used.out == old(mem.q.used.out) + [e] && |mem.q.used.out| <= |mem.q.used.log|
    {
      TakeOk(mem.q.used);
      ApplyOk(mem.q, KernelTake);
      hide RingOk;
      e := mem.used[lastUsedIdx % QUEUE_SIZE];
      mem.q := Apply(mem.q, KernelTake);
      lastUsedIdx := Next(lastUsedIdx);
    }
  }
}
