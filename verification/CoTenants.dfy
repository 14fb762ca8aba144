/** Round robin over the co-tenant virtual machines. */
module CoTenants {
  /** Tenants not parked have run equally often, those before the cursor once more. */
  ghost predicate Balanced(parked: seq<bool>, runs: seq<nat>, cursor: nat, level: nat) {
    && |parked| == |runs| && (cursor < |runs| || cursor == 0)
    && forall i :: 0 <= i < |runs| && !parked[i] ==> runs[i] == if i < cursor then level + 1 else level
  }

  /** `i` is the first tenant from the cursor on, going around, that is not parked. */
  ghost predicate NextUp(parked: seq<bool>, cursor: nat, i: nat) {
    && i < |parked| && cursor < |parked| && !parked[i]
    && forall k :: 0 <= k < |parked| && Between(cursor, i, k) ==> parked[k]
  }

  /** `k` is met on the way from `cursor` around to `i`, before `i`. */
  predicate Between(cursor: nat, i: nat, k: nat) {
    if cursor <= i then cursor <= k < i else k >= cursor || k < i
  }

  /** Running the next tenant keeps the balance. */
  lemma SliceBalanced(parked: seq<bool>, runs: seq<nat>, cursor: nat, level: nat, i: nat)
    requires Balanced(parked, runs, cursor, level) && NextUp(parked, cursor, i)
    ensures var cursor' := if i + 1 == |runs| then 0 else i + 1;
      Balanced(parked, runs[i := runs[i] + 1], cursor', if i < cursor || i + 1 == |runs| then level + 1 else level)
  {
  }

  /** So no tenant in the rotation is ever more than one run ahead of another. */
  lemma Fair(parked: seq<bool>, runs: seq<nat>, cursor: nat, level: nat, i: nat, j: nat)
    requires Balanced(parked, runs, cursor, level) && i < |runs| && j < |runs| && !parked[i] && !parked[j]
    ensures runs[i] <= runs[j] + 1
  {
  }

  function Count(parked: seq<bool>): nat {
    if parked == [] then 0 else Count(parked[..|parked| - 1]) + if parked[|parked| - 1] then 1 else 0
  }

  lemma {:induction false} CountOne(parked: seq<bool>, i: nat)
    requires i < |parked| && !parked[i]
    ensures Count(parked[i := true]) == Count(parked) + 1
  {
    var l := |parked| - 1;
    if i < l {
      CountOne(parked[..l], i);
      assert parked[i := true][..l] == parked[..l][i := true];
    } else {
      assert parked[i := true][..l] == parked[..l];
    }
  }

  lemma {:induction false} CountAll(parked: seq<bool>)
    ensures Count(parked) <= |parked|
    ensures Count(parked) == |parked| ==> forall i :: 0 <= i < |parked| ==> parked[i]
  {
    if parked != [] {
      CountAll(parked[..|parked| - 1]);
    }
  }

  function Sum(runs: seq<nat>): nat {
    if runs == [] then 0 else Sum(runs[..|runs| - 1]) + runs[|runs| - 1]
  }

  lemma {:induction false} SumOne(runs: seq<nat>, i: nat)
    requires i < |runs|
    ensures Sum(runs[i := runs[i] + 1]) == Sum(runs) + 1
  {
    var l := |runs| - 1;
    if i < l {
      SumOne(runs[..l], i);
      assert runs[i := runs[i] + 1][..l] == runs[..l][i := runs[i] + 1];
    } else {
      assert runs[i := runs[i] + 1][..l] == runs[..l];
    }
  }

  lemma {:induction false} CountNone(parked: seq<bool>)
    ensures Count(parked) == 0 <==> forall k :: 0 <= k < |parked| ==> !parked[k]
  {
    if parked != [] {
      CountNone(parked[..|parked| - 1]);
    }
  }

  /** Everyone who remained ran, the parked did not. */
  ghost predicate AllRan(parked: seq<bool>, runs: seq<nat>, runs': seq<nat>) {
    |runs'| == |runs| == |parked|
    && forall k :: 0 <= k < |runs| ==> if parked[k] then runs'[k] == runs[k] else runs'[k] >= runs[k] + 1
  }

  /** Everyone who remained ran exactly once. */
  ghost predicate OneEach(parked: seq<bool>, runs: seq<nat>, runs': seq<nat>) {
    |runs'| == |runs| == |parked| && forall k :: 0 <= k < |runs| && !parked[k] ==> runs'[k] == runs[k] + 1
  }

  /** The runs are as many as the tenants that remained exactly if each of these had one. */
  lemma {:induction false} Spread(parked: seq<bool>, runs: seq<nat>, runs': seq<nat>)
    requires AllRan(parked, runs, runs')
    ensures Sum(runs') >= Sum(runs) + |parked| - Count(parked)
    ensures Sum(runs') == Sum(runs) + |parked| - Count(parked) <==> OneEach(parked, runs, runs')
  {
    if runs != [] {
      var l := |runs| - 1;
      Spread(parked[..l], runs[..l], runs'[..l]);
      assert OneEach(parked, runs, runs') <==>
          OneEach(parked[..l], runs[..l], runs'[..l]) && (!parked[l] ==> runs'[l] == runs[l] + 1);
    }
  }

  /** The parked stay out, and no count falls. */
  ghost predicate Kept(p0: seq<bool>, r0: seq<nat>, p: seq<bool>, r: seq<nat>) {
    && |p0| == |r0| == |p| == |r|
    && (forall k :: 0 <= k < |p0| && p0[k] ==> p[k] && r[k] == r0[k])
    && forall k :: 0 <= k < |p0| ==> r[k] >= r0[k]
  }

  lemma KeptThen(p0: seq<bool>, r0: seq<nat>, p1: seq<bool>, r1: seq<nat>, p2: seq<bool>, r2: seq<nat>)
    requires Kept(p0, r0, p1, r1) && Kept(p1, r1, p2, r2)
    ensures Kept(p0, r0, p2, r2)
    ensures (forall k :: 0 <= k < |p1| ==> p1[k]) ==> forall k :: 0 <= k < |p2| ==> p2[k]
  {
  }

  /** Tenant `k` was not met yet, going from `start` on `laps` times past the end to `cursor`. */
  predicate Unmet(start: nat, laps: nat, cursor: nat, k: nat) {
    (laps == 0 && (k >= cursor || k < start)) || (laps == 1 && cursor <= k < start)
  }

  /** Whoever was met ran or was parked from the start, the others are as they were. */
  ghost predicate Swept(parked: seq<bool>, runs: seq<nat>, parked': seq<bool>, runs': seq<nat>, start: nat, laps: nat,
                        cursor: nat) {
    |runs| == |parked| == |parked'| == |runs'|
    && forall k :: 0 <= k < |runs| ==>
         if Unmet(start, laps, cursor, k) then runs'[k] == runs[k] && parked'[k] == parked[k]
         else parked[k] || runs'[k] >= runs[k] + 1
  }

  lemma SweptNone(parked: seq<bool>, runs: seq<nat>, start: nat)
    requires |parked| == |runs|
    ensures Swept(parked, runs, parked, runs, start, 0, start)
  {
  }

  /** The passage to the next tenant and its slice. */
  lemma SweptStep(p0: seq<bool>, r0: seq<nat>, p: seq<bool>, r: seq<nat>, p': seq<bool>, r': seq<nat>, start: nat,
                  laps: nat, cursor: nat, i: nat)
    requires Swept(p0, r0, p, r, start, laps, cursor) && NextUp(p, cursor, i) && (laps == 0 ==> start <= cursor)
    requires |p'| == |p| && |r'| == |r| && r'[i] == r[i] + 1
    requires forall k :: 0 <= k < |p| && k != i ==> p'[k] == p[k] && r'[k] == r[k]
    requires Kept(p0, r0, p, r)
    ensures var cursor', laps' := if i + 1 == |p| then 0
        else i + 1, if i < cursor || i + 1 == |p| then laps + 1 else laps;
      Swept(p0, r0, p', r', start, laps', cursor')
  {
  }

  /** Once all were met or all are parked, everyone who remained has run. */
  lemma SweptAll(p0: seq<bool>, r0: seq<nat>, p: seq<bool>, r: seq<nat>, start: nat, laps: nat, cursor: nat)
    requires Swept(p0, r0, p, r, start, laps, cursor) && Kept(p0, r0, p, r)
    requires laps > 1 || (laps == 1 && start <= cursor) || forall k :: 0 <= k < |p| ==> p[k]
    ensures AllRan(p0, r0, r)
  {
  }

  lemma SumOfTwo(runs: seq<nat>)
    requires |runs| == 2
    ensures Sum(runs) == runs[0] + runs[1]
  {
    assert runs[..1][..0] == [] && Sum(runs[..1]) == runs[0];
  }

  /** The slices in `passes` full passes over `n` tenants. */
  function Total(passes: nat, n: nat): nat {
    if passes == 0 then 0 else Total(passes - 1, n) + n
  }

  lemma {:induction false} TotalMore(a: nat, b: nat, n: nat)
    requires a <= b
    ensures Total(a, n) <= Total(b, n)
  {
    if a < b {
      TotalMore(a, b - 1, n);
    }
  }

  datatype Exit = Preempted | Yielded | OtherExit | Failed

  class Tenants {
    const n: nat
    const parked: array<bool>
    const runs: array<nat>
    var cursor: nat
    var parkedCount: nat
    ghost var level: nat

    ghost predicate Ok()
      reads this, parked, runs
    {
      && parked.Length == n && runs.Length == n && Balanced(parked[..], runs[..], cursor, level)
      && parkedCount <= Count(parked[..])
    }

    ghost predicate AllParked()
      reads parked
    {
      forall k :: 0 <= k < parked.Length ==> parked[k]
    }

    constructor (n: nat)
      ensures this.n == n && Ok() && fresh(parked) && fresh(runs)
      ensures forall i :: 0 <= i < n ==> !parked[i] && runs[i] == 0
    {
      this.n, parked, runs := n, new bool[n](_ => false), new nat[n](_ => 0);
      cursor, parkedCount, level := 0, 0, 0;
    }

    /** The next tenant to run, or `n` when all are parked. The search ends after one round. */
    method FindNext() returns (idx: nat)
      requires Ok() && n > 0
      ensures idx <= n
      ensures idx < n ==> NextUp(parked[..], cursor, idx)
      ensures idx == n ==> forall k :: 0 <= k < n ==> parked[k]
    {
      idx := cursor;
      var seen := 0;
      while parked[idx]
        invariant idx < n && seen < n && idx == (if cursor + seen < n then cursor + seen else cursor + seen - n)
        invariant forall k :: 0 <= k < n && (cursor <= k < cursor + seen || k < cursor + seen - n) ==> parked[k]
        decreases n - seen
      {
        idx := if idx + 1 == n then 0 else idx + 1;
        seen := seen + 1;
        if seen >= n {
          return n;
        }
      }
    }

    /** One time slice of tenant `idx`: it runs, and may announce that it is done. */
    method Slice(idx: nat, exit: Exit, done: bool) returns (ok: bool)
      requires Ok() && NextUp(parked[..], cursor, idx) && idx < n
      modifies this`cursor, this`parkedCount, this`level, parked, runs
      ensures Ok() && ok == (exit != Failed)
      ensures ok ==> cursor == if idx + 1 == n then 0 else idx + 1
      ensures forall k :: 0 <= k < n && k != idx ==> parked[k] == old(parked[k]) && runs[k] == old(runs[k])
      ensures ok ==> runs[idx] == old(runs[idx]) + 1 && parked[idx] == done
      ensures !ok ==> parked[idx] == old(parked[idx]) && runs[idx] == old(runs[idx])
      ensures Sum(runs[..]) == old(Sum(runs[..])) + if ok then 1 else 0
    {
      ghost var p0, r0, c0, l0 := parked[..], runs[..], cursor, level;
      SliceBalanced(p0, r0, c0, l0, idx);
      if exit == Failed { return false; } // the whole rotation ends, uncounted
      cursor := if idx + 1 == n then 0 else idx + 1;
      runs[idx] := runs[idx] + 1;
      level := if idx < c0 || idx + 1 == n then l0 + 1 else l0;
      assert runs[..] == r0[idx := r0[idx] + 1];
      SumOne(r0, idx);
      if done && !parked[idx] {
        CountOne(p0, idx);
        parked[idx] := true;
        assert parked[..] == p0[idx := true];
        parkedCount := parkedCount + 1;
      }
      ok := true;
    }

    /** At most `maxPasses` passes of up to `n` slices, whatever the guests do. A pass is
        cut short only when no tenant is left, or by a failed run. */
    method Run(maxPasses: nat) returns (ok: bool, slices: nat)
      requires Ok()
      modifies this`cursor, this`parkedCount, this`level, parked, runs
      ensures Ok() && slices <= Total(maxPasses, n) && Sum(runs[..]) == old(Sum(runs[..])) + slices
      ensures ok ==> slices == Total(maxPasses, n) || AllParked()
      ensures Kept(old(parked[..]), old(runs[..]), parked[..], runs[..])
    {
      hide Balanced, Kept, AllRan, OneEach, Sum, Count;
      ghost var p0, r0 := parked[..], runs[..];
      Unchanged();
      ok, slices := true, 0;
      var pass := 0;
      while pass < maxPasses && parkedCount < n
        invariant Sum(runs[..]) == Sum(r0) + slices
        invariant Ok() && pass <= maxPasses && slices <= Total(pass, n)
        invariant ok ==> slices == Total(pass, n) || AllParked()
        invariant Kept(p0, r0, parked[..], runs[..])
      {
        ghost var p1, r1 := parked[..], runs[..];
        var more;
        ok, more := Pass();
        KeptThen(p0, r0, p1, r1, parked[..], runs[..]);
        slices := slices + more;
        pass := pass + 1;
        if !ok { TotalMore(pass, maxPasses, n); return; }
      }
      TotalMore(pass, maxPasses, n);
      CountAll(parked[..]);
    }

    lemma Unchanged()
      requires Ok()
      ensures Kept(parked[..], runs[..], parked[..], runs[..])
    {
    }

    /** The next tenant's slice, if there is one: `met` tells whether one ran. */
    method Turn(ghost p0: seq<bool>, ghost r0: seq<nat>, ghost start: nat, ghost laps: nat)
      returns (ok: bool, met: bool, ghost laps': nat)
      requires Ok() && n > 0 && cursor < n && (laps == 0 ==> start <= cursor)
      requires Kept(p0, r0, parked[..], runs[..]) && Swept(p0, r0, parked[..], runs[..], start, laps, cursor)
      modifies this`cursor, this`parkedCount, this`level, parked, runs
      ensures Ok() && cursor < n && Kept(p0, r0, parked[..], runs[..])
      ensures ok ==> Swept(p0, r0, parked[..], runs[..], start, laps', cursor)
      ensures ok && met ==> (laps' == laps && cursor > old(cursor)) || (laps' == laps + 1 && n + cursor > old(cursor))
      ensures ok && !met ==> AllParked() && laps' == laps && cursor == old(cursor)
      ensures Sum(runs[..]) == old(Sum(runs[..])) + if ok && met then 1 else 0
    {
      ghost var p1, r1, c1 := parked[..], runs[..], cursor;
      hide Balanced, Swept, Sum, Count, NextUp;
      ok, met, laps' := true, false, laps;
      var idx := FindNext();
      if idx == n { return; }
      NextIn(p1, c1, idx);
      var exit: Exit := *;
      var done: bool := *;
      ok := Slice(idx, exit, done);
      met := true;
      if ok {
        SweptStep(p0, r0, p1, r1, parked[..], runs[..], start, laps, c1, idx);
        laps' := if idx < c1 || idx + 1 == n then laps + 1 else laps;
      }
    }

    lemma NextIn(p: seq<bool>, c: nat, i: nat)
      requires NextUp(p, c, i)
      ensures i < |p| && !p[i]
    {
    }

    /**
     * One pass: `n` slices, fewer when all are parked or a run failed. Every
     * tenant that remained gets at least one; each gets exactly one if and
     * only if the slices are as many as they, so a pass of `n` slices is one
     * slice per remaining tenant exactly when nobody was parked before.
     */
    method Pass() returns (ok: bool, slices: nat)
      requires Ok() && n > 0
      modifies this`cursor, this`parkedCount, this`level, parked, runs
      ensures Ok() && slices <= n && Sum(runs[..]) == old(Sum(runs[..])) + slices
      ensures slices < n ==> !ok || AllParked()
      ensures Kept(old(parked[..]), old(runs[..]), parked[..], runs[..])
      ensures ok ==> AllRan(old(parked[..]), old(runs[..]), runs[..])
      ensures ok ==> (OneEach(old(parked[..]), old(runs[..]), runs[..]) <==> slices == n - Count(old(parked[..])))
      ensures ok && slices == n ==>
                (OneEach(old(parked[..]), old(runs[..]), runs[..]) <==> forall k :: 0 <= k < n ==> !old(parked[k]))
    {
      ghost var p0, r0, c0, laps := parked[..], runs[..], cursor, 0;
      hide Balanced, Swept, Kept, Sum, Count, AllRan, OneEach;
      InBounds();
      Unchanged();
      SweptNone(p0, r0, c0);
      CountNone(p0);
      ok, slices := true, 0;
      while slices < n
        invariant Ok() && slices <= n && ok && cursor < n && Sum(runs[..]) == Sum(r0) + slices
        invariant Kept(p0, r0, parked[..], runs[..]) && Swept(p0, r0, parked[..], runs[..], c0, laps, cursor)
        invariant (laps == 0 ==> cursor >= c0 + slices) && (laps == 1 ==> n + cursor >= c0 + slices)
      {
        var met;
        ok, met, laps := Turn(p0, r0, c0, laps);
        if !ok { return; }
        if !met { break; }
        slices := slices + 1;
      }
      SweptAll(p0, r0, parked[..], runs[..], c0, laps, cursor);
      Spread(p0, r0, runs[..]);
    }

    lemma InBounds()
      requires Ok() && n > 0
      ensures cursor < n
    {
    }

    /** Two tenants, the second parked: unless it parks, the first runs twice in one pass. */
    method TwiceInOnePass() returns (ok: bool)
      requires Ok() && n == 2 && !parked[0] && parked[1]
      modifies this`cursor, this`parkedCount, this`level, parked, runs
      ensures ok && !parked[0] ==> runs[0] == old(runs[0]) + 2
    {
      SumOfTwo(runs[..]);
      var slices;
      ok, slices := Pass();
      SumOfTwo(runs[..]);
    }
  }
}
