/** The physical frame allocator: a bitmap that refines the set of free frames. */
module Frames {
  import opened Bytes

  const PAGE_SIZE: nat := 4096
  const MAX_RAM_SIZE: nat := 1024 * 1024 * 1024
  const BITMAP_WORDS: nat := 4096

  /** A 64-bit word, bit by bit. */
  type Word = w: seq<bool> | |w| == 64 witness seq(64, _ => false)

  predicate IsZero(w: Word) {
    forall b :: 0 <= b < 64 ==> !w[b]
  }

  /** The index of the lowest set bit from `b` on. */
  function TrailingZeros(w: Word, b: nat): (r: nat)
    requires b <= 64
    ensures b <= r <= 64
    ensures forall c :: b <= c < r ==> !w[c]
    ensures r < 64 ==> w[r]
    decreases 64 - b
  {
    if b == 64 || w[b] then b else TrailingZeros(w, b + 1)
  }

  lemma RemoveOne(s: set<nat>, i: nat)
    ensures i in s ==> |s - {i}| == |s| - 1
    ensures i !in s ==> s - {i} == s && |s + {i}| == |s| + 1
  {
  }

  /** `n` free frames from `i` on. */
  ghost predicate Run(f: set<nat>, i: nat, n: nat) {
    forall j: nat :: i <= j < i + n ==> j in f
  }

  /** The scan has passed `i` frames: the last `len` are free, the one before
      them is not, and no run of `n` ends before `i`. */
  ghost predicate Scanned(f: set<nat>, i: nat, len: nat, n: nat) {
    && len <= i
    && (forall j: nat :: i - len <= j < i ==> j in f)
    && (len < i ==> i - len - 1 !in f)
    && (forall j: nat :: j + n <= i ==> !Run(f, j, n))
  }

  lemma NothingScanned(f: set<nat>, n: nat)
    requires n > 0
    ensures Scanned(f, 0, 0, n)
  {
  }

  lemma ScanFree(f: set<nat>, i: nat, len: nat, n: nat)
    requires Scanned(f, i, len, n) && i in f && len + 1 < n
    ensures Scanned(f, i + 1, len + 1, n)
  {
  }

  lemma ScanUsed(f: set<nat>, i: nat, len: nat, n: nat)
    requires Scanned(f, i, len, n) && i !in f && n > 0
    ensures Scanned(f, i + 1, 0, n)
  {
  }

  lemma FoundRun(f: set<nat>, i: nat, n: nat)
    requires n > 0 && Scanned(f, i, n - 1, n) && i in f
    ensures Run(f, i + 1 - n, n) && forall j: nat :: j < i + 1 - n ==> !Run(f, j, n)
  {
  }

  lemma NoRun(f: set<nat>, total: nat, len: nat, n: nat)
    requires Scanned(f, total, len, n) && n > 0 && forall j: nat :: j in f ==> j < total
    ensures forall i: nat :: !Run(f, i, n)
  {
    forall i: nat ensures !Run(f, i, n) {
      if i + n > total {
        assert i <= i + n - 1 < i + n && i + n - 1 !in f;
      }
    }
  }

  class FrameAllocator {
    var ramStart: nat
    var ramSize: nat
    var totalFrames: nat
    const bitmap: array<Word>
    var freeFrames: nat

    ghost predicate Valid()
      reads this, bitmap
    {
      && bitmap.Length == BITMAP_WORDS
      && ramSize <= MAX_RAM_SIZE && totalFrames == ramSize / PAGE_SIZE && ramStart % PAGE_SIZE == 0
      && freeFrames == |Free()|
    }

    predicate IsFree(i: nat)
      requires i / 64 < bitmap.Length
      reads bitmap
    {
      bitmap[i / 64][i % 64]
    }

    /** The set of free frames, the allocator's meaning. */
    ghost function Free(): (s: set<nat>)
      requires bitmap.Length == BITMAP_WORDS && totalFrames <= 64 * BITMAP_WORDS
      reads this, bitmap
      ensures forall i: nat :: i in s <==> i < totalFrames && IsFree(i)
    {
      set i: nat | i < totalFrames && IsFree(i)
    }

    constructor ()
      ensures bitmap.Length == BITMAP_WORDS && fresh(bitmap)
    {
      bitmap := new Word[BITMAP_WORDS](_ => seq(64, _ => false));
      ramStart, ramSize, totalFrames, freeFrames := 0, 0, 0, 0;
    }

    method SetAll()
      requires bitmap.Length == BITMAP_WORDS
      modifies bitmap
      ensures forall i: nat :: i < 64 * BITMAP_WORDS ==> IsFree(i)
    {
      for k := 0 to bitmap.Length
        invariant forall j :: 0 <= j < k ==> bitmap[j] == seq(64, _ => true)
      {
        bitmap[k] := seq(64, _ => true);
      }
    }

    /** Everything free except the frames below the end of the kernel image. */
    method Init(kernelEnd: nat, start: nat, size: nat)
      requires bitmap.Length == BITMAP_WORDS && size <= MAX_RAM_SIZE && start % PAGE_SIZE == 0
      modifies this, bitmap
      ensures Valid() && ramStart == start && ramSize == size
      ensures forall i: nat :: i in Free() <==> i < totalFrames && kernelEnd <= start + PAGE_SIZE * i
    {
      hide IsFree;
      ramStart, ramSize, totalFrames := start, size, size / PAGE_SIZE;
      SetAll();
      freeFrames := totalFrames;
      AllFree(Free(), totalFrames);
      var reserved := UnderImage(kernelEnd, start, totalFrames);
      UnderImageIs(kernelEnd, start, totalFrames);
      for i := 0 to reserved
        invariant Valid() && totalFrames == size / PAGE_SIZE && ramStart == start && ramSize == size
        invariant forall j: nat :: j in Free() <==> i <= j < totalFrames
      {
        SetUsed(i);
      }
    }

    /** How many frames the image reaches into, of the `total` there are. */
    static function UnderImage(kernelEnd: nat, start: nat, total: nat): nat {
      var reservedEnd := (kernelEnd + PAGE_SIZE - 1) / PAGE_SIZE * PAGE_SIZE;
      Min(Max(reservedEnd - start, 0) / PAGE_SIZE, total)
    }

    static lemma UnderImageIs(kernelEnd: nat, start: nat, total: nat)
      requires start % PAGE_SIZE == 0
      ensures forall i: nat :: i < total ==>
          (i < UnderImage(kernelEnd, start, total) <==> start + PAGE_SIZE * i < kernelEnd)
    {
    }

    static lemma {:induction false} AllFree(s: set<nat>, n: nat)
      requires forall i: nat :: i in s <==> i < n
      ensures |s| == n
    {
      if n > 0 {
        AllFree(s - {n - 1}, n - 1);
      }
    }

    method SetUsed(i: nat)
      requires Valid() && i < totalFrames
      modifies this`freeFrames, bitmap
      ensures Valid() && Free() == old(Free()) - {i}
    {
      ghost var f := Free();
      RemoveOne(f, i);
      if bitmap[i / 64][i % 64] {
        bitmap[i / 64] := bitmap[i / 64][i % 64 := false];
        freeFrames := freeFrames - 1;
      }
      assert Free() == f - {i};
    }

    method SetFree(i: nat)
      requires Valid() && i < totalFrames
      modifies this`freeFrames, bitmap
      ensures Valid() && Free() == old(Free()) + {i}
    {
      ghost var f := Free();
      RemoveOne(f, i);
      if !bitmap[i / 64][i % 64] {
        bitmap[i / 64] := bitmap[i / 64][i % 64 := true];
        freeFrames := freeFrames + 1;
      }
      assert Free() == f + {i};
    }

    static lemma SlotOf(k: nat, c: nat)
      requires c < 64
      ensures (64 * k + c) / 64 == k && (64 * k + c) % 64 == c
    {
    }

    static lemma FrameAt(start: nat, i: nat)
      ensures (start + PAGE_SIZE * i - start) / PAGE_SIZE == i
    {
    }

    lemma BitsUsed(k: nat, bit: nat)
      requires k < bitmap.Length && bit <= 64
      requires forall j: nat :: j < 64 * k ==> !IsFree(j)
      requires forall c: nat :: c < bit ==> !bitmap[k][c]
      ensures forall j: nat :: j < 64 * k + bit ==> !IsFree(j)
    {
      forall j: nat | j < 64 * k + bit ensures !IsFree(j) {
        if j >= 64 * k {
          SlotOf(k, j - 64 * k);
        }
      }
    }

    /** The scan of `alloc`: the lowest set bit of the first word that is not zero. */
    method FirstSet() returns (r: Option<nat>)
      requires Valid()
      ensures r.None? ==> Free() == {}
      ensures r.Some? ==> r.value in Free() && forall j: nat :: j in Free() ==> r.value <= j
    {
      for k := 0 to bitmap.Length
        invariant forall j: nat :: j < 64 * k ==> !IsFree(j)
      {
        var word := bitmap[k];
        var bit := TrailingZeros(word, 0);
        BitsUsed(k, bit);
        if IsZero(word) {
          continue;
        }
        SlotOf(k, bit);
        var i := 64 * k + bit;
        if i >= totalFrames {
          assert Free() == {};
          return None;
        }
        return Some(i);
      }
      assert Free() == {};
      return None;
    }

    /** The lowest free frame; none exactly when no frame is free. */
    method Alloc() returns (r: Option<nat>)
      requires Valid()
      modifies this`freeFrames, bitmap
      ensures Valid()
      ensures r.None? <==> old(Free()) == {}
      ensures r.None? ==> Free() == old(Free())
      ensures r.Some? ==>
                var i := (r.value - ramStart) / PAGE_SIZE;
                && r.value == ramStart + PAGE_SIZE * i && i in old(Free())
                && (forall j: nat :: j in old(Free()) ==> i <= j)
                && Free() == old(Free()) - {i}
    {
      var i := FirstSet();
      if i.None? {
        return None;
      }
      SetUsed(i.value);
      FrameAt(ramStart, i.value);
      return Some(ramStart + PAGE_SIZE * i.value);
    }

    /** Takes the frames `[lo, hi)`. */
    method UseRange(lo: nat, hi: nat)
      requires Valid() && hi <= totalFrames
      modifies this`freeFrames, bitmap
      ensures Valid()
      ensures forall k: nat :: k in Free() <==> k in old(Free()) && !(lo <= k < hi)
    {
      hide IsFree;
      var i := lo;
      while i < hi
        invariant Valid() && lo <= i && (i <= hi || i == lo)
        invariant forall k: nat :: k in Free() <==> k in old(Free()) && !(lo <= k < i)
      {
        SetUsed(i);
        i := i + 1;
      }
    }

    /** The lowest run of `n` free frames; none exactly when `n` is 0 or there is no such run. */
    method AllocContiguous(n: nat) returns (r: Option<nat>)
      requires Valid()
      modifies this`freeFrames, bitmap
      ensures Valid()
      ensures r.None? ==> Free() == old(Free()) && (n == 0 || forall i: nat :: !Run(old(Free()), i, n))
      ensures r.Some? ==>
                && n > 0 && r.value >= ramStart
                && var i := (r.value - ramStart) / PAGE_SIZE;
                   && r.value == ramStart + PAGE_SIZE * i && Run(old(Free()), i, n)
                   && (forall j: nat :: j < i ==> !Run(old(Free()), j, n))
                   && forall j: nat :: j in Free() <==> j in old(Free()) && !(i <= j < i + n)
    {
      hide Run, Scanned;
      if n == 0 {
        return None;
      }
      ghost var f := Free();
      NothingScanned(f, n);
      var runStart, runLen := 0, 0;
      for i := 0 to totalFrames
        invariant Free() == f && Valid()
        invariant runLen < n && runLen <= i && (runLen > 0 ==> runStart == i - runLen)
        invariant Scanned(f, i, runLen, n)
      {
        assert IsFree(i) <==> i in f;
        if bitmap[i / 64][i % 64] {
          if runLen == 0 {
            runStart := i;
          }
          runLen := runLen + 1;
          if runLen == n {
            FoundRun(f, i, n);
            UseRange(runStart, runStart + n);
            FrameAt(ramStart, runStart);
            return Some(ramStart + PAGE_SIZE * runStart);
          }
          ScanFree(f, i, runLen - 1, n);
        } else {
          ScanUsed(f, i, runLen, n);
          runLen := 0;
        }
      }
      NoRun(f, totalFrames, runLen, n);
      return None;
    }

    /** Index of a page address inside the managed window. */
    function PhysToIdx(addr: nat): Option<nat>
      reads this
    {
      if ramStart <= addr < ramStart + ramSize then Some((addr - ramStart) / PAGE_SIZE) else None
    }

    method FreeFrame(addr: nat)
      requires Valid() && addr % PAGE_SIZE == 0 && ramStart <= addr && (addr - ramStart) / PAGE_SIZE < totalFrames
      modifies this`freeFrames, bitmap
      ensures Valid() && Free() == old(Free()) + {(addr - ramStart) / PAGE_SIZE}
    {
      hide IsFree;
      var i := (addr - ramStart) / PAGE_SIZE;
      SetFree(i);
    }

    /** Takes the frames `[lo, hi)` out of circulation, where `lo` and `hi` are
        what the two bounds resolve to. */
    method ReserveRegion(start: nat, size: nat)
      requires Valid()
      modifies this`freeFrames, bitmap
      ensures Valid()
      ensures forall j: nat :: j in Free() <==> j in old(Free()) && !Reserved(j, start, size, ramStart, ramSize)
    {
      var begin := (start + PAGE_SIZE - 1) / PAGE_SIZE * PAGE_SIZE;
      var end := (start + size) / PAGE_SIZE * PAGE_SIZE;
      if end <= begin {
        return;
      }
      var b, e := PhysToIdx(begin), PhysToIdx(end);
      var lo := if b.Some? then b.value else 0;
      var hi := Min(if e.Some? then e.value else totalFrames, totalFrames);
      UseRange(lo, hi);
    }
  }

  /** What `reserve_region` reserves: a bound outside the window counts as its far end. */
  predicate Reserved(j: nat, start: nat, size: nat, ramStart: nat, ramSize: nat) {
    var begin := (start + PAGE_SIZE - 1) / PAGE_SIZE * PAGE_SIZE;
    var end := (start + size) / PAGE_SIZE * PAGE_SIZE;
    var inRam := (a: nat) => ramStart <= a < ramStart + ramSize;
    && begin < end
    && (if inRam(begin) then (begin - ramStart) / PAGE_SIZE else 0) <= j
    && j < (if inRam(end) then (end - ramStart) / PAGE_SIZE else ramSize / PAGE_SIZE)
  }

  /** Frame `j` lies wholly inside the byte range. */
  predicate Inside(j: nat, start: nat, size: nat, ramStart: nat) {
    start <= ramStart + PAGE_SIZE * j && ramStart + PAGE_SIZE * (j + 1) <= start + size
  }

  /** `reserve_region` reserves exactly the frames of the window that lie in the
      range if and only if there are no frames, the range holds no whole page, or it reaches the window. */
  lemma ReservedIsInside(start: nat, size: nat, ramStart: nat, ramSize: nat)
    requires ramStart % PAGE_SIZE == 0
    ensures var begin := (start + PAGE_SIZE - 1) / PAGE_SIZE * PAGE_SIZE;
            var end := (start + size) / PAGE_SIZE * PAGE_SIZE;
            (forall j: nat :: j < ramSize / PAGE_SIZE ==>
                (Reserved(j, start, size, ramStart, ramSize) <==> Inside(j, start, size, ramStart)))
            <==> ramSize < PAGE_SIZE || end <= begin || (ramStart <= end && begin < ramStart + ramSize)
  {
    hide Reserved, Inside;
    var b, e, r := (start + PAGE_SIZE - 1) / PAGE_SIZE, (start + size) / PAGE_SIZE, ramStart / PAGE_SIZE;
    forall j: nat ensures Reserved(j, start, size, ramStart, ramSize) <==> PagesReserved(j, b, e, r, ramSize)
      ensures Inside(j, start, size, ramStart) <==> b <= r + j < e
    {
      InPages(j, start, size, ramStart, ramSize);
    }
    if PAGE_SIZE <= ramSize && b < e && !(r <= e && PAGE_SIZE * b < PAGE_SIZE * r + ramSize) {
      assert PagesReserved(0, b, e, r, ramSize) && !(b <= r < e);
    }
  }

  /** `Reserved` in page numbers. */
  predicate PagesReserved(j: nat, b: nat, e: nat, r: nat, ramSize: nat) {
    var inRam := (p: nat) => r <= p && PAGE_SIZE * p < PAGE_SIZE * r + ramSize;
    b < e && (if inRam(b) then b - r else 0) <= j < (if inRam(e) then e - r else ramSize / PAGE_SIZE)
  }

  lemma InPages(j: nat, start: nat, size: nat, ramStart: nat, ramSize: nat)
    requires ramStart % PAGE_SIZE == 0
    ensures var b, e, r := (start + PAGE_SIZE - 1) / PAGE_SIZE, (start + size) / PAGE_SIZE, ramStart / PAGE_SIZE;
      && (Reserved(j, start, size, ramStart, ramSize) <==> PagesReserved(j, b, e, r, ramSize))
      && (Inside(j, start, size, ramStart) <==> b <= r + j < e)
  {
  }

  /** A page below a memory of four pages at 1 GiB: all four are reserved, none lies in the range. */
  lemma MissedRegion(j: nat)
    requires j < 4
    ensures Reserved(j, 0, PAGE_SIZE, 0x4000_0000, 4 * PAGE_SIZE) && !Inside(j, 0, PAGE_SIZE, 0x4000_0000)
  {
  }
}
