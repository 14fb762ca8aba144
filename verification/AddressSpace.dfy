/** Page tables in physical memory: mapping, splitting, cloning and freeing. */
module AddressSpace {
  import opened Bytes
  import opened PageTables
  import opened Cloning

  lemma MovedThen(m0: Mem, m1: Mem, m2: Mem, o0: Own, o1: Own, o2: Own, f0: set<nat>, f1: set<nat>, f2: set<nat>)
    requires Moved(m0, m1, o0, o1, f0, f1) && Moved(m1, m2, o1, o2, f1, f2)
    ensures Moved(m0, m2, o0, o2, f0, f2)
  {
  }

  lemma MovedOwn(mem: Mem, mem': Mem, own: Own, own': Own, free: set<nat>, free': set<nat>)
    requires Moved(mem, mem', own, own', free, free')
    ensures forall g :: g in own ==> g in own' && own'[g] == own[g]
  {
  }

  lemma BlocksKept(mem: Mem, mem': Mem, own: Own, own': Own, free: set<nat>, free': set<nat>)
    requires Blocks(mem, own) && Moved(mem, mem', own, own', free, free')
    ensures Blocks(mem', own')
  {
  }

  lemma Still(mem: Mem, own: Own, free: set<nat>, root: nat)
    ensures Moved(mem, mem, own, own, free, free) && SameView(mem, mem, root)
  {
  }

  lemma RemappedAfter(m0: Mem, m1: Mem, m2: Mem, m3: Mem, root: nat, v: Va, t: Option<Target>)
    requires SameView(m0, m1, root) && SameView(m1, m2, root) && Remapped(m2, m3, root, v, t)
    ensures Remapped(m0, m3, root, v, t)
  {
  }

  lemma BlockIndex(v: Va)
    requires ValidVa(v)
    ensures PageOf(v) / 512 == (v.i0 * 512 + v.i1) * 512 + v.i2
  {
  }

  lemma SameViewThen(m0: Mem, m1: Mem, m2: Mem, root: nat)
    requires SameView(m0, m1, root) && SameView(m1, m2, root)
    ensures SameView(m0, m2, root)
  {
  }

  /** Above level 2 there are no blocks. */
  lemma HighBlock(mem: Mem, own: Own, root: nat, f: nat, i: nat)
    requires Tree(mem, own, root, []) && f in own && f in mem && |own[f]| < 2 && i < 512
    ensures !IsBlock(mem[f][i])
  {
  }

  lemma Root(mem: Mem, own: Own, root: nat)
    requires Tree(mem, own, root, [])
    ensures root in own && own[root] == [] && root in mem
  {
  }

  lemma Known(mem: Mem, own: Own, root: nat, g: nat)
    requires Tree(mem, own, root, []) && g in own
    ensures g in mem && |own[g]| <= 3
  {
  }

  lemma NewTableMoved(mem: Mem, mem': Mem, own: Own, own': Own, f: nat, i: nat, c: nat, t: Table, free: set<nat>)
    requires NewTable(mem, mem', own, own', f, i, c, t) && c in free
    requires |own[f]| == 1 ==> forall j :: 0 <= j < 512 ==> !IsBlock(t[j])
    ensures Moved(mem, mem', own, own', free, free - {c})
  {
  }

  /** Writing the level-3 entry of `v`. */
  lemma LeafSet(mem: Mem, own: Own, root: nat, f: nat, v: Va, d: Desc, free: set<nat>)
    requires Tree(mem, own, root, []) && f in own && f in mem && ValidVa(v) && own[f] == Prefix(v, 3)
    ensures var mem' := SetEntry(mem, f, v.i3, d);
      && Tree(mem', own, root, []) && Remapped(mem, mem', root, v, LeafTarget(d))
      && Moved(mem, mem', own, own, free, free)
  {
    hide Tree, Look, LeafTarget;
    SetLeaf(mem, own, root, f, v.i3, d);
    forall w | ValidVa(w) ensures (Prefix(w, 4) == own[f] + [v.i3]) == (w == v) {
      assert Prefix(w, 4) == Prefix(w, 3) + [w.i3];
      SnocInjective(own[f], v.i3, Prefix(w, 3), w.i3);
      PrefixEqual(v, w);
    }
  }

  lemma PrefixEqual(v: Va, w: Va)
    ensures Prefix(v, 3) == Prefix(w, 3) <==> v.i0 == w.i0 && v.i1 == w.i1 && v.i2 == w.i2
  {
    assert Prefix(v, 3) == [v.i0, v.i1, v.i2] && Prefix(w, 3) == [w.i0, w.i1, w.i2];
  }

  /** Every page that is not below path `p` goes where it went. */
  ghost predicate ElsewhereSame(mem: Mem, mem': Mem, root: nat, p: Path) {
    forall u :: ValidVa(u) && Prefix(u, 3) != p ==> Look(mem', root, 0, u) == Look(mem, root, 0, u)
  }

  lemma SplitMade(mem: Mem, mem': Mem, own: Own, root: nat, f: nat, i: nat, c: nat, t: Table, free: set<nat>,
        first: nat)
    requires Tree(mem, own, root, []) && own.Keys !! free && c in free && f in own && f in mem && |own[f]| == 2
        && i < 512
    requires IsBlock(mem[f][i]) && IsSplit(t, mem[f][i], first)
    requires mem' == SetEntry(mem[c := t], f, i, TableDesc(c))
    ensures var own' := own[c := own[f] + [i]];
      && Tree(mem', own', root, [])
      && Moved(mem, mem', own, own', free, free - {c})
      && (IdentityBlock(mem[f][i], first / 512) && first % 512 == 0 ==> SameView(mem, mem', root))
      && ElsewhereSame(mem, mem', root, own[f] + [i])
  {
    hide Tree, Look, Grafted, Moved, BlocksFrom, SameView;
    var own' := own[c := own[f] + [i]];
    assert NewTable(mem, mem', own, own', f, i, c, t);
    assert Childless(3, t);
    NewTableGrafted(mem, mem', own, own', root, f, i, c, t);
    Graft(mem, mem', own, map[c := own[f] + [i]], root, [], f, i, c);
    NewTableMoved(mem, mem', own, own', f, i, c, t, free);
    hide IsTable, TableDesc, Childless;
    forall u | ValidVa(u) && Prefix(u, 3) != own[f] + [i] ensures Look(mem', root, 0, u) == Look(mem, root, 0, u) {
      GraftOutside(mem, mem', own, map[c := own[f] + [i]], root, [], f, i, c, u);
    }
    if IdentityBlock(mem[f][i], first / 512) && first % 512 == 0 {
      AddSplit(mem, mem', own, own', root, f, i, c, t);
    }
  }

  // ── Mapping a range ────────────────────────────────────────────────────────

  /** The pages `va .. va + n` lie in one 1 GiB region. */
  predicate OneRegion(va: nat, n: nat) {
    n == 0 || va / 0x4_0000 == (va + n - 1) / 0x4_0000
  }

  /** The slot `MapUserPages` uses for page `cur` of a range that starts at `va`. */
  function Slot(va: nat, cur: nat): (w: Va)
    requires va < 0x10_0000_0000
    ensures ValidVa(w)
  {
    Va(va / 0x800_0000, va / 0x4_0000 % 512, cur / 512 % 512, cur % 512)
  }

  lemma SlotParts(va: nat, cur: nat)
    requires va < 0x10_0000_0000
    ensures var w := Slot(va, cur);
        Prefix(w, 2) == Prefix(Slot(va, va), 2) && w.i2 == cur / 512 % 512 && w.i3 == cur % 512
  {
  }

  /** Only in the region of `va` is that the slot of `cur` itself. */
  lemma SlotIsPage(va: nat, cur: nat)
    requires va < 0x10_0000_0000
    ensures PageOf(Slot(va, cur)) == cur <==> va / 0x4_0000 == cur / 0x4_0000
  {
    var w := Slot(va, cur);
    assert w.i0 * 512 + w.i1 == va / 0x4_0000;
    assert w.i2 * 512 + w.i3 == cur % 0x4_0000;
  }

  lemma SlotIndex(c: nat)
    ensures c / 512 % 512 * 512 + c % 512 == c % 0x4_0000
  {
  }

  lemma GiBApart(c: nat, d: nat)
    requires c < d < c + 0x4_0000
    ensures c % 0x4_0000 != d % 0x4_0000
  {
  }

  /** Pages of a range share a slot only if they are a multiple of 1 GiB apart. */
  lemma SlotsDiffer(va: nat, c: nat, d: nat)
    requires va < 0x10_0000_0000 && c < d < c + 0x4_0000
    ensures Slot(va, c) != Slot(va, d)
  {
    SlotIndex(c);
    SlotIndex(d);
    GiBApart(c, d);
  }

  /** The page lies in the 1 GiB region of `va`. */
  predicate InRegion(u: Va, va: nat) {
    u.i0 == va / 0x800_0000 && u.i1 == va / 0x4_0000 % 512
  }

  /** Outside the region of `va` every page goes where it went. */
  ghost predicate RegionOnly(mem: Mem, mem': Mem, root: nat, va: nat) {
    forall u :: ValidVa(u) && !InRegion(u, va) ==> Look(mem', root, 0, u) == Look(mem, root, 0, u)
  }

  /** The first `k` pages of the range are in their slots, the last of each slot winning. */
  ghost predicate LastWins(mem: Mem, root: nat, va: nat, k: nat, flags: Flags)
    requires va < 0x10_0000_0000
  {
    forall c :: va <= c < va + k <= c + 0x4_0000 ==> Look(mem, root, 0, Slot(va, c)) == LeafTarget(PageDesc(c, flags))
  }

  /** No block is left over the first `k` slots. */
  ghost predicate AllSplit(mem: Mem, l2: nat, va: nat, k: nat)
    requires va < 0x10_0000_0000
  {
    l2 in mem && forall c :: va <= c < va + k ==> !IsBlock(mem[l2][Slot(va, c).i2])
  }

  /** What one page of a range does: it is in its slot, and the other pages go where they went
      unless a block over the slot was split. */
  ghost predicate OneMapped(mem: Mem, mem': Mem, root: nat, v: Va, t: Option<Target>, split: bool) {
    && ValidVa(v) && Look(mem', root, 0, v) == t
    && forall u :: ValidVa(u) && u != v && !(split && Prefix(u, 3) == Prefix(v, 3)) ==>
         Look(mem', root, 0, u) == Look(mem, root, 0, u)
  }

  lemma OneMappedMade(m0: Mem, m1: Mem, m2: Mem, m3: Mem, root: nat, v: Va, t: Option<Target>, split: bool)
    requires ValidVa(v) && (if split then ElsewhereSame(m0, m1, root, Prefix(v, 3)) else SameView(m0, m1, root))
    requires SameView(m1, m2, root) && Remapped(m2, m3, root, v, t)
    ensures OneMapped(m0, m3, root, v, t, split)
  {
    hide Look;
  }

  lemma RangeStart(m0: Mem, m1: Mem, root: nat, l2: nat, va: nat, flags: Flags)
    requires va < 0x10_0000_0000 && SameView(m0, m1, root) && l2 in m1
    ensures RegionOnly(m0, m1, root, va) && LastWins(m1, root, va, 0, flags) && AllSplit(m1, l2, va, 0)
    ensures SlotsOnly(m0, m1, root, va, 0)
  {
  }

  lemma RangeStep(m0: Mem, m1: Mem, m2: Mem, root: nat, l2: nat, va: nat, k: nat, flags: Flags)
    requires va < 0x10_0000_0000 && RegionOnly(m0, m1, root, va) && LastWins(m1, root, va, k, flags)
        && AllSplit(m1, l2, va, k)
    requires var w := Slot(va, va + k); OneMapped(m1, m2, root, w, LeafTarget(PageDesc(va + k, flags)),
        IsBlock(m1[l2][w.i2]))
    ensures RegionOnly(m0, m2, root, va) && LastWins(m2, root, va, k + 1, flags)
  {
    hide Look, LeafTarget;
    var w := Slot(va, va + k);
    forall u | ValidVa(u) && !InRegion(u, va) ensures Look(m2, root, 0, u) == Look(m0, root, 0, u) {
      PrefixEqual(u, w);
    }
    forall c | va <= c < va + k + 1 <= c + 0x4_0000
      ensures Look(m2, root, 0, Slot(va, c)) == LeafTarget(PageDesc(c, flags))
    {
      if c < va + k {
        SlotsDiffer(va, c, va + k);
        PrefixEqual(Slot(va, c), w);
      }
    }
  }

  /** What is asked for page `v`: its own frame in the range, what it had elsewhere. */
  ghost function Asked(mem: Mem, root: nat, va: nat, n: nat, flags: Flags, v: Va): Option<Target>
    requires ValidVa(v)
  {
    if va <= PageOf(v) < va + n then LeafTarget(PageDesc(PageOf(v), flags)) else Look(mem, root, 0, v)
  }

  /** The pages of the range go to themselves, all others where they went before. */
  ghost predicate Mapped(mem: Mem, mem': Mem, root: nat, va: nat, n: nat, flags: Flags) {
    forall v :: ValidVa(v) ==> Look(mem', root, 0, v) == Asked(mem, root, va, n, flags, v)
  }

  /** The entry written for a page is a page descriptor. */
  predicate PageFlags(flags: Flags) {
    IsTable(PageDesc(0, flags))
  }

  predicate SameRegion(va: nat, c: nat) {
    va / 0x4_0000 == c / 0x4_0000
  }

  /**
   * Before the call: every page of the range outside the region of `va`
   * already goes to itself as asked, and what its slot will hold is what the
   * page of that slot has or is asked to have. For a range in one region
   * this says nothing.
   */
  ghost predicate Already(mem: Mem, root: nat, va: nat, n: nat, flags: Flags)
    requires va + n <= 0x10_0000_0000 && va < 0x10_0000_0000
  {
    && (forall c :: va <= c < va + n && !SameRegion(va, c) ==>
          Look(mem, root, 0, Slot(c, c)) == LeafTarget(PageDesc(c, flags)))
    && (forall c :: va <= c < va + n <= c + 0x4_0000 && !SameRegion(va, c) ==>
          Asked(mem, root, va, n, flags, Slot(va, c)) == LeafTarget(PageDesc(c, flags)))
  }

  lemma PageInjective(u: Va, v: Va)
    requires ValidVa(u) && ValidVa(v) && PageOf(u) == PageOf(v)
    ensures u == v
  {
    DigitsEqual((u.i0 * 512 + u.i1) * 512 + u.i2, u.i3, (v.i0 * 512 + v.i1) * 512 + v.i2, v.i3);
    DigitsEqual(u.i0 * 512 + u.i1, u.i2, v.i0 * 512 + v.i1, v.i2);
    DigitsEqual(u.i0, u.i1, v.i0, v.i1);
  }

  lemma DigitsEqual(a: nat, i: nat, b: nat, j: nat)
    requires i < 512 && j < 512 && a * 512 + i == b * 512 + j
    ensures a == b && i == j
  {
  }

  lemma RegionIndex(x: nat)
    ensures x / 0x800_0000 * 512 + x / 0x4_0000 % 512 == x / 0x4_0000
  {
  }

  /** The page of `cur` lies in the region of `va` exactly when `cur` does. */
  lemma RegionOf(va: nat, cur: nat)
    requires va < 0x10_0000_0000 && cur < 0x10_0000_0000
    ensures InRegion(Slot(cur, cur), va) <==> SameRegion(va, cur)
    ensures PageOf(Slot(cur, cur)) == cur && (SameRegion(va, cur) ==> Slot(va, cur) == Slot(cur, cur))
  {
    hide PageOf;
    SlotIsPage(cur, cur);
    SlotIsPage(va, cur);
    RegionIndex(cur);
    RegionIndex(va);
    if SameRegion(va, cur) {
      PageInjective(Slot(cur, cur), Slot(va, cur));
    }
  }

  /** A range mapped as asked had been so wherever it leaves its region. */
  lemma MappedMeans(mem: Mem, mem': Mem, root: nat, va: nat, n: nat, flags: Flags)
    requires va + n <= 0x10_0000_0000 && va < 0x10_0000_0000
    requires RegionOnly(mem, mem', root, va) && LastWins(mem', root, va, n, flags)
        && Mapped(mem, mem', root, va, n, flags)
    ensures Already(mem, root, va, n, flags)
  {
    hide Look, LeafTarget, Slot, SameRegion, InRegion;
    forall c | va <= c < va + n && !SameRegion(va, c)
      ensures Look(mem, root, 0, Slot(c, c)) == LeafTarget(PageDesc(c, flags))
    {
      RegionOf(va, c);
    }
  }

  /** `v` is the slot of one of the first `k` pages. */
  ghost predicate Slotted(v: Va, va: nat, k: nat)
    requires va < 0x10_0000_0000
  {
    exists c :: va <= c < va + k && Slot(va, c) == v
  }

  ghost predicate SlotsOnly(mem: Mem, mem': Mem, root: nat, va: nat, k: nat)
    requires va < 0x10_0000_0000
  {
    forall u :: ValidVa(u) && !Slotted(u, va, k) ==> Look(mem', root, 0, u) == Look(mem, root, 0, u)
  }

  lemma SlotsStep(m0: Mem, m1: Mem, m2: Mem, root: nat, va: nat, k: nat)
    requires va < 0x10_0000_0000 && SlotsOnly(m0, m1, root, va, k)
    requires forall u :: ValidVa(u) && u != Slot(va, va + k) ==> Look(m2, root, 0, u) == Look(m1, root, 0, u)
    ensures SlotsOnly(m0, m2, root, va, k + 1)
  {
    hide Look, Slot;
    forall u | ValidVa(u) && !Slotted(u, va, k + 1) ensures Look(m2, root, 0, u) == Look(m0, root, 0, u) {
      assert va <= va + k < va + (k + 1);
    }
  }

  lemma SlotAgain(va: nat, c: nat)
    requires va < 0x10_0000_0000
    ensures Slot(va, c + 0x4_0000) == Slot(va, c)
  {
    assert (c + 0x4_0000) / 512 == c / 512 + 512;
    RoundAgain(c / 512, 1);
    RoundAgain(c, 512);
  }

  lemma RoundAgain(x: nat, r: nat)
    requires r == 1 || r == 512
    ensures (x + 512 * r) % 512 == x % 512
  {
    if r == 1 {
      assert (x + 512) % 512 == x % 512;
    } else {
      assert (x + 0x4_0000) % 512 == x % 512;
    }
  }

  /** The last page of the range with the slot of `c`. */
  lemma Winner(va: nat, n: nat, c: nat) returns (d: nat)
    requires va < 0x10_0000_0000 && va <= c < va + n
    ensures c <= d < va + n <= d + 0x4_0000 && Slot(va, d) == Slot(va, c)
    decreases va + n - c
  {
    hide Slot;
    d := c;
    if c + 0x4_0000 < va + n {
      SlotAgain(va, c);
      d := Winner(va, n, c + 0x4_0000);
    }
  }

  lemma FurtherOut(va: nat, c: nat, d: nat)
    requires va <= c <= d && !SameRegion(va, c)
    ensures !SameRegion(va, d)
  {
  }

  /** If only the slots changed, what had been so is mapped as asked. */
  lemma AlreadyMapped(mem: Mem, mem': Mem, root: nat, va: nat, n: nat, flags: Flags)
    requires va + n <= 0x10_0000_0000 && va < 0x10_0000_0000
    requires SlotsOnly(mem, mem', root, va, n) && LastWins(mem', root, va, n, flags) && Already(mem, root, va, n, flags)
    ensures Mapped(mem, mem', root, va, n, flags)
  {
    hide Look, LeafTarget, Slot, SameRegion, InRegion, PageOf;
    forall v | ValidVa(v) ensures Look(mem', root, 0, v) == Asked(mem, root, va, n, flags, v) {
      if Slotted(v, va, n) {
        var c :| va <= c < va + n && Slot(va, c) == v;
        var d := Winner(va, n, c);
        RegionOf(va, d);
      } else if va <= PageOf(v) < va + n {
        RegionOf(va, PageOf(v));
        PageInjective(v, Slot(PageOf(v), PageOf(v)));
      }
    }
  }

  /** A page under a block goes to itself. */
  lemma BlockLook(mem: Mem, own: Own, root: nat, l2: nat, w: Va)
    requires Tree(mem, own, root, []) && Blocks(mem, own) && ValidVa(w) && l2 in own && l2 in mem
        && own[l2] == Prefix(w, 2)
    requires IsBlock(mem[l2][w.i2])
    ensures var t := Look(mem, root, 0, w); t.Some? && t.value.page == PageOf(w)
  {
    hide Tree;
    LookThrough(mem, own, root, [], l2, w);
    assert own[l2][0] == w.i0 && own[l2][1] == w.i1;
    assert !IsTable(mem[l2][w.i2]);
  }

  lemma TargetPage(c: nat, flags: Flags)
    requires PageFlags(flags)
    ensures var t := LeafTarget(PageDesc(c, flags)); t.Some? && t.value.page == c
  {
  }

  /** Then no page outside the region of `va` finds a block to split. */
  lemma NoBlockThere(m0: Mem, mem: Mem, own: Own, root: nat, l2: nat, va: nat, n: nat, k: nat, flags: Flags)
    requires va + n <= 0x10_0000_0000 && va < 0x10_0000_0000 && k < n && PageFlags(flags) && !SameRegion(va, va + k)
    requires Tree(mem, own, root, []) && Blocks(mem, own) && l2 in own && l2 in mem
        && own[l2] == Prefix(Slot(va, va), 2)
    requires Already(m0, root, va, n, flags) && SlotsOnly(m0, mem, root, va, k) && AllSplit(mem, l2, va, k)
    ensures !IsBlock(mem[l2][Slot(va, va + k).i2])
  {
    hide Tree, Blocks, Look, LeafTarget, IsBlock, Already, SlotsOnly;
    var w := Slot(va, va + k);
    if IsBlock(mem[l2][w.i2]) {
      assert Prefix(w, 2) == Prefix(Slot(va, va), 2);
      BlockLook(mem, own, root, l2, w);
      assert !Slotted(w, va, k);
      SlotKept(m0, mem, root, va, k, w);
      var d := Winner(va, n, va + k);
      FurtherOut(va, va + k, d);
      SlotAsked(m0, root, va, n, d, flags);
      TargetPage(d, flags);
      TargetPage(PageOf(w), flags);
      SlotIsPage(va, d);
    }
  }

  /** One page more: nothing but its slot changed. */
  lemma KeptStep(m0: Mem, m1: Mem, m2: Mem, own: Own, root: nat, l2: nat, va: nat, n: nat, k: nat, flags: Flags)
    requires va + n <= 0x10_0000_0000 && va < 0x10_0000_0000 && k < n && PageFlags(flags)
    requires Tree(m1, own, root, []) && Blocks(m1, own) && l2 in own && l2 in m1 && own[l2] == Prefix(Slot(va, va), 2)
    requires Already(m0, root, va, n, flags) && SlotsOnly(m0, m1, root, va, k) && AllSplit(m1, l2, va, k)
    requires var w := Slot(va, va + k);
      && OneMapped(m1, m2, root, w, LeafTarget(PageDesc(va + k, flags)), IsBlock(m1[l2][w.i2]))
      && (PageOf(w) == va + k ==> Remapped(m1, m2, root, w, LeafTarget(PageDesc(va + k, flags))))
    ensures SlotsOnly(m0, m2, root, va, k + 1)
  {
    hide Tree, Blocks, Look, LeafTarget, IsBlock, Already, SlotsOnly, PageFlags, AllSplit, PageOf, Slot;
    SlotIsPage(va, va + k);
    if !SameRegion(va, va + k) {
      NoBlockThere(m0, m1, own, root, l2, va, n, k, flags);
    }
    SlotsStep(m0, m1, m2, root, va, k);
  }

  lemma SlotKept(mem: Mem, mem': Mem, root: nat, va: nat, k: nat, u: Va)
    requires va < 0x10_0000_0000 && SlotsOnly(mem, mem', root, va, k) && ValidVa(u) && !Slotted(u, va, k)
    ensures Look(mem', root, 0, u) == Look(mem, root, 0, u)
  {
  }

  lemma SlotAsked(mem: Mem, root: nat, va: nat, n: nat, c: nat, flags: Flags)
    requires va + n <= 0x10_0000_0000 && va < 0x10_0000_0000 && Already(mem, root, va, n, flags)
    requires va <= c < va + n <= c + 0x4_0000 && !SameRegion(va, c)
    ensures Asked(mem, root, va, n, flags, Slot(va, c)) == LeafTarget(PageDesc(c, flags))
  {
    hide Look, LeafTarget, Slot;
  }

  lemma MappedNone(m0: Mem, m1: Mem, m2: Mem, root: nat, va: nat, flags: Flags)
    requires SameView(m0, m1, root) && SameView(m1, m2, root)
    ensures Mapped(m0, m2, root, va, 0, flags)
  {
  }

  lemma MappedStep(m0: Mem, m1: Mem, m2: Mem, root: nat, va: nat, k: nat, flags: Flags, w: Va)
    requires Mapped(m0, m1, root, va, k, flags) && ValidVa(w) && PageOf(w) == va + k
    requires Remapped(m1, m2, root, w, LeafTarget(PageDesc(va + k, flags)))
    ensures Mapped(m0, m2, root, va, k + 1, flags)
  {
  }

  lemma StillNone(mem: Mem, mem': Mem, own: Own, own': Own, free: set<nat>, free': set<nat>, f: nat, i: nat)
    requires Moved(mem, mem', own, own', free, free') && f in own' && f in mem && f in mem' && i < 512 && |own'[f]| == 2
    requires !IsBlock(mem[f][i])
    ensures !IsBlock(mem'[f][i])
  {
  }

  lemma StillSplit(mem: Mem, mem': Mem, own: Own, own': Own, free: set<nat>, free': set<nat>, l2: nat, va: nat, k: nat)
    requires Moved(mem, mem', own, own', free, free') && l2 in own' && l2 in mem' && |own'[l2]| == 2
        && va < 0x10_0000_0000
    requires AllSplit(mem, l2, va, k) && !IsBlock(mem'[l2][Slot(va, va + k).i2])
    ensures AllSplit(mem', l2, va, k + 1)
  {
    hide IsBlock, Moved;
    forall c | va <= c < va + k + 1 ensures !IsBlock(mem'[l2][Slot(va, c).i2]) {
      if c < va + k {
        StillNone(mem, mem', own, own', free, free', l2, Slot(va, c).i2);
      }
    }
  }

  // ── Single pages ───────────────────────────────────────────────────────────

  /** No block covers `v`. */
  ghost predicate NoBlock(mem: Mem, own: Own, v: Va) {
    ValidVa(v) && forall f :: f in own && f in mem && own[f] == Prefix(v, 2) ==> !IsBlock(mem[f][v.i2])
  }

  lemma StillNoBlock(mem: Mem, mem': Mem, own: Own, own': Own, free: set<nat>, free': set<nat>, v: Va)
    requires Moved(mem, mem', own, own', free, free') && NoBlock(mem, own, v)
    ensures NoBlock(mem', own', v)
  {
  }

  /** The level-3 table that covers `v`, from table `f` at `level`. */
  function Walk(mem: Mem, f: nat, level: nat, v: Va): Option<nat>
    requires level < 4 && ValidVa(v)
    decreases 4 - level
  {
    if f !in mem then None
    else if level == 3 then Some(f)
    else
      var d := mem[f][Index(v, level)];
      if IsTable(d) then Walk(mem, d.page, level + 1, v) else None
  }

  /** The level-3 descriptor of `v`, zero where there is no level-3 table. */
  function PageEntry(mem: Mem, root: nat, v: Va): Desc
    requires ValidVa(v)
  {
    match Walk(mem, root, 0, v)
    case Some(l3) => if l3 in mem then mem[l3][v.i3] else EMPTY
    case None => EMPTY
  }

  lemma {:induction false} WalkIn(mem: Mem, own: Own, root: nat, f: nat, v: Va)
    requires Tree(mem, own, root, []) && ValidVa(v) && OnWalk(own, v, f)
    ensures var w := Walk(mem, f, |own[f]|, v);
      && (w.Some? ==> w.value in own && w.value in mem && own[w.value] == Prefix(v, 3)
                      && Look(mem, f, |own[f]|, v) == LeafTarget(mem[w.value][v.i3]))
      && (w.None? && NoBlock(mem, own, v) ==> Look(mem, f, |own[f]|, v) == None)
    decreases 4 - |own[f]|
  {
    hide Tree, LeafTarget, BlockTarget, IsTable;
    Known(mem, own, root, f);
    var level := |own[f]|;
    var d := mem[f][Index(v, level)];
    if level < 3 && IsTable(d) {
      Child(mem, own, root, [], f, Index(v, level));
      PrefixStep(v, level);
      hide NoBlock;
      WalkIn(mem, own, root, d.page, v);
    } else if level < 2 {
      HighBlock(mem, own, root, f, Index(v, level));
    }
  }

  // ── Subtrees ───────────────────────────────────────────────────────────────

  /** The frames below path `p`. */
  ghost function Sub(own: Own, p: Path): set<nat> {
    set g | g in own && p <= own[g]
  }

  /** The frames below the first `n` entries of the table at `p`. */
  ghost function UpTo(own: Own, p: Path, n: nat): set<nat> {
    set g | g in own && |p| < |own[g]| && p <= own[g] && own[g][|p|] < n
  }

  lemma UpToStep(own: Own, p: Path, n: nat)
    ensures UpTo(own, p, n + 1) == UpTo(own, p, n) + Sub(own, p + [n])
    ensures UpTo(own, p, n) !! Sub(own, p + [n])
  {
  }

  lemma {:induction false} LabelsBelow512(mem: Mem, own: Own, root: nat, g: nat, k: nat)
    requires Tree(mem, own, root, []) && g in own && k < |own[g]|
    ensures own[g][k] < 512
    decreases |own[g]|
  {
    hide Tree, IsTable;
    Root(mem, own, root);
    var q := ParentOf(mem, own, root, [], g);
    if k < |own[q]| {
      LabelsBelow512(mem, own, root, q, k);
    }
  }

  /** The frames below a table are itself and those below its 512 entries. */
  lemma SubIs(mem: Mem, own: Own, root: nat, f: nat)
    requires Tree(mem, own, root, []) && f in own
    ensures Sub(own, own[f]) == UpTo(own, own[f], 512) + {f} && f !in UpTo(own, own[f], 512)
  {
    forall g | g in own && own[f] <= own[g] && g != f ensures g in UpTo(own, own[f], 512) {
      assert own[f] != own[g];
      LabelsBelow512(mem, own, root, g, |own[f]|);
    }
  }

  lemma Barren(mem: Mem, own: Own, root: nat, f: nat, i: nat)
    requires Tree(mem, own, root, []) && f in own && f in mem && i < 512 && (|own[f]| == 3 || !IsTable(mem[f][i]))
    ensures Sub(own, own[f] + [i]) == {}
  {
    if g :| g in Sub(own, own[f] + [i]) {
      Known(mem, own, root, g);
      Known(mem, own, root, f);
      hide Tree;
      NoneBelow(mem, own, root, [], f, i, g);
    }
  }

  lemma NoneYet(own: Own, p: Path)
    ensures UpTo(own, p, 0) == {}
  {
  }

  /** Exactly the frames in `s` were given back, each once. */
  ghost predicate Returned(free: set<nat>, free': set<nat>, log: multiset<nat>, log': multiset<nat>, s: set<nat>) {
    s !! free && free' == free + s && log' == log + multiset(s)
  }

  lemma ReturnedThen(f0: set<nat>, f1: set<nat>, f2: set<nat>, l0: multiset<nat>, l1: multiset<nat>, l2: multiset<nat>,
                     s: set<nat>, t: set<nat>)
    requires Returned(f0, f1, l0, l1, s) && Returned(f1, f2, l1, l2, t)
    ensures Returned(f0, f2, l0, l2, s + t)
  {
  }

  lemma ReturnedNone(free: set<nat>, log: multiset<nat>)
    ensures Returned(free, free, log, log, {})
  {
  }

  lemma LastOne(free: set<nat>, free': set<nat>, log: multiset<nat>, log': multiset<nat>, s: set<nat>, f: nat)
    requires Returned(free, free', log, log', s) && f !in free && f !in s
    ensures Returned(free', free' + {f}, log', log' + multiset{f}, {f})
  {
  }

  /** What is still to be given back for entry `i` is not free yet. */
  lemma StillHeld(own: Own, p: Path, i: nat, free: set<nat>, free': set<nat>, log: multiset<nat>, log': multiset<nat>)
    requires Sub(own, p) !! free && Returned(free, free', log, log', UpTo(own, p, i))
    ensures Sub(own, p + [i]) !! free'
  {
  }

  // ── Cloning ────────────────────────────────────────────────────────────────

  lemma CopiedKeeps(mem0: Mem, mem: Mem, own: Own, root: nat, src: nat, copy: Own, dst: nat, n: nat, free0: set<nat>,
        free: set<nat>)
    requires Tree(mem0, own, root, []) && Blocks(mem0, own) && own.Keys !! free0 && src in own && src in mem0
    requires Copied(mem0, mem, own, src, copy, dst, n, free0, free)
    ensures Tree(mem, own, root, []) && Blocks(mem, own) && own.Keys !! free
    ensures dst in mem && src in mem && mem[src] == mem0[src]
  {
  }

  lemma CloneDone(mem0: Mem, mem: Mem, own: Own, kernel: nat, copy: Own, root: nat, free0: set<nat>, free: set<nat>)
    requires Tree(mem0, own, kernel, []) && Blocks(mem0, own) && own.Keys !! free0
    requires Copied(mem0, mem, own, kernel, copy, root, 512, free0, free) && own[kernel] == []
    ensures Tree(mem, own, kernel, []) && Blocks(mem, own) && own.Keys !! free
    ensures Tree(mem, copy, root, []) && Blocks(mem, copy) && Taken(mem0, mem, copy, free0, free)
    ensures forall v :: ValidVa(v) ==> Look(mem, root, 0, v) == Look(mem0, kernel, 0, v)
  {
    hide Tree, Blocks, Look, View;
    Root(mem0, own, kernel);
    CopiedKeeps(mem0, mem, own, kernel, kernel, copy, root, 512, free0, free);
    CopyDone(mem0, mem, own, kernel, copy, root, free0, free);
    forall v | ValidVa(v) ensures Look(mem, root, 0, v) == Look(mem0, kernel, 0, v) {
      assert Below(v, []);
      SameAt(mem0, mem, kernel, root, [], v);
    }
  }

  /** The frames holding tables, and the allocator's free frames. */
  class Tables {
    var mem: Mem
    var free: set<nat>
    /** How often each frame was given back. */
    ghost var released: multiset<nat>

    /** A well-formed address space: `own` labels the tables below `root`. */
    ghost predicate Space(own: Own, root: nat)
      reads this
    {
      Tree(mem, own, root, []) && Blocks(mem, own) && own.Keys !! free
    }

    method AllocFrame() returns (ok: bool, c: nat)
      modifies this`free
      ensures ok == (old(free) != {})
      ensures !ok ==> free == old(free)
      ensures ok ==> c in old(free) && free == old(free) - {c}
    {
      ok, c := free != {}, 0;
      if ok {
        c :| c in free;
        free := free - {c};
      }
    }

    /** A frame of unknown contents. */
    method AllocTableFrame() returns (ok: bool, c: nat)
      modifies this`mem, this`free
      ensures ok == (old(free) != {})
      ensures !ok ==> mem == old(mem) && free == old(free)
      ensures ok ==> c in old(free) && free == old(free) - {c} && c in mem && mem == old(mem)[c := mem[c]]
    {
      ok, c := AllocFrame();
      if ok {
        var t: Table := *;
        mem := mem[c := t];
      }
    }

    method AllocTable() returns (ok: bool, c: nat)
      modifies this`mem, this`free
      ensures ok == (old(free) != {})
      ensures !ok ==> mem == old(mem) && free == old(free)
      ensures ok ==> c in old(free) && free == old(free) - {c} && mem == old(mem)[c := Zero()]
    {
      ok, c := AllocTableFrame();
      if ok {
        mem := mem[c := Zero()];
      }
    }

    /** The table under entry `i` of `f`, made if there is none. No translation changes. A block
        there is taken for a table. */
    method EnsureTable(f: nat, i: nat, ghost own: Own, ghost root: nat)
      returns (ok: bool, c: nat, ghost own': Own)
      requires Space(own, root) && f in own && f in mem && |own[f]| < 3 && i < 512
      modifies this`mem, this`free
      ensures ok == (old(Valid(mem[f][i])) || old(free) != {})
      ensures !ok || old(IsBlock(mem[f][i])) ==> mem == old(mem) && free == old(free) && own' == own
      ensures old(IsBlock(mem[f][i])) ==> c == mem[f][i].page
      ensures ok && !old(IsBlock(mem[f][i])) ==> Space(own', root) && c in own' && own'[c] == own[f] + [i]
      ensures ok ==> Moved(old(mem), mem, own, own', old(free), free)
      ensures ok ==> SameView(old(mem), mem, root)
    {
      hide Tree, Look, Blocks, Grafted, Moved, BlocksFrom, SameView;
      ok, c, own' := true, 0, own;
      var entry := mem[f][i];
      if Valid(entry) {
        c := entry.page;
        if IsTable(entry) {
          Child(mem, own, root, [], f, i);
        }
        Still(mem, own, free, root);
      } else {
        ok, c := AllocTable();
        if ok {
          mem := SetEntry(mem, f, i, TableDesc(c));
          own' := own[c := own[f] + [i]];
          assert NewTable(old(mem), mem, own, own', f, i, c, Zero());
          AddEmpty(old(mem), mem, own, own', root, f, i, c);
          NewTableMoved(old(mem), mem, own, own', f, i, c, Zero(), old(free));
          BlocksKept(old(mem), mem, own, own', old(free), free);
        }
      }
    }

    /** Writes all 512 entries of the table for a split block. */
    method FillTable(c: nat, d: Desc, first: nat)
      requires c in mem
      modifies this`mem
      ensures c in mem && IsSplit(mem[c], d, first) && mem == old(mem)[c := mem[c]]
    {
      var i := 0;
      while i < 512
        invariant 0 <= i <= 512 && c in mem && mem == old(mem)[c := mem[c]]
        invariant forall j :: 0 <= j < i ==> mem[c][j] == PageDesc(first + j, FillFlags(d))
      {
        mem := SetEntry(mem, c, i, PageDesc(first + i, FillFlags(d)));
        i := i + 1;
      }
    }

    /** Replaces the block at entry `i` of the level-2 table `f` by a table of pages,
        addressed from the 2 MiB around page `cur`. */
    method SplitBlock(f: nat, i: nat, cur: nat, ghost own: Own, ghost root: nat) returns (ok: bool, ghost own': Own)
      requires Space(own, root) && f in own && f in mem && |own[f]| == 2 && i < 512 && IsBlock(mem[f][i])
      modifies this`mem, this`free
      ensures ok == (old(free) != {})
      ensures !ok ==> mem == old(mem) && free == old(free) && own' == own
      ensures ok ==> Space(own', root) && f in mem && !IsBlock(mem[f][i])
      ensures ok ==> Moved(old(mem), mem, own, own', old(free), free)
      ensures ok && (own[f][0] * 512 + own[f][1]) * 512 + i == cur / 512 ==> SameView(old(mem), mem, root)
      ensures ok ==> ElsewhereSame(old(mem), mem, root, own[f] + [i])
    {
      hide Tree, Look, Moved, BlocksFrom, SameView;
      own' := own;
      var c;
      ok, c := AllocTableFrame();
      if ok {
        var d := mem[f][i];
        FillTable(c, d, cur - cur % 512);
        ghost var t := mem[c];
        mem := SetEntry(mem, f, i, TableDesc(c));
        own' := own[c := own[f] + [i]];
        SplitMade(old(mem), mem, own, root, f, i, c, t, old(free), cur - cur % 512);
        BlocksKept(old(mem), mem, own, own', old(free), free);
      }
    }

    /** The loop body of `MapUserPages`: page `cur` through the level-2 table `l2`, which
        covers the region of `v`. */
    method MapOne(l2: nat, cur: nat, v: Va, flags: Flags, ghost own: Own, ghost root: nat)
      returns (ok: bool, ghost own': Own)
      requires Space(own, root) && l2 in own && ValidVa(v) && own[l2] == Prefix(v, 2)
      requires cur / 512 % 512 == v.i2 && cur % 512 == v.i3
      modifies this`mem, this`free
      ensures ok ==> Space(own', root) && l2 in own' && own'[l2] == own[l2]
      ensures ok ==> Moved(old(mem), mem, own, own', old(free), free)
      ensures ok ==> l2 in old(mem) && l2 in mem && !IsBlock(mem[l2][v.i2])
      ensures ok ==> OneMapped(old(mem), mem, root, v, LeafTarget(PageDesc(cur, flags)), IsBlock(old(mem)[l2][v.i2]))
      ensures ok && PageOf(v) == cur ==> Remapped(old(mem), mem, root, v, LeafTarget(PageDesc(cur, flags)))
      ensures !ok ==> free == {}
    {
      hide Tree, Look, Moved, BlocksFrom, SameView, Remapped, Blocks, ElsewhereSame, OneMapped;
      own', ok := own, true;
      Known(mem, own, root, l2);
      PrefixStep(v, 2);
      if IsBlock(mem[l2][v.i2]) {
        ok, own' := SplitBlock(l2, v.i2, cur, own, root);
        if !ok { return; }
      } else {
        Still(mem, own, free, root);
      }
      ghost var mem1, own1, free1 := mem, own', free;
      MovedOwn(old(mem), mem, own, own', old(free), free);
      Known(mem, own', root, l2);
      var l3;
      ok, l3, own' := EnsureTable(l2, v.i2, own', root);
      if !ok { return; }
      ghost var mem2, own2, free2 := mem, own', free;
      MovedOwn(mem1, mem, own1, own', free1, free);
      Known(mem, own', root, l3);
      mem := SetEntry(mem, l3, v.i3, PageDesc(cur, flags));
      LeafSet(mem2, own', root, l3, v, PageDesc(cur, flags), free);
      BlocksKept(mem2, mem, own', own', free, free);
      MovedThen(old(mem), mem1, mem2, own, own1, own2, old(free), free1, free2);
      MovedThen(old(mem), mem2, mem, own, own2, own', old(free), free2, free);
      MovedThen(mem1, mem2, mem, own1, own2, own', free1, free2, free);
      Known(mem, own', root, l2);
      StillNone(mem1, mem, own1, own', free1, free, l2, v.i2);
      OneMappedMade(old(mem), mem1, mem2, mem, root, v, LeafTarget(PageDesc(cur, flags)), IsBlock(old(mem)[l2][v.i2]));
      if PageOf(v) == cur {
        BlockIndex(v);
        RemappedAfter(old(mem), mem1, mem2, mem, root, v, LeafTarget(PageDesc(cur, flags)));
      }
    }

    /** The level-2 table on the way to `v`, made if there is none. */
    method EnsureLevel2(root: nat, v: Va, ghost own: Own) returns (ok: bool, l2: nat, ghost own': Own)
      requires Space(own, root) && ValidVa(v)
      modifies this`mem, this`free
      ensures ok ==> Space(own', root) && l2 in own' && own'[l2] == Prefix(v, 2)
      ensures ok ==> Moved(old(mem), mem, own, own', old(free), free) && SameView(old(mem), mem, root)
      ensures !ok ==> free == {}
    {
      hide Tree, Look, Moved, SameView, Blocks;
      Root(mem, own, root);
      HighBlock(mem, own, root, root, v.i0);
      var l1;
      ok, l1, own' := EnsureTable(root, v.i0, own, root);
      if !ok { l2 := 0; return; }
      ghost var mem1, own1, free1 := mem, own', free;
      PrefixStep(v, 0);
      Known(mem, own', root, l1);
      HighBlock(mem, own', root, l1, v.i1);
      ok, l2, own' := EnsureTable(l1, v.i1, own', root);
      if !ok { return; }
      PrefixStep(v, 1);
      MovedThen(old(mem), mem1, mem, own, own1, own', old(free), free1, free);
      SameViewThen(old(mem), mem1, mem, root);
    }

    /**
     * Identity-maps the pages `va .. va + n` with `flags`. The level-2 table
     * is looked up once, so page `cur` goes to slot `cur` of the region of
     * `va`. The range is mapped as asked if and only if it lies in that
     * region or all it would misplace was already where asked.
     */
    method MapUserPages(root: nat, va: nat, n: nat, flags: Flags, ghost own: Own) returns (ok: bool, ghost own': Own)
      requires Space(own, root) && va + n <= 0x10_0000_0000 && va < 0x10_0000_0000
      modifies this`mem, this`free
      ensures ok ==> Space(own', root) && Moved(old(mem), mem, own, own', old(free), free)
      ensures ok ==> RegionOnly(old(mem), mem, root, va) && LastWins(mem, root, va, n, flags)
      ensures ok && OneRegion(va, n) ==> Mapped(old(mem), mem, root, va, n, flags)
      ensures ok && Mapped(old(mem), mem, root, va, n, flags) ==> Already(old(mem), root, va, n, flags)
      ensures ok && PageFlags(flags) && Already(old(mem), root, va, n, flags) ==>
                Mapped(old(mem), mem, root, va, n, flags)
      ensures !ok ==> free == {}
    {
      hide Tree, Look, Moved, SameView, Blocks, Remapped, Mapped, RegionOnly, LastWins, AllSplit, OneMapped,
           Already, SlotsOnly, PageFlags, SameRegion, Slot, Prefix, PageOf, IsBlock, LeafTarget;
      ghost var kept := PageFlags(flags) && Already(old(mem), root, va, n, flags);
      var l2;
      ok, l2, own' := EnsureLevel2(root, Slot(va, va), own);
      if !ok { return; }
      Still(mem, own', free, root);
      MappedNone(old(mem), mem, mem, root, va, flags);
      Known(mem, own', root, l2);
      RangeStart(old(mem), mem, root, l2, va, flags);
      var k := 0;
      while k < n
        invariant 0 <= k <= n && ok
        invariant Space(own', root) && l2 in own' && own'[l2] == Prefix(Slot(va, va), 2)
        invariant Moved(old(mem), mem, own, own', old(free), free)
        invariant RegionOnly(old(mem), mem, root, va) && LastWins(mem, root, va, k, flags) && AllSplit(mem, l2, va, k)
        invariant OneRegion(va, n) ==> Mapped(old(mem), mem, root, va, k, flags)
        invariant kept ==> SlotsOnly(old(mem), mem, root, va, k)
      {
        ghost var mem1, own1, free1 := mem, own', free;
        var w := Slot(va, va + k);
        SlotParts(va, va + k);
        ok, own' := MapOne(l2, va + k, w, flags, own', root);
        if !ok { return; }
        MovedThen(old(mem), mem1, mem, own, own1, own', old(free), free1, free);
        RangeStep(old(mem), mem1, mem, root, l2, va, k, flags);
        if kept {
          KeptStep(old(mem), mem1, mem, own1, root, l2, va, n, k, flags);
        }
        StillSplit(mem1, mem, own1, own', free1, free, l2, va, k);
        if OneRegion(va, n) {
          SlotIsPage(va, va + k);
          MappedStep(old(mem), mem1, mem, root, va, k, flags, w);
        }
        k := k + 1;
      }
      if Mapped(old(mem), mem, root, va, n, flags) {
        MappedMeans(old(mem), mem, root, va, n, flags);
      } else if kept {
        AlreadyMapped(old(mem), mem, root, va, n, flags);
      }
    }

    /** Two pages around the first 1 GiB boundary: the second one lands on page 0, and stays
        unmapped itself. */
    method MapAcross(root: nat, flags: Flags, ghost own: Own) returns (ok: bool, ghost own': Own)
      requires Space(own, root)
      modifies this`mem, this`free
      ensures ok ==> Look(mem, root, 0, Va(0, 0, 0, 0)) == LeafTarget(PageDesc(0x4_0000, flags))
      ensures ok ==> Look(mem, root, 0, Va(0, 1, 0, 0)) == Look(old(mem), root, 0, Va(0, 1, 0, 0))
    {
      hide Tree, Look, Moved, Blocks, Mapped, LeafTarget, Already, Space, PageDesc;
      ok, own' := MapUserPages(root, 0x3_FFFF, 2, flags, own);
      assert Slot(0x3_FFFF, 0x4_0000) == Va(0, 0, 0, 0);
      assert !InRegion(Va(0, 1, 0, 0), 0x3_FFFF);
    }

    /** Maps the single page `v` to frame `pa`, where no block covers it. */
    method MapUserFrame(root: nat, v: Va, pa: nat, flags: Flags, ghost own: Own) returns (ok: bool, ghost own': Own)
      requires Space(own, root) && NoBlock(mem, own, v)
      modifies this`mem, this`free
      ensures ok ==> Space(own', root) && Moved(old(mem), mem, own, own', old(free), free)
      ensures ok ==> Remapped(old(mem), mem, root, v, LeafTarget(PageDesc(pa, flags)))
      ensures !ok ==> free == {}
    {
      hide Tree, Look, Moved, SameView, Blocks, Remapped;
      var l2, l3;
      ok, l2, own' := EnsureLevel2(root, v, own);
      if !ok { return; }
      ghost var mem1, own1, free1 := mem, own', free;
      StillNoBlock(old(mem), mem, own, own', old(free), free, v);
      Known(mem, own', root, l2);
      ok, l3, own' := EnsureTable(l2, v.i2, own', root);
      if !ok { return; }
      ghost var mem2, own2, free2 := mem, own', free;
      hide NoBlock;
      PrefixStep(v, 2);
      Known(mem, own', root, l3);
      mem := SetEntry(mem, l3, v.i3, PageDesc(pa, flags));
      LeafSet(mem2, own', root, l3, v, PageDesc(pa, flags), free);
      BlocksKept(mem2, mem, own', own', free, free);
      MovedThen(old(mem), mem1, mem2, own, own1, own2, old(free), free1, free2);
      MovedThen(old(mem), mem2, mem, own, own2, own', old(free), free2, free);
      RemappedAfter(old(mem), mem1, mem2, mem, root, v, LeafTarget(PageDesc(pa, flags)));
    }

    /** The level-3 descriptor of `v`, or zero. */
    method ReadUserPage(root: nat, v: Va, ghost own: Own) returns (d: Desc)
      requires Space(own, root) && ValidVa(v)
      ensures d == PageEntry(mem, root, v)
    {
      hide Tree, Look, Blocks;
      Root(mem, own, root);
      HighBlock(mem, own, root, root, v.i0);
      var l0e := mem[root][v.i0];
      if !Valid(l0e) { return EMPTY; }
      Child(mem, own, root, [], root, v.i0);
      Known(mem, own, root, l0e.page);
      HighBlock(mem, own, root, l0e.page, v.i1);
      var l1e := mem[l0e.page][v.i1];
      if !Valid(l1e) { return EMPTY; }
      Child(mem, own, root, [], l0e.page, v.i1);
      Known(mem, own, root, l1e.page);
      var l2e := mem[l1e.page][v.i2];
      if !IsTable(l2e) { return EMPTY; }
      Child(mem, own, root, [], l1e.page, v.i2);
      Known(mem, own, root, l2e.page);
      d := mem[l2e.page][v.i3];
    }

    /** Overwrites the level-3 descriptor of a page that has a level-3 table. */
    method WriteUserPage(root: nat, v: Va, d: Desc, ghost own: Own)
      requires Space(own, root) && ValidVa(v) && Walk(mem, root, 0, v).Some?
      modifies this`mem
      ensures Space(own, root) && Moved(old(mem), mem, own, own, free, free)
      ensures Remapped(old(mem), mem, root, v, LeafTarget(d))
    {
      hide Tree, Look, Blocks, Moved, Remapped;
      Root(mem, own, root);
      WalkIn(mem, own, root, root, v);
      var l1 := mem[root][v.i0].page;
      var l2 := mem[l1][v.i1].page;
      var l3 := mem[l2][v.i2].page;
      ghost var mem0 := mem;
      mem := SetEntry(mem, l3, v.i3, d);
      LeafSet(mem0, own, root, l3, v, d, free);
      BlocksKept(mem0, mem, own, own, free, free);
    }

    method FreeFrame(f: nat)
      modifies this`free, this`released
      ensures free == old(free) + {f} && released == old(released) + multiset{f}
    {
      free, released := free + {f}, released + multiset{f};
    }

    /** Gives back every table frame from `tbl` down, each once. */
    method WalkFree(tbl: nat, level: nat, ghost own: Own, ghost root: nat)
      requires Tree(mem, own, root, []) && tbl in own && |own[tbl]| == level && Sub(own, own[tbl]) !! free
      modifies this`free, this`released
      ensures Returned(old(free), free, old(released), released, Sub(own, own[tbl]))
      decreases 4 - level
    {
      Known(mem, own, root, tbl);
      SubIs(mem, own, root, tbl);
      NoneYet(own, own[tbl]);
      ReturnedNone(free, released);
      assert tbl !in free;
      hide Tree, Sub, UpTo, Returned;
      ghost var p := own[tbl];
      var i := 0;
      while i < 512
        invariant 0 <= i <= 512
        invariant Returned(old(free), free, old(released), released, UpTo(own, p, i))
      {
        ghost var free1, released1 := free, released;
        UpToStep(own, p, i);
        StillHeld(own, p, i, old(free), free, old(released), released);
        var e := mem[tbl][i];
        if level < 3 && IsTable(e) {
          Child(mem, own, root, [], tbl, i);
          WalkFree(e.page, level + 1, own, root);
        } else {
          Barren(mem, own, root, tbl, i);
          ReturnedNone(free, released);
        }
        ReturnedThen(old(free), free1, free, old(released), released1, released, UpTo(own, p, i), Sub(own, p + [i]));
        i := i + 1;
      }
      ghost var free1, released1 := free, released;
      LastOne(old(free), free, old(released), released, UpTo(own, p, 512), tbl);
      FreeFrame(tbl);
      ReturnedThen(old(free), free1, free, old(released), released1, released, UpTo(own, p, 512), {tbl});
    }

    /** Gives back the frames of a task's tables: all of them, each exactly once. */
    method FreeTaskTables(root: nat, ghost own: Own)
      requires Space(own, root)
      modifies this`free, this`released
      ensures Returned(old(free), free, old(released), released, own.Keys)
    {
      Root(mem, own, root);
      assert Sub(own, []) == own.Keys;
      hide Tree, Blocks;
      WalkFree(root, 0, own, root);
    }

    /** Copies the table `src` and everything below it into frames of its own. */
    method CloneLevel(src: nat, level: nat, ghost own: Own, ghost root: nat)
          returns (ok: bool, dst: nat, ghost copy: Own)
      requires Space(own, root) && src in own && |own[src]| == level
      modifies this`mem, this`free
      ensures ok ==> Copied(old(mem), mem, own, src, copy, dst, 512, old(free), free)
      ensures !ok ==> free == {}
      decreases 4 - level
    {
      hide Tree, Blocks, Copied, Look, IsTable, TableDesc;
      Known(mem, own, root, src);
      copy := map[];
      ok, dst := AllocTableFrame();
      if !ok { return; }
      copy := map[dst := own[src]];
      CopyStart(old(mem), mem, own, src, dst, old(free));
      var i := 0;
      while i < 512
        invariant 0 <= i <= 512 && ok
        invariant Copied(old(mem), mem, own, src, copy, dst, i, old(free), free)
      {
        ghost var mem1, free1 := mem, free;
        CopiedKeeps(old(mem), mem, own, root, src, copy, dst, i, old(free), free);
        var e := mem[src][i];
        if IsTable(e) && level < 3 {
          Child(old(mem), own, root, [], src, i);
          var c;
          ghost var sub;
          ok, c, sub := CloneLevel(e.page, level + 1, own, root);
          if !ok { return; }
          CopyChild(old(mem), mem1, mem, own, root, src, copy, sub, dst, c, i, old(free), free1, free);
          copy := copy + sub;
          mem := SetEntry(mem, dst, i, TableDesc(c));
        } else {
          CopyPlain(old(mem), mem, own, root, src, copy, dst, i, old(free), free);
          mem := SetEntry(mem, dst, i, e);
        }
        i := i + 1;
      }
    }

    /** A copy of the kernel's tables: the same translation of every page, by frames
        that belong to no other table. The kernel's tables stay as they were. */
    method CloneKernelTable(kernel: nat, ghost own: Own) returns (ok: bool, root: nat, ghost copy: Own)
      requires Space(own, kernel)
      modifies this`mem, this`free
      ensures ok ==> Space(own, kernel) && Space(copy, root) && copy.Keys <= old(free)
      ensures ok ==> Taken(old(mem), mem, copy, old(free), free)
      ensures ok ==> forall v :: ValidVa(v) ==> Look(mem, root, 0, v) == Look(old(mem), kernel, 0, v)
      ensures !ok ==> free == {}
    {
      Root(mem, own, kernel);
      ok, root, copy := CloneLevel(kernel, 0, own, kernel);
      if ok {
        CloneDone(old(mem), mem, own, kernel, copy, root, old(free), free);
      }
    }
  }

  // ── Many address spaces ────────────────────────────────────────────────────

  /** Several spaces, by their roots: all well formed, no frame in two of them and
      none of their frames free. */
  ghost predicate All(mem: Mem, free: set<nat>, spaces: map<nat, Own>) {
    && (forall r :: r in spaces ==> One(mem, free, spaces[r], r))
    && forall r, s :: r in spaces && s in spaces && r != s ==> spaces[r].Keys !! spaces[s].Keys
  }

  ghost predicate One(mem: Mem, free: set<nat>, own: Own, r: nat) {
    Tree(mem, own, r, []) && Blocks(mem, own) && own.Keys !! free
  }

  /** Every frame that is free or holds a table of some space. */
  ghost function Pool(spaces: map<nat, Own>, free: set<nat>): set<nat> {
    (set r, g | r in spaces && g in spaces[r] :: g) + free
  }

  lemma SameSpace(mem: Mem, mem': Mem, own: Own, r: nat)
    requires Tree(mem, own, r, []) && Blocks(mem, own) && Agree(mem, mem', own)
    ensures Tree(mem', own, r, []) && Blocks(mem', own) && SameView(mem, mem', r)
  {
    hide Tree, Blocks, Look, Agree;
    Root(mem, own, r);
    TreeElsewhere(mem, mem', own, r, []);
    BlocksElsewhere(mem, mem', own);
    forall v | ValidVa(v) ensures Look(mem', r, 0, v) == Look(mem, r, 0, v) {
      LookElsewhere(mem, mem', own, r, [], r, v);
    }
  }

  /** A change of one space and of free frames leaves another space alone. */
  lemma OtherSpace(mem: Mem, mem': Mem, own: Own, own': Own, free: set<nat>, free': set<nat>, other: Own, s: nat)
    requires Moved(mem, mem', own, own', free, free') && One(mem, free, other, s) && other.Keys !! own.Keys
    ensures One(mem', free', other, s) && other.Keys !! own'.Keys && SameView(mem, mem', s)
  {
    hide Tree, Blocks, Look, SameView;
    forall g | g in other ensures g in mem && g !in own && g !in free {
      Known(mem, other, s, g);
    }
    assert Agree(mem, mem', other);
    assert own'.Keys <= own.Keys + free && free' <= own.Keys + free;
    hide Moved, Agree;
    SameSpace(mem, mem', other, s);
  }

  lemma AllMoved(mem: Mem, mem': Mem, free: set<nat>, free': set<nat>, spaces: map<nat, Own>, r: nat, own': Own)
    requires All(mem, free, spaces) && r in spaces && Moved(mem, mem', spaces[r], own', free, free')
        && One(mem', free', own', r)
    ensures All(mem', free', spaces[r := own']) && Pool(spaces[r := own'], free') == Pool(spaces, free)
    ensures forall s :: s in spaces && s != r ==> SameView(mem, mem', s)
  {
    hide One, SameView;
    assert own'.Keys + free' == spaces[r].Keys + free;
    hide Moved;
    forall s | s in spaces && s != r
      ensures One(mem', free', spaces[s], s) && spaces[s].Keys !! own'.Keys && SameView(mem, mem', s)
    {
      OtherSpace(mem, mem', spaces[r], own', free, free', spaces[s], s);
    }
    PoolMoved(spaces, free, free', r, own');
  }

  lemma PoolMoved(spaces: map<nat, Own>, free: set<nat>, free': set<nat>, r: nat, own': Own)
    requires r in spaces && own'.Keys + free' == spaces[r].Keys + free
    ensures Pool(spaces[r := own'], free') == Pool(spaces, free)
  {
    var after := spaces[r := own'];
    forall g ensures g in Pool(after, free') <==> g in Pool(spaces, free) {
      assert g in own'.Keys + free' <==> g in spaces[r].Keys + free;
      if s :| s in spaces && g in spaces[s] {
        if s != r { assert after[s] == spaces[s]; } else { assert after[r] == own'; }
      }
      if s :| s in after && g in after[s] {
        if s != r { assert spaces[s] == after[s]; } else { assert after[r] == own'; }
      }
      assert after[r] == own';
    }
  }

  lemma AllCloned(mem: Mem, mem': Mem, free: set<nat>, free': set<nat>, spaces: map<nat, Own>, root: nat, copy: Own)
    requires All(mem, free, spaces) && Taken(mem, mem', copy, free, free') && One(mem', free', copy, root)
    ensures root !in spaces && All(mem', free', spaces[root := copy])
        && Pool(spaces[root := copy], free') == Pool(spaces, free)
    ensures forall s :: s in spaces ==> SameView(mem, mem', s)
  {
    assert copy.Keys + free' == free && One(mem', free', copy, root);
    hide Tree, Blocks, SameView, Taken, Pool;
    Root(mem', copy, root);
    hide One;
    forall s | s in spaces
      ensures s != root && One(mem', free', spaces[s], s) && spaces[s].Keys !! copy.Keys && SameView(mem, mem', s)
    {
      ApartFromCopy(mem, mem', free, free', copy, spaces[s], s);
    }
    assert All(mem', free', spaces);
    AllAdded(mem', free', spaces, root, copy);
    hide All;
    PoolCloned(spaces, free, free', root, copy);
  }

  lemma AllAdded(mem: Mem, free: set<nat>, spaces: map<nat, Own>, root: nat, copy: Own)
    requires All(mem, free, spaces) && root !in spaces && One(mem, free, copy, root)
    requires forall s :: s in spaces ==> spaces[s].Keys !! copy.Keys
    ensures All(mem, free, spaces[root := copy])
  {
  }

  lemma ApartFromCopy(mem: Mem, mem': Mem, free: set<nat>, free': set<nat>, copy: Own, own: Own, s: nat)
    requires One(mem, free, own, s) && Taken(mem, mem', copy, free, free')
    ensures s !in copy && One(mem', free', own, s) && own.Keys !! copy.Keys && SameView(mem, mem', s)
  {
    hide Tree, Blocks, SameView, Agree;
    Root(mem, own, s);
    SourceStays(mem, mem', own, s, copy, free, free');
    SameSpace(mem, mem', own, s);
  }

  lemma PoolCloned(spaces: map<nat, Own>, free: set<nat>, free': set<nat>, root: nat, copy: Own)
    requires root !in spaces && copy.Keys + free' == free
    ensures Pool(spaces[root := copy], free') == Pool(spaces, free)
  {
    var after := spaces[root := copy];
    forall g ensures g in Pool(after, free') <==> g in Pool(spaces, free) {
      assert g in copy.Keys + free' <==> g in free;
      assert after[root] == copy;
      if s :| s in spaces && g in spaces[s] {
        assert after[s] == spaces[s];
      }
      if s :| s in after && g in after[s] && s != root {
        assert spaces[s] == after[s];
      }
    }
  }

  lemma AllFreed(mem: Mem, free: set<nat>, spaces: map<nat, Own>, r: nat)
    requires All(mem, free, spaces) && r in spaces
    ensures All(mem, free + spaces[r].Keys, spaces - {r})
        && Pool(spaces - {r}, free + spaces[r].Keys) == Pool(spaces, free)
  {
    hide Tree, Blocks;
    var after, free' := spaces - {r}, free + spaces[r].Keys;
    forall g ensures g in Pool(after, free') <==> g in Pool(spaces, free) {
      if s :| s in spaces && g in spaces[s] && s != r {
        assert after[s] == spaces[s];
      }
      if s :| s in after && g in after[s] {
        assert spaces[s] == after[s];
      }
    }
  }

  /** What the kernel asks of the page tables while tasks come and go. */
  datatype Request = Clone | Map(root: nat, va: nat, n: nat, flags: Flags) | Release(root: nat)

  predicate Legal(req: Request, kernel: nat, roots: set<nat>) {
    match req
    case Clone => true
    case Map(root, va, n, _) => root in roots && root != kernel && va + n <= 0x10_0000_0000 && va < 0x10_0000_0000
    case Release(root) => root in roots && root != kernel
  }

  /** The request changes no translation of space `s`. */
  predicate Spares(req: Request, s: nat) {
    req.Map? ==> req.root != s
  }

  method Serve(t: Tables, req: Request, kernel: nat, roots: set<nat>, ghost spaces: map<nat, Own>)
    returns (ok: bool, roots': set<nat>, ghost spaces': map<nat, Own>)
    requires All(t.mem, t.free, spaces) && kernel in spaces && roots == spaces.Keys && Legal(req, kernel, roots)
    modifies t
    ensures ok ==> All(t.mem, t.free, spaces') && kernel in spaces' && roots' == spaces'.Keys
    ensures ok ==> Pool(spaces', t.free) == Pool(spaces, old(t.free))
    ensures ok ==> forall s :: s in spaces && s in spaces' && Spares(req, s) ==> SameView(old(t.mem), t.mem, s)
    ensures !ok ==> t.free == {}
  {
    hide Tree, Blocks, Moved, Taken, SameView, Look, Pool;
    spaces', roots' := spaces, roots;
    match req {
      case Clone =>
        var root;
        ghost var copy;
        assert One(t.mem, t.free, spaces[kernel], kernel);
        ok, root, copy := t.CloneKernelTable(kernel, spaces[kernel]);
        if ok {
          assert One(t.mem, t.free, copy, root);
          AllCloned(old(t.mem), t.mem, old(t.free), t.free, spaces, root, copy);
          spaces', roots' := spaces[root := copy], roots + {root};
        }
      case Map(root, va, n, flags) =>
        ghost var own';
        assert One(t.mem, t.free, spaces[root], root);
        ok, own' := t.MapUserPages(root, va, n, flags, spaces[root]);
        if ok {
          assert One(t.mem, t.free, own', root);
          AllMoved(old(t.mem), t.mem, old(t.free), t.free, spaces, root, own');
          spaces' := spaces[root := own'];
        }
      case Release(root) =>
        assert One(t.mem, t.free, spaces[root], root);
        ok := true;
        t.FreeTaskTables(root, spaces[root]);
        AllFreed(t.mem, old(t.free), spaces, root);
        spaces', roots' := spaces - {root}, roots - {root};
        Unmoved(t.mem);
    }
  }

  lemma Unmoved(mem: Mem)
    ensures forall s :: SameView(mem, mem, s)
  {
  }

  /** Over any run of such requests no frame is lost or shared, and the kernel's own
      translation never changes. */
  method Run(t: Tables, reqs: seq<Request>, kernel: nat, start: set<nat>, ghost spaces: map<nat, Own>)
    returns (ok: bool, ghost spaces': map<nat, Own>)
    requires All(t.mem, t.free, spaces) && kernel in spaces && start == spaces.Keys
    modifies t
    ensures ok ==> All(t.mem, t.free, spaces') && Pool(spaces', t.free) == Pool(spaces, old(t.free))
    ensures ok ==> SameView(old(t.mem), t.mem, kernel)
    ensures !ok ==> t.free == {}
  {
    hide All, Pool, SameView;
    spaces', ok := spaces, true;
    var roots := start;
    Unmoved(t.mem);
    var i := 0;
    while i < |reqs|
      invariant 0 <= i <= |reqs| && ok
      invariant All(t.mem, t.free, spaces') && kernel in spaces' && roots == spaces'.Keys
      invariant Pool(spaces', t.free) == Pool(spaces, old(t.free)) && SameView(old(t.mem), t.mem, kernel)
    {
      if Legal(reqs[i], kernel, roots) {
        ghost var mem1 := t.mem;
        ok, roots, spaces' := Serve(t, reqs[i], kernel, roots, spaces');
        if !ok { return; }
        SameViewThen(old(t.mem), mem1, t.mem, kernel);
      }
      i := i + 1;
    }
  }
}
