/** User-fault resolution: stack growth, demand-zero pages and copy on write. */
module VmFault {
  import opened Bytes
  import opened PageTables
  import opened AddressSpace

  const AP_EL0: bv12 := 0x040
  const AP_RO: bv12 := 0x080

  type Page = s: seq<byte> | |s| == 4096 witness seq(4096, _ => 0)

  predicate IsZero(p: Page) {
    forall i :: 0 <= i < 4096 ==> p[i] == 0
  }

  datatype Kind = NoRegion | Stack | Demand
  datatype Region = Region(kind: Kind, base: nat, pages: nat)
  datatype Fault = NoFault | Translation | AccessFlag | Permission

  predicate Covers(r: Region, page: nat) {
    r.base <= page < r.base + r.pages
  }

  // ── What the resolver decides ──────────────────────────────────────────────

  datatype Action = Decline | Open | Alias | Split | SetAf

  function ByKind(k: Kind): Action {
    match k case NoRegion => Decline case Stack => Open case Demand => Alias
  }

  /** The kind of the first region over `page`; with `skip`, regions of no kind do not count. */
  function FirstKind(regions: seq<Region>, page: nat, skip: bool): Kind {
    if regions == [] then NoRegion
    else if Covers(regions[0], page) && (skip ==> regions[0].kind != NoRegion) then regions[0].kind
    else FirstKind(regions[1..], page, skip)
  }

  /** Region `i` is the first that covers `page`; with `skip`, regions of no kind do not count. */
  predicate FirstOver(regions: seq<Region>, page: nat, skip: bool, i: int) {
    && 0 <= i < |regions| && Over(regions[i], page, skip)
    && forall j :: 0 <= j < i ==> !Over(regions[j], page, skip)
  }

  predicate Over(r: Region, page: nat, skip: bool) {
    r.base <= page < r.base + r.pages && (skip ==> r.kind != NoRegion)
  }

  /** The kind found is that of the first region over the page, and none if there is no such region. */
  lemma {:induction false} FirstKindIs(regions: seq<Region>, page: nat, skip: bool)
    ensures forall i :: FirstOver(regions, page, skip, i) ==> FirstKind(regions, page, skip) == regions[i].kind
    ensures (forall i :: 0 <= i < |regions| ==> !Over(regions[i], page, skip)) ==>
              FirstKind(regions, page, skip) == NoRegion
    ensures FirstKind(regions, page, skip) != NoRegion ==>
              exists i :: FirstOver(regions, page, skip, i) && regions[i].kind == FirstKind(regions, page, skip)
    ensures FirstKind(regions, page, true) == NoRegion <==>
              forall i :: 0 <= i < |regions| ==> !Over(regions[i], page, true)
  {
    if regions != [] {
      var rest := regions[1..];
      FirstKindIs(rest, page, skip);
      FirstKindIs(rest, page, true);
      assert forall i :: 0 <= i < |rest| ==> rest[i] == regions[i + 1];
      forall i | FirstOver(regions, page, skip, i) ensures FirstKind(regions, page, skip) == regions[i].kind {
        if i > 0 {
          assert !Over(regions[0], page, skip);
          assert FirstOver(rest, page, skip, i - 1);
        }
      }
      if Over(regions[0], page, skip) {
        assert FirstOver(regions, page, skip, 0);
      } else if FirstKind(rest, page, skip) != NoRegion {
        var i :| FirstOver(rest, page, skip, i) && rest[i].kind == FirstKind(rest, page, skip);
        assert FirstOver(regions, page, skip, i + 1);
      }
    }
  }

  predicate IsCow(entry: Desc) {
    Valid(entry) && entry.low & COW_TAG != 0
  }

  function Decide(fault: Fault, regions: seq<Region>, page: nat, entry: Desc): Action {
    match fault
    case NoFault => Decline
    case Translation => ByKind(FirstKind(regions, page, true))
    case Permission => if IsCow(entry) then Split else ByKind(FirstKind(regions, page, false))
    case AccessFlag =>
      if IsCow(entry) then Split
      else if Valid(entry) && entry.low & AF == 0 then SetAf
      else Decline
  }

  function WithAf(d: Desc): Desc {
    Desc(d.high, d.page, d.low | AF)
  }

  // ── What the processor does ────────────────────────────────────────────────

  /** The fault an EL0 access raises under this translation. */
  function Check(t: Option<Target>, write: bool): Fault {
    match t
    case None => Translation
    case Some(x) =>
      if x.low & AF == 0 then AccessFlag
      else if x.low & AP_EL0 == 0 then Permission
      else if write && x.low & AP_RO != 0 then Permission
      else NoFault
  }

  const RWX_LOW: bv12 := 0x741
  const COW_LOW: bv12 := 0xFC1

  /** How far a page of a demand window has come. */
  datatype Stage = Fresh | Shared | Private(frame: nat) | Odd

  function StageOf(t: Option<Target>, zero: nat): Stage {
    match t
    case None => Fresh
    case Some(x) =>
      if x == Target(zero, 0, COW_LOW) then Shared
      else if x.high == 0 && x.low == RWX_LOW then Private(x.page)
      else if x.low & AP_EL0 == 0 && x.low & COW_TAG == 0 && x.low & AF != 0 then Fresh
      else Odd
  }

  /** Resolver calls still needed before an access goes through. */
  function Rank(s: Stage, write: bool): nat {
    match s
    case Fresh => if write then 2 else 1
    case Shared => if write then 1 else 0
    case _ => 0
  }

  /** An access faults exactly when calls are still needed; a copy page never shows an
      access-flag fault, and a shared one only a permission fault on writes. */
  lemma CheckStage(t: Option<Target>, zero: nat, write: bool)
    requires !StageOf(t, zero).Odd?
    ensures Check(t, write) == NoFault <==> Rank(StageOf(t, zero), write) == 0
    ensures Check(t, write) != AccessFlag
    ensures StageOf(t, zero).Shared? ==> Check(t, write) == if write then Permission else NoFault
  {
  }

  lemma Targets(page: nat)
    ensures LeafTarget(PageDesc(page, USER_RWX)) == Some(Target(page, 0, RWX_LOW))
    ensures LeafTarget(PageDesc(page, USER_COW)) == Some(Target(page, 0, COW_LOW))
  {
  }

  // ── The resolver ───────────────────────────────────────────────────────────

  datatype Outcome = Repaired | Declined | OutOfFrames

  /** Tables, their frames, the free frames and the contents of the others. */
  datatype State = State(mem: Mem, own: Own, free: set<nat>, data: map<nat, Page>)

  /** The translation of `v` alone changed, to `t`. */
  ghost predicate Only(v: Va, t: Option<Target>, root: nat, s: State, s': State) {
    s'.data == s.data && Moved(s.mem, s'.mem, s.own, s'.own, s.free, s'.free) && Remapped(s.mem, s'.mem, root, v, t)
  }

  /** `v` got a frame of its own with the contents of frame `from`. */
  ghost predicate Copied(v: Va, from: nat, copy: nat, root: nat, s: State, s': State) {
    && copy in s.free && s'.free == s.free - {copy} && Moved(s.mem, s'.mem, s.own, s'.own, s'.free, s'.free)
    && from in s.data && s'.data == s.data[copy := s.data[from]]
    && Remapped(s.mem, s'.mem, root, v, Some(Target(copy, 0, RWX_LOW)))
  }

  /** What repairing page `v` by action `a` does. */
  ghost predicate Effect(a: Action, v: Va, entry: Desc, zero: nat, copy: nat, root: nat, s: State, s': State) {
    match a
    case Decline => s' == s
    case Open => Only(v, Some(Target(PageOf(v), 0, RWX_LOW)), root, s, s')
    case Alias => Only(v, Some(Target(zero, 0, COW_LOW)), root, s, s')
    case SetAf => Only(v, LeafTarget(WithAf(entry)), root, s, s')
    case Split => Copied(v, entry.page, copy, root, s, s')
  }

  lemma EntryMeansWalk(mem: Mem, root: nat, v: Va)
    requires ValidVa(v) && Valid(PageEntry(mem, root, v))
    ensures Walk(mem, root, 0, v).Some?
  {
  }

  // ── Demand windows ─────────────────────────────────────────────────────────

  /** The first region over page `v` is of kind `k`. */
  predicate InRegionOf(regions: seq<Region>, v: Va, k: Kind) {
    && ValidVa(v)
    && exists i :: 0 <= i < |regions| && regions[i].kind == k && FirstOver(regions, PageOf(v), false, i)
  }

  predicate InWindow(regions: seq<Region>, v: Va) {
    InRegionOf(regions, v, Demand)
  }

  lemma FirstEitherWay(regions: seq<Region>, page: nat, i: nat)
    requires FirstOver(regions, page, false, i) && regions[i].kind != NoRegion
    ensures FirstOver(regions, page, true, i)
  {
    forall j | 0 <= j < i ensures !Over(regions[j], page, true) {
      assert !Over(regions[j], page, false);
    }
  }

  /** Both ways of searching find that region. */
  lemma RegionFound(regions: seq<Region>, v: Va, k: Kind)
    requires InRegionOf(regions, v, k) && k != NoRegion
    ensures FirstKind(regions, PageOf(v), true) == k && FirstKind(regions, PageOf(v), false) == k
  {
    var page := PageOf(v);
    var i :| 0 <= i < |regions| && regions[i].kind == k && FirstOver(regions, page, false, i);
    FirstEitherWay(regions, page, i);
    FirstKindIs(regions, page, false);
    FirstKindIs(regions, page, true);
  }

  ghost function StageAt(s: State, root: nat, zero: nat, v: Va): Stage {
    if ValidVa(v) then StageOf(Look(s.mem, root, 0, v), zero) else Odd
  }

  /** A data frame: no table and not free. */
  ghost predicate Held(s: State, f: nat) {
    f in s.data && f !in s.own && f !in s.free
  }

  ghost predicate PageOk(s: State, root: nat, zero: nat, v: Va) {
    && NoBlock(s.mem, s.own, v) && !StageAt(s, root, zero, v).Odd?
    && (StageAt(s, root, zero, v).Private? ==>
          Held(s, StageAt(s, root, zero, v).frame) && StageAt(s, root, zero, v).frame != zero)
  }

  ghost predicate Unshared(s: State, root: nat, zero: nat, v: Va, w: Va) {
    StageAt(s, root, zero, v).Private? && StageAt(s, root, zero, w).Private? && v != w ==>
      StageAt(s, root, zero, v).frame != StageAt(s, root, zero, w).frame
  }

  /** The zero page is zero, and each page of the windows is fresh, an alias of the zero
      page, or has a frame to itself. */
  ghost predicate WindowOk(s: State, root: nat, zero: nat, regions: seq<Region>) {
    && Held(s, zero) && IsZero(s.data[zero])
    && (forall v :: InWindow(regions, v) ==> PageOk(s, root, zero, v))
    && (forall v, w :: InWindow(regions, v) && InWindow(regions, w) ==> Unshared(s, root, zero, v, w))
  }

  /** What the program sees in page `v`. */
  ghost function Contents(s: State, root: nat, zero: nat, v: Va): Page
    requires Held(s, zero) && PageOk(s, root, zero, v)
  {
    match StageAt(s, root, zero, v)
    case Private(f) => s.data[f]
    case _ => s.data[zero]
  }

  lemma HeldMoves(s: State, s': State, f: nat)
    requires Moved(s.mem, s'.mem, s.own, s'.own, s.free, s'.free) && s'.data == s.data && Held(s, f)
    ensures Held(s', f)
  {
  }

  /** Aliasing the zero page changes no contents. */
  lemma AliasKeeps(s: State, s': State, root: nat, zero: nat, regions: seq<Region>, v: Va)
    requires WindowOk(s, root, zero, regions) && InWindow(regions, v) && !StageAt(s, root, zero, v).Private?
    requires Only(v, Some(Target(zero, 0, COW_LOW)), root, s, s')
    ensures WindowOk(s', root, zero, regions) && StageAt(s', root, zero, v) == Shared
        && Privates(s, s', root, zero, regions)
    ensures forall w :: InWindow(regions, w) ==> Contents(s', root, zero, w) == Contents(s, root, zero, w)
  {
    hide Moved, Remapped, StageOf, NoBlock, InWindow, Look;
    HeldMoves(s, s', zero);
    forall w | InWindow(regions, w)
      ensures StageAt(s', root, zero, w) == if w == v then Shared else StageAt(s, root, zero, w)
      ensures PageOk(s', root, zero, w)
    {
      AliasPage(s, s', root, zero, v, w);
    }
    hide StageAt, Held;
  }

  lemma AliasPage(s: State, s': State, root: nat, zero: nat, v: Va, w: Va)
    requires PageOk(s, root, zero, w) && ValidVa(w) && Only(v, Some(Target(zero, 0, COW_LOW)), root, s, s')
    ensures StageAt(s', root, zero, w) == if w == v then Shared else StageAt(s, root, zero, w)
    ensures PageOk(s', root, zero, w)
  {
  }

  lemma HeldSplit(s: State, s': State, v: Va, from: nat, copy: nat, root: nat, f: nat)
    requires Copied(v, from, copy, root, s, s') && (Held(s, f) || f == copy) && copy !in s.own
    ensures Held(s', f)
    ensures f != copy ==> s'.data[f] == s.data[f]
  {
  }

  /** A split changes no contents either, and touches no frame but the copy. */
  lemma SplitPage(s: State, s': State, root: nat, zero: nat, v: Va, copy: nat, w: Va)
    requires PageOk(s, root, zero, w) && ValidVa(w) && Held(s, zero) && Copied(v, zero, copy, root, s, s')
        && copy !in s.own
    ensures StageAt(s', root, zero, w) == if w == v then Private(copy) else StageAt(s, root, zero, w)
    ensures PageOk(s', root, zero, w) && copy != zero
    ensures w != v && StageAt(s, root, zero, w).Private? ==> StageAt(s, root, zero, w).frame != copy
  {
  }

  lemma CowKeeps(s: State, s': State, root: nat, zero: nat, regions: seq<Region>, v: Va, copy: nat)
    requires WindowOk(s, root, zero, regions) && InWindow(regions, v) && StageAt(s, root, zero, v) == Shared
    requires Copied(v, zero, copy, root, s, s') && copy !in s.own
    ensures WindowOk(s', root, zero, regions) && StageAt(s', root, zero, v) == Private(copy)
    ensures Privates(s, s', root, zero, regions)
    ensures forall w :: InWindow(regions, w) ==> Contents(s', root, zero, w) == Contents(s, root, zero, w)
  {
    hide Moved, Remapped, NoBlock, Tree, Look;
    HeldSplit(s, s', v, zero, copy, root, zero);
    forall w | InWindow(regions, w)
      ensures StageAt(s', root, zero, w) == if w == v then Private(copy) else StageAt(s, root, zero, w)
      ensures PageOk(s', root, zero, w) && copy != zero
      ensures w != v && StageAt(s, root, zero, w).Private? ==> StageAt(s, root, zero, w).frame != copy
    {
      SplitPage(s, s', root, zero, v, copy, w);
    }
    hide StageAt, InWindow;
  }

  /** The resolver's entry and the processor's translation tell the same. */
  lemma LookEntry(mem: Mem, own: Own, root: nat, v: Va)
    requires Tree(mem, own, root, []) && NoBlock(mem, own, v)
    ensures Look(mem, root, 0, v) == LeafTarget(PageEntry(mem, root, v))
  {
    hide Tree, Look, Walk;
    Root(mem, own, root);
    WalkIn(mem, own, root, root, v);
    assert LeafTarget(EMPTY) == None;
  }

  /** On a page of a window the resolver aliases first and splits then. */
  lemma DecideWindow(s: State, root: nat, zero: nat, regions: seq<Region>, v: Va, write: bool)
    requires InWindow(regions, v) && PageOk(s, root, zero, v) && Tree(s.mem, s.own, root, [])
    requires Check(Look(s.mem, root, 0, v), write) != NoFault
    ensures var entry, fault := PageEntry(s.mem, root, v), Check(Look(s.mem, root, 0, v), write);
      && fault != AccessFlag && (fault != Translation && IsCow(entry) ==> entry.page == zero)
      && match StageAt(s, root, zero, v)
         case Fresh => Decide(fault, regions, PageOf(v), entry) == Alias
         case Shared => write && Decide(fault, regions, PageOf(v), entry) == Split && entry.page == zero
         case _ => false
  {
    hide Tree, Walk, PageEntry, FirstKind, InRegionOf;
    RegionFound(regions, v, Demand);
    LookEntry(s.mem, s.own, root, v);
    CheckStage(Look(s.mem, root, 0, v), zero, write);
    hide Look, NoBlock;
    EntryCow(PageEntry(s.mem, root, v), zero, write);
  }

  lemma EntryCow(entry: Desc, zero: nat, write: bool)
    ensures var t := LeafTarget(entry);
      && (t.Some? && StageOf(t, zero) == Fresh ==> !IsCow(entry))
      && (StageOf(t, zero) == Shared ==> IsCow(entry) && entry.page == zero)
      && (StageOf(t, zero).Private? ==> !IsCow(entry))
  {
  }

  // ── What a fault leads to ──────────────────────────────────────────────────

  /** The access cannot go through: no translation, the access flag clear, or the page closed to it. */
  predicate Faults(t: Option<Target>, write: bool) {
    t.None? || Stale(t) || Closed(t, write)
  }

  predicate Stale(t: Option<Target>) {
    t.Some? && t.value.low & AF == 0
  }

  /** Closed to user code, or to its writes. */
  predicate Closed(t: Option<Target>, write: bool) {
    t.Some? && (t.value.low & AP_EL0 == 0 || (write && t.value.low & AP_RO != 0))
  }

  predicate Tagged(t: Option<Target>) {
    t.Some? && t.value.low & COW_TAG != 0
  }

  lemma FaultIs(t: Option<Target>, write: bool)
    ensures Check(t, write) == NoFault <==> !Faults(t, write)
    ensures Check(t, write) == Translation <==> t.None?
    ensures Check(t, write) == AccessFlag <==> Stale(t)
    ensures Check(t, write) == Permission <==> !Stale(t) && Closed(t, write)
  {
  }

  /** What repairs page `v` when the first region over it counts for what its kind says. */
  ghost predicate ByRegion(s: State, s': State, root: nat, zero: nat, regions: seq<Region>, v: Va, skip: bool,
        r: Outcome)
    requires ValidVa(v)
  {
    && (forall i :: FirstOver(regions, PageOf(v), skip, i) ==>
          match regions[i].kind
          case NoRegion => r == Declined
          case Stack => r != Declined && (r == Repaired ==> Only(v, Some(Target(PageOf(v), 0, RWX_LOW)), root, s, s'))
          case Demand => r != Declined && (r == Repaired ==> Only(v, Some(Target(zero, 0, COW_LOW)), root, s, s')))
    && ((forall i :: 0 <= i < |regions| ==> !Over(regions[i], PageOf(v), skip)) ==> r == Declined)
  }

  /** A page without translation, or closed, is opened as its region says; a tagged page gets a copy of its
      frame, if there is a free one; a page with the access flag clear gets it set. */
  ghost predicate Settled(s: State, s': State, root: nat, zero: nat, regions: seq<Region>, v: Va, r: Outcome, copy: nat)
    requires ValidVa(v)
  {
    var t := Look(s.mem, root, 0, v);
    && (r == Declined ==> s' == s) && (r == OutOfFrames ==> s'.free == {})
    && (t.None? ==> ByRegion(s, s', root, zero, regions, v, true, r))
    && (t.Some? && Tagged(t) ==>
          && (r == Declined <==> s.free == {}) && r != OutOfFrames
          && (r == Repaired ==> Copied(v, t.value.page, copy, root, s, s')))
    && (t.Some? && !Tagged(t) && Stale(t) ==>
          r == Repaired && Only(v, Some(t.value.(low := t.value.low | AF)), root, s, s'))
    && (t.Some? && !Tagged(t) && !Stale(t) ==> ByRegion(s, s', root, zero, regions, v, false, r))
  }

  lemma EntryTells(entry: Desc)
    ensures var t := LeafTarget(entry);
      && (t.Some? ==> t.value.page == entry.page && Valid(entry) && (IsCow(entry) <==> Tagged(t)))
      && (t.Some? ==> (entry.low & AF == 0 <==> Stale(t)))
      && (t.Some? ==> LeafTarget(WithAf(entry)) == Some(t.value.(low := t.value.low | AF)))
  {
  }

  lemma DecideTells(s: State, s': State, root: nat, zero: nat, regions: seq<Region>, v: Va, write: bool, entry: Desc,
                    r: Outcome, copy: nat)
    requires ValidVa(v) && Look(s.mem, root, 0, v) == LeafTarget(entry) && Faults(LeafTarget(entry), write)
    requires var a := Decide(Check(LeafTarget(entry), write), regions, PageOf(v), entry);
      && (r == Declined <==> a == Decline || (a == Split && s.free == {}))
      && (r == Repaired ==> Effect(a, v, entry, zero, copy, root, s, s'))
      && (a == Split || a == SetAf ==> r != OutOfFrames)
    requires (r == Declined ==> s' == s) && (r == OutOfFrames ==> s'.free == {})
    ensures Settled(s, s', root, zero, regions, v, r, copy)
  {
    hide Look, Only, Copied, FirstKind, Check, LeafTarget;
    var t := LeafTarget(entry);
    FaultIs(t, write);
    EntryTells(entry);
    KindTells(s, s', root, zero, regions, v, true, entry, r);
    KindTells(s, s', root, zero, regions, v, false, entry, r);
  }

  lemma KindTells(s: State, s': State, root: nat, zero: nat, regions: seq<Region>, v: Va, skip: bool, entry: Desc,
                  r: Outcome)
    requires ValidVa(v)
    ensures var a := ByKind(FirstKind(regions, PageOf(v), skip));
      (r == Declined <==> a == Decline) && (r == Repaired ==> Effect(a, v, entry, zero, 0, root, s, s')) ==>
        ByRegion(s, s', root, zero, regions, v, skip, r)
  {
    hide Only, FirstKind;
    FirstKindIs(regions, PageOf(v), skip);
  }

  /** A fault on a stack page is never turned away, and repairing it opens the page to user loads and stores. */
  lemma StackOpens(s: State, s': State, root: nat, zero: nat, regions: seq<Region>, v: Va, r: Outcome, copy: nat)
    requires ValidVa(v) && InRegionOf(regions, v, Stack) && Settled(s, s', root, zero, regions, v, r, copy)
    requires var t := Look(s.mem, root, 0, v); t.None? || (!Tagged(t) && !Stale(t))
    ensures r == Repaired || (r == OutOfFrames && s'.free == {})
    ensures r == Repaired ==>
      && Look(s'.mem, root, 0, v) == Some(Target(PageOf(v), 0, RWX_LOW)) && s'.data == s.data
      && (forall write :: !Faults(Look(s'.mem, root, 0, v), write))
      && (forall w :: ValidVa(w) && w != v ==> Look(s'.mem, root, 0, w) == Look(s.mem, root, 0, w))
  {
    hide Look, Moved;
    var page := PageOf(v);
    var i :| 0 <= i < |regions| && regions[i].kind == Stack && FirstOver(regions, page, false, i);
    FirstEitherWay(regions, page, i);
  }

  // ── Runs of accesses ───────────────────────────────────────────────────────

  ghost predicate SameContents(s: State, s': State, root: nat, zero: nat, regions: seq<Region>) {
    && WindowOk(s, root, zero, regions) && WindowOk(s', root, zero, regions)
    && forall w :: InWindow(regions, w) ==> Contents(s', root, zero, w) == Contents(s, root, zero, w)
  }

  /** No frame in use changed; frames were at most taken. */
  ghost predicate Spared(s: State, s': State) {
    s'.free <= s.free && forall f :: f in s.data && f !in s.free ==> f in s'.data && s'.data[f] == s.data[f]
  }

  /** Byte `off` of page `v` is now `b`; nothing else in the windows changed. */
  ghost predicate Stored(s: State, s': State, root: nat, zero: nat, regions: seq<Region>, v: Va, off: nat, b: byte) {
    && WindowOk(s, root, zero, regions) && WindowOk(s', root, zero, regions) && off < 4096
    && forall w :: InWindow(regions, w) ==>
         Contents(s', root, zero, w) == if w == v then Contents(s, root, zero, w)[off := b]
             else Contents(s, root, zero, w)
  }

  /** A private page has the frame it had, or one that was free. */
  ghost predicate Privates(s: State, s': State, root: nat, zero: nat, regions: seq<Region>) {
    forall w :: InWindow(regions, w) && StageAt(s', root, zero, w).Private? ==>
      StageAt(s, root, zero, w) == StageAt(s', root, zero, w) || StageAt(s', root, zero, w).frame in s.free
  }

  /** Since `s0` only frames that were free then have changed, and only those are private. */
  ghost predicate Apart(s0: State, s: State, root: nat, zero: nat, regions: seq<Region>) {
    && Spared(s0, s)
    && forall w :: InWindow(regions, w) && StageAt(s, root, zero, w).Private? ==>
       StageAt(s, root, zero, w).frame in s0.free
  }

  lemma ApartThen(s0: State, s: State, s': State, root: nat, zero: nat, regions: seq<Region>)
    requires Apart(s0, s, root, zero, regions) && Spared(s, s') && Privates(s, s', root, zero, regions)
    ensures Apart(s0, s', root, zero, regions)
  {
  }

  lemma StoreApart(s0: State, s: State, s': State, root: nat, zero: nat, regions: seq<Region>, v: Va, f: nat)
    requires Apart(s0, s, root, zero, regions) && InWindow(regions, v) && StageAt(s, root, zero, v) == Private(f)
    requires f in s.data && f in s'.data && s' == s.(data := s.data[f := s'.data[f]])
    ensures Apart(s0, s', root, zero, regions)
  {
  }

  lemma FreeShrinks(s: State, s': State)
    requires Moved(s.mem, s'.mem, s.own, s'.own, s.free, s'.free) && s'.own.Keys !! s'.free
    ensures s'.free <= s.free
  {
  }

  datatype Access = Load(v: Va, off: nat) | Store(v: Va, off: nat, b: byte)

  predicate AccessOk(regions: seq<Region>, a: Access) {
    InWindow(regions, a.v) && a.off < 4096
  }

  /** The byte last stored at this address, zero if none was. */
  function Last(log: seq<Access>, v: Va, off: nat): byte {
    if log == [] then 0
    else
      var a := log[|log| - 1];
      if a.Store? && a.v == v && a.off == off then a.b else Last(log[..|log| - 1], v, off)
  }

  /** The windows hold what the log of accesses says. */
  ghost predicate Shows(s: State, root: nat, zero: nat, regions: seq<Region>, log: seq<Access>) {
    && WindowOk(s, root, zero, regions)
    && forall w, off :: InWindow(regions, w) && 0 <= off < 4096 ==> Contents(s, root, zero, w)[off] == Last(log, w, off)
  }

  lemma ShowsLoad(s: State, s': State, root: nat, zero: nat, regions: seq<Region>, log: seq<Access>, a: Access)
    requires Shows(s, root, zero, regions, log) && SameContents(s, s', root, zero, regions) && a.Load?
    ensures Shows(s', root, zero, regions, log + [a])
  {
  }

  /** Storing into a private page changes that byte of the window. */
  lemma StoreKeeps(s: State, s': State, root: nat, zero: nat, regions: seq<Region>, v: Va, off: nat, b: byte)
    requires WindowOk(s, root, zero, regions) && InWindow(regions, v) && off < 4096
        && StageAt(s, root, zero, v).Private?
    requires var f := StageAt(s, root, zero, v).frame; f in s.data && s' == s.(data := s.data[f := s.data[f][off := b]])
    ensures Stored(s, s', root, zero, regions, v, off, b)
  {
    hide InWindow, NoBlock;
    assert forall w :: StageAt(s', root, zero, w) == StageAt(s, root, zero, w);
    hide StageAt;
    forall w | InWindow(regions, w)
      ensures PageOk(s', root, zero, w)
      ensures Contents(s', root, zero, w) == if w == v then Contents(s, root, zero, w)[off := b]
          else Contents(s, root, zero, w)
    {
      assert PageOk(s, root, zero, w) && PageOk(s, root, zero, v) && Unshared(s, root, zero, v, w);
    }
  }

  lemma ShowsStore(s: State, s': State, root: nat, zero: nat, regions: seq<Region>, log: seq<Access>, a: Access)
    requires Shows(s, root, zero, regions, log) && a.Store? && Stored(s, s', root, zero, regions, a.v, a.off, a.b)
    ensures Shows(s', root, zero, regions, log + [a])
  {
  }

  lemma StoredAfter(s0: State, s: State, s': State, root: nat, zero: nat, regions: seq<Region>, v: Va, off: nat,
        b: byte)
    requires SameContents(s0, s, root, zero, regions) && Stored(s, s', root, zero, regions, v, off, b)
    ensures Stored(s0, s', root, zero, regions, v, off, b)
  {
  }

  /** Once no call is needed, the translation leads to the frame that holds the page. */
  lemma Ready(s: State, root: nat, zero: nat, v: Va, write: bool)
    requires PageOk(s, root, zero, v) && Held(s, zero) && ValidVa(v) && Rank(StageAt(s, root, zero, v), write) == 0
    ensures var t := Look(s.mem, root, 0, v);
      && t.Some? && t.value.page in s.data && s.data[t.value.page] == Contents(s, root, zero, v)
      && (write ==> StageAt(s, root, zero, v) == Private(t.value.page))
  {
  }

  lemma Blank(s: State, root: nat, zero: nat, regions: seq<Region>)
    requires WindowOk(s, root, zero, regions)
    requires forall w :: InWindow(regions, w) ==> !StageAt(s, root, zero, w).Private?
    ensures Shows(s, root, zero, regions, [])
  {
  }

  lemma LoadShows(s: State, s': State, root: nat, zero: nat, regions: seq<Region>, log: seq<Access>, v: Va, off: nat)
    requires Shows(s, root, zero, regions, log) && SameContents(s, s', root, zero, regions) && InWindow(regions, v)
        && off < 4096
    ensures Contents(s', root, zero, v)[off] == Last(log, v, off)
  {
  }

  lemma WindowPage(s: State, root: nat, zero: nat, regions: seq<Region>, v: Va)
    requires WindowOk(s, root, zero, regions) && InWindow(regions, v)
    ensures PageOk(s, root, zero, v) && NoBlock(s.mem, s.own, v) && ValidVa(v)
    ensures zero in s.data
  {
  }

  /** The current task's address space and the contents of the frames. */
  class Process {
    const tables: Tables
    const root: nat
    const zero: nat
    const regions: seq<Region>
    var data: map<nat, Page>
    ghost var own: Own

    ghost function Now(): State
      reads this, tables
    {
      State(tables.mem, own, tables.free, data)
    }

    constructor (tables: Tables, root: nat, zero: nat, regions: seq<Region>, data: map<nat, Page>, ghost own: Own)
      ensures this.tables == tables && this.root == root && this.zero == zero && this.regions == regions
      ensures this.data == data && this.own == own
    {
      this.tables, this.root, this.zero, this.regions, this.data, this.own := tables, root, zero, regions, data, own;
    }

    /** The first region over `page` that counts. */
    method FindRegion(page: nat, skip: bool) returns (k: Kind)
      ensures k == FirstKind(regions, page, skip)
      ensures forall i :: FirstOver(regions, page, skip, i) ==> k == regions[i].kind
      ensures (forall i :: 0 <= i < |regions| ==> !Over(regions[i], page, skip)) ==> k == NoRegion
    {
      hide FirstOver, Over;
      FirstKindIs(regions, page, skip);
      k := NoRegion;
      var i := 0;
      while i < |regions|
        invariant 0 <= i <= |regions| && FirstKind(regions, page, skip) == FirstKind(regions[i..], page, skip)
      {
        var r := regions[i];
        if Covers(r, page) && (skip ==> r.kind != NoRegion) {
          return r.kind;
        }
        assert regions[i..][1..] == regions[i + 1..];
        i := i + 1;
      }
    }

    method OpenUp(v: Va, k: Kind) returns (r: Outcome)
      requires tables.Space(own, root) && ValidVa(v) && (k != NoRegion ==> NoBlock(tables.mem, own, v))
      modifies this, tables
      ensures r == Declined <==> k == NoRegion
      ensures r == Declined ==> Now() == old(Now())
      ensures r == OutOfFrames ==> tables.free == {}
      ensures r == Repaired ==> tables.Space(own, root) && Effect(ByKind(k), v, EMPTY, zero, 0, root, old(Now()), Now())
    {
      hide Tree, Blocks, Moved, Remapped, Look, NoBlock;
      var ok := false;
      r := Declined;
      match k {
        case NoRegion =>
        case Stack =>
          Targets(PageOf(v));
          ok, own := tables.MapUserFrame(root, v, PageOf(v), USER_RWX, own);
          r := if ok then Repaired else OutOfFrames;
        case Demand =>
          Targets(zero);
          ok, own := tables.MapUserFrame(root, v, zero, USER_COW, own);
          r := if ok then Repaired else OutOfFrames;
      }
    }

    /** The page becomes a private copy of the frame it shares. */
    method CowSplit(v: Va, entry: Desc) returns (r: Outcome, ghost copy: nat)
      requires tables.Space(own, root) && ValidVa(v) && Walk(tables.mem, root, 0, v).Some? && entry.page in data
      modifies this`data, tables
      ensures r == Declined <==> old(tables.free) == {}
      ensures r == Declined ==> Now() == old(Now())
      ensures r != OutOfFrames
      ensures r == Repaired ==> tables.Space(own, root) && Copied(v, entry.page, copy, root, old(Now()), Now())
    {
      hide Tree, Blocks, Moved, Remapped, Look, Walk;
      var ok, f := tables.AllocFrame();
      copy := f;
      if !ok { return Declined, copy; }
      data := data[f := data[entry.page]];
      Targets(f);
      tables.WriteUserPage(root, v, PageDesc(f, USER_RWX), own);
      r := Repaired;
    }

    /** Decides about the fault at `v` and repairs it. */
    method Resolve(v: Va, fault: Fault) returns (r: Outcome, ghost copy: nat)
      requires tables.Space(own, root) && ValidVa(v)
      requires FirstKind(regions, PageOf(v), true) != NoRegion ==> NoBlock(tables.mem, own, v)
      requires FirstKind(regions, PageOf(v), false) != NoRegion ==> NoBlock(tables.mem, own, v)
      requires fault != Translation && IsCow(PageEntry(tables.mem, root, v)) ==>
          PageEntry(tables.mem, root, v).page in data
      modifies this, tables
      ensures var a := old(Decide(fault, regions, PageOf(v), PageEntry(tables.mem, root, v)));
        && (r == Declined <==> root == 0 || a == Decline || (a == Split && old(tables.free) == {}))
        && (r == Repaired ==>
           tables.Space(own, root)
               && Effect(a, v, old(PageEntry(tables.mem, root, v)), zero, copy, root, old(Now()), Now()))
      ensures r == Declined ==> Now() == old(Now())
      ensures r == OutOfFrames ==> tables.free == {} && fault != AccessFlag
      ensures r == OutOfFrames && fault == Permission ==> !old(IsCow(PageEntry(tables.mem, root, v)))
    {
      hide Tree, Blocks, Moved, Remapped, Look, NoBlock, Walk, PageEntry;
      copy := 0;
      r := Declined;
      if root == 0 { return; }
      var entry := tables.ReadUserPage(root, v, own);
      match fault {
        case NoFault =>
        case Translation =>
          var k := FindRegion(PageOf(v), true);
          r := OpenUp(v, k);
        case Permission =>
          if IsCow(entry) {
            EntryMeansWalk(tables.mem, root, v);
            r, copy := CowSplit(v, entry);
          } else {
            var k := FindRegion(PageOf(v), false);
            r := OpenUp(v, k);
          }
        case AccessFlag =>
          if IsCow(entry) {
            EntryMeansWalk(tables.mem, root, v);
            r, copy := CowSplit(v, entry);
          } else if Valid(entry) && entry.low & AF == 0 {
            EntryMeansWalk(tables.mem, root, v);
            tables.WriteUserPage(root, v, WithAf(entry), own);
            r := Repaired;
          }
      }
    }

    /** One fault, told by what the processor sees: the translation of `v` before and after. */
    method Settle(v: Va, write: bool) returns (r: Outcome, ghost copy: nat)
      requires tables.Space(own, root) && ValidVa(v) && root != 0 && NoBlock(tables.mem, own, v)
      requires Faults(Look(tables.mem, root, 0, v), write)
      requires Tagged(Look(tables.mem, root, 0, v)) ==> Look(tables.mem, root, 0, v).value.page in data
      modifies this, tables
      ensures Settled(old(Now()), Now(), root, zero, regions, v, r, copy)
      ensures r == Repaired ==> tables.Space(own, root)
    {
      hide Tree, Blocks, Moved, Remapped, Look, NoBlock, Walk, PageEntry, LeafTarget, Check, FirstKind;
      ghost var s := Now();
      LookEntry(tables.mem, own, root, v);
      ghost var entry := PageEntry(tables.mem, root, v);
      var t := Look(tables.mem, root, 0, v);
      FaultIs(t, write);
      EntryTells(entry);
      r, copy := Resolve(v, Check(t, write));
      DecideTells(s, Now(), root, zero, regions, v, write, entry, r, copy);
    }

    ghost predicate Good()
      reads this, tables
    {
      root != 0 && tables.Space(own, root) && WindowOk(Now(), root, zero, regions)
    }

    /** The instruction is tried again after every repair, until it goes through: after at
        most one call for a read and two for a write, unless frames run out. */
    method Try(v: Va, write: bool, ghost s0: State) returns (ok: bool, calls: nat)
      requires Good() && InWindow(regions, v) && Apart(s0, Now(), root, zero, regions)
      modifies this, tables
      ensures calls <= Rank(old(StageAt(Now(), root, zero, v)), write) <= if write then 2 else 1
      ensures ok ==>
          Good() && SameContents(old(Now()), Now(), root, zero, regions) && Apart(s0, Now(), root, zero, regions)
      ensures ok ==> Rank(StageAt(Now(), root, zero, v), write) == 0
      ensures !ok ==> tables.free == {}
    {
      hide Tree, Blocks, Look, InWindow, NoBlock, Moved, Remapped, FirstKind, Check, StageOf, PageEntry;
      calls, ok := 0, true;
      while Check(Look(tables.mem, root, 0, v), write) != NoFault
        invariant ok && Good() && SameContents(old(Now()), Now(), root, zero, regions)
            && Apart(s0, Now(), root, zero, regions)
        invariant calls + Rank(StageAt(Now(), root, zero, v), write) == Rank(old(StageAt(Now(), root, zero, v)), write)
        decreases Rank(StageAt(Now(), root, zero, v), write)
      {
        ghost var s := Now();
        ok := Round(v, write);
        calls := calls + 1;
        if !ok { return; }
        ApartThen(s0, s, Now(), root, zero, regions);
      }
      CheckStage(Look(tables.mem, root, 0, v), zero, write);
    }

    /** One fault and its repair. */
    method Round(v: Va, write: bool) returns (ok: bool)
      requires Good() && InWindow(regions, v) && Check(Look(tables.mem, root, 0, v), write) != NoFault
      modifies this, tables
      ensures ok ==> Good() && SameContents(old(Now()), Now(), root, zero, regions)
      ensures ok ==> Spared(old(Now()), Now()) && Privates(old(Now()), Now(), root, zero, regions)
      ensures old(Rank(StageAt(Now(), root, zero, v), write)) > 0
      ensures ok ==> Rank(StageAt(Now(), root, zero, v), write) + 1 == old(Rank(StageAt(Now(), root, zero, v), write))
      ensures !ok ==> tables.free == {}
    {
      hide Tree, Blocks, Look, InWindow, NoBlock, Moved, Remapped, FirstKind, Check, StageOf, PageEntry;
      ghost var s := Now();
      WindowPage(s, root, zero, regions, v);
      DecideWindow(s, root, zero, regions, v, write);
      var r, copy := Resolve(v, Check(Look(tables.mem, root, 0, v), write));
      ok := r == Repaired;
      if ok {
        if StageAt(s, root, zero, v) == Fresh {
          AliasKeeps(s, Now(), root, zero, regions, v);
          FreeShrinks(s, Now());
        } else {
          CowKeeps(s, Now(), root, zero, regions, v, copy);
        }
      }
    }

    method LoadByte(v: Va, off: nat, ghost s0: State) returns (ok: bool, b: byte, calls: nat)
      requires Good() && InWindow(regions, v) && off < 4096 && Apart(s0, Now(), root, zero, regions)
      modifies this, tables
      ensures calls <= 1
      ensures ok ==>
          Good() && SameContents(old(Now()), Now(), root, zero, regions) && Apart(s0, Now(), root, zero, regions)
      ensures ok ==> b == Contents(Now(), root, zero, v)[off]
      ensures !ok ==> tables.free == {}
    {
      hide Tree, Blocks, NoBlock, InWindow, StageAt;
      b := 0;
      ok, calls := Try(v, false, s0);
      if ok {
        WindowPage(Now(), root, zero, regions, v);
        var t := Look(tables.mem, root, 0, v);
        Ready(Now(), root, zero, v, false);
        b := data[t.value.page][off];
      }
    }

    method StoreByte(v: Va, off: nat, b: byte, ghost s0: State) returns (ok: bool, calls: nat)
      requires Good() && InWindow(regions, v) && off < 4096 && Apart(s0, Now(), root, zero, regions)
      modifies this, tables
      ensures calls <= 2
      ensures ok ==>
          Good() && Stored(old(Now()), Now(), root, zero, regions, v, off, b) && Apart(s0, Now(), root, zero, regions)
      ensures !ok ==> tables.free == {}
    {
      hide Tree, Blocks, NoBlock, InWindow, StageAt, Unshared, Contents;
      ok, calls := Try(v, true, s0);
      if ok {
        WindowPage(Now(), root, zero, regions, v);
        ghost var s := Now();
        var t := Look(tables.mem, root, 0, v);
        Ready(s, root, zero, v, true);
        hide Look;
        var f := t.value.page;
        data := data[f := data[f][off := b]];
        StoreKeeps(s, Now(), root, zero, regions, v, off, b);
        StoreApart(s0, s, Now(), root, zero, regions, v, f);
        StoredAfter(old(Now()), s, Now(), root, zero, regions, v, off, b);
      }
    }

    /** Any run of loads and stores in windows nobody stored to before sees memory that
        starts as zero and keeps what is stored, and no frame in use at the start changes. */
    method Drive(log: seq<Access>) returns (ok: bool, outs: seq<byte>)
      requires Good() && forall i :: 0 <= i < |log| ==> AccessOk(regions, log[i])
      requires forall w :: InWindow(regions, w) ==> !StageAt(Now(), root, zero, w).Private?
      modifies this, tables
      ensures ok ==> Good() && |outs| == |log| && Spared(old(Now()), Now())
      ensures ok ==> forall i :: 0 <= i < |log| && log[i].Load? ==> outs[i] == Last(log[..i], log[i].v, log[i].off)
      ensures !ok ==> tables.free == {}
    {
      hide Tree, Blocks, NoBlock, InWindow, StageAt, WindowOk, Shows, Look, SameContents, Stored;
      Blank(Now(), root, zero, regions);
      ok, outs := true, [];
      var i := 0;
      while i < |log|
        invariant 0 <= i <= |log| && ok && |outs| == i && Good() && Shows(Now(), root, zero, regions, log[..i])
        invariant Apart(old(Now()), Now(), root, zero, regions)
        invariant forall j :: 0 <= j < i && log[j].Load? ==> outs[j] == Last(log[..j], log[j].v, log[j].off)
      {
        ghost var s := Now();
        assert log[..i + 1] == log[..i] + [log[i]];
        assert AccessOk(regions, log[i]);
        var b, calls := 0, 0;
        match log[i] {
          case Load(v, off) =>
            ok, b, calls := LoadByte(v, off, old(Now()));
            if !ok { return; }
            LoadShows(s, Now(), root, zero, regions, log[..i], v, off);
            ShowsLoad(s, Now(), root, zero, regions, log[..i], log[i]);
          case Store(v, off, c) =>
            ok, calls := StoreByte(v, off, c, old(Now()));
            if !ok { return; }
            ShowsStore(s, Now(), root, zero, regions, log[..i], log[i]);
        }
        outs := outs + [b];
        i := i + 1;
      }
    }
  }
}
