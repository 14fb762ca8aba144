/** Four-level page tables as trees of frames, and what they translate. */
module PageTables {
  import opened Bytes

  // ── Descriptors ────────────────────────────────────────────────────────────

  /** A 64-bit descriptor by fields: bits 63..48, 47..12 (a frame number) and 11..0. */
  datatype Desc = Desc(high: bv16, page: nat, low: bv12)

  const VALID: bv12 := 0x001
  const TABLE: bv12 := 0x002 // at level 3 the same bit marks a page
  const AF: bv12 := 0x400
  const COW_TAG: bv12 := 0x800
  const XN: bv16 := 0x0060 // UXN (bit 54) and PXN (bit 53)

  /** A set of descriptor flags, a descriptor without address. */
  datatype Flags = Flags(high: bv16, low: bv12)

  const USER_RWX: Flags := Flags(0, 0x743)
  const USER_COW: Flags := Flags(0, 0xFC3)

  const EMPTY: Desc := Desc(0, 0, 0)

  predicate Valid(d: Desc) {
    d.low & VALID != 0
  }

  predicate IsTable(d: Desc) {
    d.low & VALID != 0 && d.low & TABLE != 0
  }

  predicate IsBlock(d: Desc) {
    d.low & VALID != 0 && d.low & TABLE == 0
  }

  function TableDesc(page: nat): Desc {
    Desc(0, page, VALID | TABLE)
  }

  function PageDesc(page: nat, flags: Flags): Desc {
    Desc(flags.high, page, flags.low)
  }

  // ── Tables and virtual pages ───────────────────────────────────────────────

  type Table = t: seq<Desc> | |t| == 512 witness seq(512, _ => EMPTY)
  type Mem = map<nat, Table>

  /** A virtual page, by its four table indices. */
  datatype Va = Va(i0: nat, i1: nat, i2: nat, i3: nat)

  predicate ValidVa(v: Va) {
    v.i0 < 512 && v.i1 < 512 && v.i2 < 512 && v.i3 < 512
  }

  function Index(v: Va, level: nat): nat
    requires level < 4
  {
    match level case 0 => v.i0 case 1 => v.i1 case 2 => v.i2 case 3 => v.i3
  }

  /** The page number with these indices. */
  function PageOf(v: Va): nat {
    ((v.i0 * 512 + v.i1) * 512 + v.i2) * 512 + v.i3
  }

  // ── Translation ────────────────────────────────────────────────────────────

  /** Where a virtual page goes, and with which attributes (the type bit is not one). */
  datatype Target = Target(page: nat, high: bv16, low: bv12)

  function LeafTarget(d: Desc): Option<Target> {
    if IsTable(d) then Some(Target(d.page, d.high, d.low & 0xFFD)) else None
  }

  function BlockTarget(d: Desc, i: nat): Option<Target> {
    Some(Target(d.page + i, d.high, d.low & 0xFFD))
  }

  /** The hardware walk from table `f` at `level`. */
  function Look(mem: Mem, f: nat, level: nat, v: Va): Option<Target>
    requires level < 4 && ValidVa(v)
    decreases 4 - level
  {
    if f !in mem then None
    else
      var d := mem[f][Index(v, level)];
      if level == 3 then LeafTarget(d)
      else if IsTable(d) then Look(mem, d.page, level + 1, v)
      else if IsBlock(d) && level == 2 then BlockTarget(d, v.i3)
      else None
  }

  // ── Trees ──────────────────────────────────────────────────────────────────

  /** The table indices leading to a frame. */
  type Path = seq<nat>
  type Own = map<nat, Path>

  function Prefix(v: Va, n: nat): (p: Path)
    requires n <= 4
    ensures |p| == n
  {
    [v.i0, v.i1, v.i2, v.i3][..n]
  }

  /** Levels 0 and 1 hold tables only; blocks occur at level 2. */
  predicate EntryOk(level: nat, d: Desc) {
    level < 2 && Valid(d) ==> IsTable(d)
  }

  ghost predicate HasParent(mem: Mem, own: Own, g: nat) {
    g in own && own[g] != [] && exists f :: f in own && Links(mem, own, f, g)
  }

  predicate Links(mem: Mem, own: Own, f: nat, g: nat) {
    && f in own && g in own && f in mem && own[g] != []
    && var i := own[g][|own[g]| - 1];
       && own[f] == own[g][..|own[g]| - 1] && i < 512
       && IsTable(mem[f][i]) && mem[f][i].page == g
  }

  ghost predicate Labels(mem: Mem, own: Own, base: Path) {
    forall f :: f in own ==> f in mem && base <= own[f] && |own[f]| <= 3
  }

  ghost predicate Entries(mem: Mem, own: Own) {
    forall f, i :: f in own && f in mem && 0 <= i < 512 ==> EntryOk(|own[f]|, mem[f][i])
  }

  ghost predicate Children(mem: Mem, own: Own) {
    forall f, i :: f in own && f in mem && 0 <= i < 512 && |own[f]| < 3 && IsTable(mem[f][i]) ==>
      mem[f][i].page in own && own[mem[f][i].page] == own[f] + [i]
  }

  ghost predicate Parents(mem: Mem, own: Own, root: nat) {
    forall g :: g in own && g != root ==> HasParent(mem, own, g)
  }

  ghost predicate Injective(own: Own) {
    forall f, g :: f in own && g in own && own[f] == own[g] ==> f == g
  }

  /** `own` labels exactly the table frames below `root` with their paths, and
      no frame occurs twice. */
  ghost predicate Tree(mem: Mem, own: Own, root: nat, base: Path) {
    && root in own && own[root] == base
    && Labels(mem, own, base) && Entries(mem, own) && Children(mem, own) && Parents(mem, own, root) && Injective(own)
  }

  /** `g` is a table the walk of `v` may meet. */
  predicate OnWalk(own: Own, v: Va, g: nat) {
    g in own && |own[g]| <= 3 && own[g] == Prefix(v, |own[g]|)
  }

  predicate SameEntry(mem: Mem, mem': Mem, own: Own, v: Va, g: nat) {
    && ValidVa(v) && g in own && |own[g]| <= 3 && g in mem && g in mem'
    && mem'[g][Index(v, |own[g]|)] == mem[g][Index(v, |own[g]|)]
  }

  /** A translation depends only on the entries its walk reads. */
  lemma {:induction false} LookAgree(mem: Mem, mem': Mem, own: Own, base: Path, f: nat, v: Va)
    requires Labels(mem, own, base) && Children(mem, own) && ValidVa(v) && OnWalk(own, v, f)
    requires forall g :: OnWalk(own, v, g) ==> SameEntry(mem, mem', own, v, g)
    ensures Look(mem', f, |own[f]|, v) == Look(mem, f, |own[f]|, v)
    decreases 4 - |own[f]|
  {
    var level := |own[f]|;
    var d := mem[f][Index(v, level)];
    assert SameEntry(mem, mem', own, v, f);
    if level < 3 && IsTable(d) {
      assert own[d.page] == own[f] + [Index(v, level)] == Prefix(v, level + 1);
      LookAgree(mem, mem', own, base, d.page, v);
    }
  }

  /** The table one level up. */
  lemma ParentOf(mem: Mem, own: Own, root: nat, base: Path, g: nat) returns (q: nat)
    requires Tree(mem, own, root, base) && g in own && g != root
    ensures Links(mem, own, q, g)
  {
    hide Children, Entries, Injective;
    assert HasParent(mem, own, g);
    q :| q in own && Links(mem, own, q, g);
  }

  /** The walk of `v` from the root passes every frame labelled with a part of `v`. */
  lemma {:induction false} LookThrough(mem: Mem, own: Own, root: nat, base: Path, g: nat, v: Va)
    requires Tree(mem, own, root, base) && ValidVa(v) && OnWalk(own, v, g)
    ensures |base| <= 3 && Look(mem, root, |base|, v) == Look(mem, g, |own[g]|, v)
    decreases |own[g]|
  {
    hide Tree;
    Parts(mem, own, root, base);
    if g != root {
      var f := ParentOf(mem, own, root, base, g);
      var n := |own[g]|;
      assert own[g][n - 1] == Index(v, n - 1);
      assert own[f] == Prefix(v, n - 1);
      LookThrough(mem, own, root, base, f, v);
    }
  }

  /** The frames of the tree are as they were. */
  ghost predicate Agree(mem: Mem, mem': Mem, own: Own) {
    forall g :: g in own ==> g in mem && g in mem' && mem'[g] == mem[g]
  }

  /** A tree and what it translates depend on nothing but its own frames. */
  lemma TreeElsewhere(mem: Mem, mem': Mem, own: Own, root: nat, base: Path)
    requires Tree(mem, own, root, base) && Agree(mem, mem', own)
    ensures Tree(mem', own, root, base)
  {
  }

  lemma LookElsewhere(mem: Mem, mem': Mem, own: Own, root: nat, base: Path, f: nat, v: Va)
    requires Tree(mem, own, root, base) && Agree(mem, mem', own) && ValidVa(v) && OnWalk(own, v, f)
    ensures Look(mem', f, |own[f]|, v) == Look(mem, f, |own[f]|, v)
  {
    hide Look, Tree;
    Parts(mem, own, root, base);
    LookAgree(mem, mem', own, base, f, v);
  }

  // ── Changing one entry ─────────────────────────────────────────────────────

  function SetEntry(mem: Mem, f: nat, i: nat, d: Desc): Mem
    requires f in mem && i < 512
  {
    mem[f := mem[f][i := d]]
  }

  /** Writing a level-3 entry changes the translation of that page and no other. */
  lemma SetLeaf(mem: Mem, own: Own, root: nat, f: nat, i: nat, d: Desc)
    requires Tree(mem, own, root, []) && f in own && |own[f]| == 3 && i < 512 && f in mem
    ensures Tree(SetEntry(mem, f, i, d), own, root, [])
    ensures forall v :: ValidVa(v) ==>
              Look(SetEntry(mem, f, i, d), root, 0, v)
              == if Prefix(v, 4) == own[f] + [i] then LeafTarget(d) else Look(mem, root, 0, v)
  {
    hide Tree, Look;
    SetPlain(mem, own, root, [], f, i, d);
    forall v | ValidVa(v)
      ensures Look(SetEntry(mem, f, i, d), root, 0, v)
              == if Prefix(v, 4) == own[f] + [i] then LeafTarget(d) else Look(mem, root, 0, v)
    {
      SetLeafAt(mem, own, root, f, i, d, v);
    }
  }

  lemma Parts(mem: Mem, own: Own, root: nat, base: Path)
    requires Tree(mem, own, root, base)
    ensures Labels(mem, own, base) && Children(mem, own) && root in own && own[root] == base
  {
  }

  lemma LookDown(mem: Mem, f: nat, level: nat, v: Va)
    requires f in mem && ValidVa(v) && level < 3 && IsTable(mem[f][Index(v, level)])
    ensures Look(mem, f, level, v) == Look(mem, mem[f][Index(v, level)].page, level + 1, v)
  {
  }

  lemma Child(mem: Mem, own: Own, root: nat, base: Path, f: nat, i: nat)
    requires Tree(mem, own, root, base) && f in own && f in mem && i < 512 && |own[f]| < 3 && IsTable(mem[f][i])
    ensures mem[f][i].page in own && own[mem[f][i].page] == own[f] + [i]
  {
  }

  lemma LookLeaf(mem: Mem, f: nat, v: Va)
    requires f in mem && ValidVa(v)
    ensures Look(mem, f, 3, v) == LeafTarget(mem[f][v.i3])
  {
  }

  lemma SetLeafAt(mem: Mem, own: Own, root: nat, f: nat, i: nat, d: Desc, v: Va)
    requires Tree(mem, own, root, []) && f in own && |own[f]| == 3 && i < 512 && f in mem && ValidVa(v)
    requires Tree(SetEntry(mem, f, i, d), own, root, [])
    ensures Look(SetEntry(mem, f, i, d), root, 0, v)
            == if Prefix(v, 4) == own[f] + [i] then LeafTarget(d) else Look(mem, root, 0, v)
  {
    hide Tree, Look, LeafTarget;
    assert Prefix(v, 4) == Prefix(v, 3) + [v.i3];
    SnocInjective(own[f], i, Prefix(v, 3), v.i3);
    if Prefix(v, 4) == own[f] + [i] {
      LookThrough(SetEntry(mem, f, i, d), own, root, [], f, v);
      LookLeaf(SetEntry(mem, f, i, d), f, v);
    } else {
      hide Prefix;
      SetLeafMiss(mem, SetEntry(mem, f, i, d), own, root, f, i, v);
    }
  }

  lemma SetLeafMiss(mem: Mem, mem': Mem, own: Own, root: nat, f: nat, i: nat, v: Va)
    requires Tree(mem, own, root, []) && f in own && |own[f]| == 3 && i < 512 && f in mem && ValidVa(v)
    requires f in mem' && mem' == mem[f := mem'[f]] && (forall j :: 0 <= j < 512 && j != i ==> mem'[f][j] == mem[f][j])
    requires own[f] != Prefix(v, 3) || i != v.i3
    ensures Look(mem', root, 0, v) == Look(mem, root, 0, v)
  {
    hide Tree, Children, Look;
    Parts(mem, own, root, []);
    LookAgree(mem, mem', own, [], root, v);
  }

  lemma SnocInjective(a: Path, i: nat, b: Path, j: nat)
    ensures a + [i] == b + [j] <==> a == b && i == j
  {
    assert (a + [i])[..|a|] == a && (b + [j])[..|b|] == b;
    assert (a + [i])[|a|] == i && (b + [j])[|b|] == j;
  }

  lemma PlainParents(mem: Mem, own: Own, root: nat, f: nat, i: nat, d: Desc)
    requires Parents(mem, own, root) && f in own && f in mem && i < 512
    requires !IsTable(mem[f][i]) || forall g :: g in own ==> |own[g]| <= |own[f]|
    ensures Parents(SetEntry(mem, f, i, d), own, root)
  {
  }

  lemma PlainChildren(mem: Mem, own: Own, base: Path, f: nat, i: nat, d: Desc)
    requires Labels(mem, own, base) && Entries(mem, own) && Children(mem, own) && f in own && f in mem && i < 512
    requires EntryOk(|own[f]|, d) && (|own[f]| == 3 || !IsTable(d))
    ensures var mem' := SetEntry(mem, f, i, d);
      Labels(mem', own, base) && Entries(mem', own) && Children(mem', own)
  {
  }

  /** Replacing an entry that leads to no table by another such entry. */
  lemma SetPlain(mem: Mem, own: Own, root: nat, base: Path, f: nat, i: nat, d: Desc)
    requires Tree(mem, own, root, base) && f in own && f in mem && i < 512
    requires |own[f]| == 3 || (!IsTable(mem[f][i]) && !IsTable(d) && EntryOk(|own[f]|, d))
    ensures Tree(SetEntry(mem, f, i, d), own, root, base)
  {
    assert EntryOk(|own[f]|, d);
    hide IsTable, EntryOk;
    assert |own[f]| == 3 ==> forall g :: g in own ==> |own[g]| <= |own[f]|;
    PlainParents(mem, own, root, f, i, d);
    PlainChildren(mem, own, base, f, i, d);
    hide Parents, Injective, Children, Entries, Labels;
  }

  /** Nothing lies below an entry that is no table. */
  lemma {:induction false} NoneBelow(mem: Mem, own: Own, root: nat, base: Path, f: nat, i: nat, g: nat)
    requires Tree(mem, own, root, base) && f in own && f in mem && i < 512 && g in own && own[f] + [i] <= own[g]
    ensures IsTable(mem[f][i])
    decreases |own[g]|
  {
    hide Children, Entries, Parents, Injective, IsTable;
    Parts(mem, own, root, base);
    if g != root {
      var q := ParentOf(mem, own, root, base, g);
      if own[g] == own[f] + [i] {
        assert own[q] == own[f];
        SameLabel(mem, own, root, base, q, f);
      } else {
        NoneBelow(mem, own, root, base, f, i, q);
      }
    }
  }

  lemma SameLabel(mem: Mem, own: Own, root: nat, base: Path, f: nat, g: nat)
    requires Tree(mem, own, root, base) && f in own && g in own && own[f] == own[g]
    ensures f == g
  {
  }

  // ── Grafting ───────────────────────────────────────────────────────────────

  /** The tree `sub` with root `c` now hangs under entry `i` of table `f`. */
  ghost predicate Grafted(mem: Mem, mem': Mem, own: Own, sub: Own, f: nat, i: nat, c: nat) {
    && f in own && f in mem && f in mem' && i < 512 && |own[f]| < 3 && own.Keys !! sub.Keys
    && Tree(mem', sub, c, own[f] + [i])
    && mem'[f] == mem[f][i := TableDesc(c)]
    && forall g :: g in own && g != f ==> g in mem && g in mem' && mem'[g] == mem[g]
  }

  lemma OldParent(mem: Mem, mem': Mem, own: Own, sub: Own, f: nat, i: nat, c: nat, g: nat)
    requires Grafted(mem, mem', own, sub, f, i, c) && HasParent(mem, own, g) && !IsTable(mem[f][i])
    ensures HasParent(mem', own + sub, g)
  {
  }

  lemma SubParent(mem: Mem, own: Own, sub: Own, g: nat)
    requires HasParent(mem, sub, g) && own.Keys !! sub.Keys
    ensures HasParent(mem, own + sub, g)
  {
  }

  lemma NewParent(mem: Mem, mem': Mem, own: Own, sub: Own, f: nat, i: nat, c: nat)
    requires Grafted(mem, mem', own, sub, f, i, c) && c in sub && sub[c] == own[f] + [i]
    ensures HasParent(mem', own + sub, c)
  {
  }

  lemma GraftParents(mem: Mem, mem': Mem, own: Own, sub: Own, root: nat, f: nat, i: nat, c: nat)
    requires Grafted(mem, mem', own, sub, f, i, c) && Parents(mem, own, root) && !IsTable(mem[f][i])
    ensures Parents(mem', own + sub, root)
  {
    assert Parents(mem', sub, c) && c in sub && sub[c] == own[f] + [i];
    assert own.Keys !! sub.Keys;
    hide Tree, IsTable, HasParent, Grafted;
    forall g | g in own + sub && g != root ensures HasParent(mem', own + sub, g) {
      if g == c {
        NewParent(mem, mem', own, sub, f, i, c);
      } else if g in own {
        OldParent(mem, mem', own, sub, f, i, c, g);
      } else {
        SubParent(mem', own, sub, g);
      }
    }
  }

  lemma GraftChildren(mem: Mem, mem': Mem, own: Own, sub: Own, base: Path, f: nat, i: nat, c: nat)
    requires Grafted(mem, mem', own, sub, f, i, c) && Labels(mem, own, base) && Children(mem, own) && Entries(mem, own)
    ensures Labels(mem', own + sub, base) && Children(mem', own + sub) && Entries(mem', own + sub)
  {
    hide Parents, Injective;
  }

  lemma GraftInjective(mem: Mem, mem': Mem, own: Own, sub: Own, root: nat, base: Path, f: nat, i: nat, c: nat)
    requires Tree(mem, own, root, base) && Grafted(mem, mem', own, sub, f, i, c) && !IsTable(mem[f][i])
    ensures Injective(own + sub)
  {
    assert Injective(own) && Injective(sub) && Labels(mem', sub, own[f] + [i]);
    forall g, h | g in own && h in sub ensures own[g] != sub[h] {
      hide Grafted, Tree;
      if own[g] == sub[h] {
        NoneBelow(mem, own, root, base, f, i, g);
      }
    }
  }

  /** Hanging a tree under an entry that was no table gives a tree ... */
  lemma Graft(mem: Mem, mem': Mem, own: Own, sub: Own, root: nat, base: Path, f: nat, i: nat, c: nat)
    requires Tree(mem, own, root, base) && Grafted(mem, mem', own, sub, f, i, c) && !IsTable(mem[f][i])
    ensures Tree(mem', own + sub, root, base)
  {
    GraftInjective(mem, mem', own, sub, root, base, f, i, c);
    GraftParents(mem, mem', own, sub, root, f, i, c);
    GraftChildren(mem, mem', own, sub, base, f, i, c);
    hide Injective, Parents, Children, Entries;
  }

  /** ... in which the pages under the entry are translated by the new part ... */
  lemma GraftInside(mem: Mem, mem': Mem, own: Own, sub: Own, root: nat, base: Path, f: nat, i: nat, c: nat, v: Va)
    requires Tree(mem', own + sub, root, base) && Grafted(mem, mem', own, sub, f, i, c)
    requires ValidVa(v) && Prefix(v, |own[f]| + 1) == own[f] + [i]
    ensures |base| <= 3 && Look(mem', root, |base|, v) == Look(mem', c, |own[f]| + 1, v)
  {
    assert c in sub && sub[c] == own[f] + [i];
    hide Grafted, Tree, Look;
    LookThrough(mem', own + sub, root, base, c, v);
  }

  /** ... and all others as before. */
  lemma PrefixStep(v: Va, n: nat)
    requires n < 3
    ensures Prefix(v, 0) == [] && Prefix(v, n + 1) == Prefix(v, n) + [Index(v, n)]
  {
  }

  lemma GraftOutside(mem: Mem, mem': Mem, own: Own, sub: Own, root: nat, base: Path, f: nat, i: nat, c: nat, v: Va)
    requires Tree(mem, own, root, base) && Grafted(mem, mem', own, sub, f, i, c)
    requires ValidVa(v) && |base| <= 3 && base == Prefix(v, |base|) && Prefix(v, |own[f]| + 1) != own[f] + [i]
    ensures Look(mem', root, |base|, v) == Look(mem, root, |base|, v)
  {
    hide Tree, Look, Children, IsTable, Prefix;
    var n := |own[f]|;
    Parts(mem, own, root, base);
    PrefixStep(v, n);
    SnocInjective(own[f], i, Prefix(v, n), Index(v, n));
    LookAgree(mem, mem', own, base, root, v);
  }

  /** `t` may stand at this level as a table without children. */
  ghost predicate Childless(level: nat, t: Table) {
    forall j :: 0 <= j < 512 ==> EntryOk(level, t[j]) && (level < 3 ==> !IsTable(t[j]))
  }

  /** The frame `c` was taken for a table `t` under entry `i` of `f`. */
  ghost predicate NewTable(mem: Mem, mem': Mem, own: Own, own': Own, f: nat, i: nat, c: nat, t: Table) {
    && f in own && f in mem && f != c && c !in own && i < 512 && |own[f]| < 3
    && own' == own[c := own[f] + [i]] && mem' == SetEntry(mem[c := t], f, i, TableDesc(c))
  }

  lemma NewTableGrafted(mem: Mem, mem': Mem, own: Own, own': Own, root: nat, f: nat, i: nat, c: nat, t: Table)
    requires Tree(mem, own, root, []) && NewTable(mem, mem', own, own', f, i, c, t) && Childless(|own[f]| + 1, t)
    ensures var sub := map[c := own[f] + [i]]; Grafted(mem, mem', own, sub, f, i, c) && own' == own + sub
  {
    hide Parents, Children, Entries, Injective;
    assert Labels(mem, own, []);
    Singleton(mem', c, own[f] + [i], t);
    hide Tree;
  }

  lemma Singleton(mem: Mem, c: nat, path: Path, t: Table)
    requires c in mem && mem[c] == t && |path| <= 3 && Childless(|path|, t)
    ensures Tree(mem, map[c := path], c, path)
  {
  }

  // ── Effects on a whole tree ────────────────────────────────────────────────

  ghost predicate SameView(mem: Mem, mem': Mem, root: nat) {
    forall v :: ValidVa(v) ==> Look(mem', root, 0, v) == Look(mem, root, 0, v)
  }

  /** Virtual page `a` now has translation `t`, every other the one it had. */
  ghost predicate Remapped(mem: Mem, mem': Mem, root: nat, a: Va, t: Option<Target>) {
    forall v :: ValidVa(v) ==> Look(mem', root, 0, v) == if v == a then t else Look(mem, root, 0, v)
  }

  /** Every block of the tree maps its 2 MiB to themselves, and has no high
      attribute besides UXN and PXN. */
  ghost predicate Blocks(mem: Mem, own: Own) {
    forall f, i :: f in own && f in mem && 0 <= i < 512 && |own[f]| == 2 && IsBlock(mem[f][i]) ==>
      IdentityBlock(mem[f][i], (own[f][0] * 512 + own[f][1]) * 512 + i)
  }

  predicate IdentityBlock(d: Desc, block: nat) {
    d.page == block * 512 && d.high & XN == d.high
  }

  /** The only blocks in the new tree are blocks of the old one. */
  ghost predicate BlocksFrom(mem: Mem, mem': Mem, own: Own, own': Own) {
    forall g, j :: g in own' && g in mem' && 0 <= j < 512 && |own'[g]| == 2 && IsBlock(mem'[g][j]) ==>
      g in own && g in mem && own[g] == own'[g] && mem[g][j] == mem'[g][j]
  }

  /** The frames of the tree come from itself and the free frames, none is lost,
      no block is new, and nothing else changed. */
  ghost predicate Moved(mem: Mem, mem': Mem, own: Own, own': Own, free: set<nat>, free': set<nat>) {
    && (forall g :: g in own ==> g in own' && own'[g] == own[g])
    && own'.Keys + free' == own.Keys + free
    && (forall g :: g in mem ==> g in mem')
    && (forall g :: g in mem && g !in own && g !in free ==> mem'[g] == mem[g])
    && BlocksFrom(mem, mem', own, own')
  }

  /** A table of zeros. */
  function Zero(): (t: Table)
    ensures forall j :: 0 <= j < 512 ==> t[j] == EMPTY
  {
    seq(512, _ => EMPTY)
  }

  /** An empty table under an empty entry changes no translation. */
  lemma AddEmpty(mem: Mem, mem': Mem, own: Own, own': Own, root: nat, f: nat, i: nat, c: nat)
    requires Tree(mem, own, root, []) && NewTable(mem, mem', own, own', f, i, c, Zero()) && !Valid(mem[f][i])
    ensures Tree(mem', own', root, []) && SameView(mem, mem', root)
  {
    var sub := map[c := own[f] + [i]];
    hide Tree, Look, Grafted;
    NewTableGrafted(mem, mem', own, own', root, f, i, c, Zero());
    Graft(mem, mem', own, sub, root, [], f, i, c);
    forall v | ValidVa(v) ensures Look(mem', root, 0, v) == Look(mem, root, 0, v) {
      AddEmptyAt(mem, mem', own, own', root, f, i, c, v);
    }
  }

  lemma AddEmptyAt(mem: Mem, mem': Mem, own: Own, own': Own, root: nat, f: nat, i: nat, c: nat, v: Va)
    requires Tree(mem, own, root, []) && Tree(mem', own', root, []) && NewTable(mem, mem', own, own', f, i, c, Zero())
    requires !Valid(mem[f][i]) && ValidVa(v)
    ensures Look(mem', root, 0, v) == Look(mem, root, 0, v)
  {
    hide Tree, Grafted;
    var n, sub := |own[f]|, map[c := own[f] + [i]];
    NewTableGrafted(mem, mem', own, own', root, f, i, c, Zero());
    if Prefix(v, n + 1) == own[f] + [i] {
      assert Prefix(v, n + 1) == Prefix(v, n) + [Index(v, n)];
      SnocInjective(own[f], i, Prefix(v, n), Index(v, n));
      GraftInside(mem, mem', own, sub, root, [], f, i, c, v);
      LookThrough(mem, own, root, [], f, v);
    } else {
      hide Look;
      GraftOutside(mem, mem', own, sub, root, [], f, i, c, v);
    }
  }

  // ── Splitting a block ──────────────────────────────────────────────────────

  /** The attributes a split hands to the pages of block `d`. */
  function FillFlags(d: Desc): Flags {
    Flags(d.high & XN, d.low | TABLE)
  }

  /** Table `t` is what a split writes for block `d`, with `first` the first page of
      the 2 MiB around the requested address. */
  ghost predicate IsSplit(t: Table, d: Desc, first: nat) {
    forall i :: 0 <= i < 512 ==> t[i] == PageDesc(first + i, FillFlags(d))
  }

  /** Splitting keeps every translation of the block exactly when the block maps
      the 2 MiB to themselves and has no other high attribute. */
  lemma SplitKeeps(t: Table, d: Desc, first: nat)
    requires IsBlock(d) && IsSplit(t, d, first)
    ensures (forall i :: 0 <= i < 512 ==> LeafTarget(t[i]) == BlockTarget(d, i))
       <==> d.page == first && d.high & XN == d.high
  {
    hide LeafTarget, BlockTarget, FillFlags, IsBlock, IsSplit;
    SplitAt(t, d, first, 0);
    if d.page == first && d.high & XN == d.high {
      forall i | 0 <= i < 512 ensures LeafTarget(t[i]) == BlockTarget(d, i) {
        SplitAt(t, d, first, i);
      }
    }
  }

  lemma SplitAt(t: Table, d: Desc, first: nat, i: nat)
    requires IsBlock(d) && IsSplit(t, d, first) && i < 512
    ensures LeafTarget(t[i]) == BlockTarget(d, i) <==> d.page == first && d.high & XN == d.high
  {
    hide LeafTarget, FillFlags, IsBlock;
    assert t[i] == PageDesc(first + i, FillFlags(d));
    SplitEntry(d, first + i);
  }

  /** A block at page 512 that maps the 2 MiB from page 1024 on: after the split its first page
      goes to page 512. */
  lemma SplitMoves(t: Table)
    requires IsSplit(t, Desc(0, 1024, 0x401), 512)
    ensures IsBlock(Desc(0, 1024, 0x401)) && BlockTarget(Desc(0, 1024, 0x401), 0) == Some(Target(1024, 0, 0x401))
    ensures LeafTarget(t[0]) == Some(Target(512, 0, 0x401))
  {
    SplitEntry(Desc(0, 1024, 0x401), 512);
    assert t[0] == PageDesc(512 + 0, FillFlags(Desc(0, 1024, 0x401)));
  }

  lemma SplitEntry(d: Desc, page: nat)
    requires IsBlock(d)
    ensures LeafTarget(PageDesc(page, FillFlags(d))) == Some(Target(page, d.high & XN, d.low & 0xFFD))
  {
  }

  lemma AddSplit(mem: Mem, mem': Mem, own: Own, own': Own, root: nat, f: nat, i: nat, c: nat, t: Table)
    requires Tree(mem, own, root, []) && NewTable(mem, mem', own, own', f, i, c, t)
    requires |own[f]| == 2 && IsBlock(mem[f][i]) && IsSplit(t, mem[f][i], mem[f][i].page)
        && mem[f][i].high & XN == mem[f][i].high
    ensures SameView(mem, mem', root)
  {
    var sub := map[c := own[f] + [i]];
    hide Tree, Look, Grafted;
    NewTableGrafted(mem, mem', own, own', root, f, i, c, t);
    Graft(mem, mem', own, sub, root, [], f, i, c);
    hide NewTable;
    forall v | ValidVa(v) ensures Look(mem', root, 0, v) == Look(mem, root, 0, v) {
      AddSplitAt(mem, mem', own, own', root, f, i, c, t, v);
    }
  }

  lemma AddSplitAt(mem: Mem, mem': Mem, own: Own, own': Own, root: nat, f: nat, i: nat, c: nat, t: Table, v: Va)
    requires Tree(mem, own, root, []) && Tree(mem', own', root, []) && NewTable(mem, mem', own, own', f, i, c, t)
    requires |own[f]| == 2 && IsBlock(mem[f][i]) && IsSplit(t, mem[f][i], mem[f][i].page)
        && mem[f][i].high & XN == mem[f][i].high
    requires ValidVa(v)
    ensures Look(mem', root, 0, v) == Look(mem, root, 0, v)
  {
    hide Tree, Grafted;
    var sub := map[c := own[f] + [i]];
    NewTableGrafted(mem, mem', own, own', root, f, i, c, t);
    if Prefix(v, 3) == own[f] + [i] {
      assert Prefix(v, 3) == Prefix(v, 2) + [v.i2];
      SnocInjective(own[f], i, Prefix(v, 2), v.i2);
      GraftInside(mem, mem', own, sub, root, [], f, i, c, v);
      LookThrough(mem, own, root, [], f, v);
      SplitKeeps(t, mem[f][i], mem[f][i].page);
    } else {
      hide Look;
      GraftOutside(mem, mem', own, sub, root, [], f, i, c, v);
    }
  }
}
