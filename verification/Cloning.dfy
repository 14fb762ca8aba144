/** Copying a page-table tree: the state between two entries of one table. */
module Cloning {
  import opened Bytes
  import opened PageTables

  /** Memory in which the entries of `dst` from `n` on, not written yet, are empty. */
  ghost function View(mem: Mem, dst: nat, n: nat): Mem
    requires dst in mem && n <= 512
  {
    mem[dst := mem[dst][..n] + Zero()[n..]]
  }

  ghost predicate Below(v: Va, p: Path) {
    ValidVa(v) && |p| <= 3 && p == Prefix(v, |p|)
  }

  /** The first `n` entries of `dst` translate as those of `src` did, the others not at all. */
  ghost predicate SameBelow(mem0: Mem, mem: Mem, src: nat, dst: nat, p: Path, n: nat) {
    forall v :: Below(v, p) ==>
      Look(mem, dst, |p|, v) == if Index(v, |p|) < n then Look(mem0, src, |p|, v) else None
  }

  /** The frames of `copy` came from the free ones, and nothing else changed. */
  ghost predicate Taken(mem0: Mem, mem: Mem, copy: Own, free0: set<nat>, free: set<nat>) {
    && copy.Keys + free == free0 && copy.Keys !! free
    && forall g :: g in mem0 ==> g in mem && (g !in free0 ==> mem[g] == mem0[g])
  }

  /** `n` entries of the table at `p` are copied. */
  ghost predicate Copied(mem0: Mem, mem: Mem, own: Own, src: nat, copy: Own, dst: nat, n: nat, free0: set<nat>,
        free: set<nat>) {
    && src in own && dst in mem && n <= 512 && |own[src]| <= 3
    && Tree(View(mem, dst, n), copy, dst, own[src]) && Blocks(View(mem, dst, n), copy)
    && SameBelow(mem0, View(mem, dst, n), src, dst, own[src], n)
    && Taken(mem0, mem, copy, free0, free)
  }

  lemma CopyStart(mem0: Mem, mem: Mem, own: Own, src: nat, dst: nat, free0: set<nat>)
    requires src in own && |own[src]| <= 3 && dst in free0 && dst in mem && mem == mem0[dst := mem[dst]]
    ensures Copied(mem0, mem, own, src, map[dst := own[src]], dst, 0, free0, free0 - {dst})
  {
  }

  lemma CopyDone(mem0: Mem, mem: Mem, own: Own, src: nat, copy: Own, dst: nat, free0: set<nat>, free: set<nat>)
    requires Copied(mem0, mem, own, src, copy, dst, 512, free0, free)
    ensures View(mem, dst, 512) == mem
  {
    assert mem[dst][..512] + Zero()[512..] == mem[dst];
  }

  lemma ViewStep(mem: Mem, dst: nat, n: nat, d: Desc)
    requires dst in mem && n < 512
    ensures View(SetEntry(mem, dst, n, d), dst, n + 1) == SetEntry(View(mem, dst, n), dst, n, d)
    ensures dst in View(mem, dst, n) && View(mem, dst, n)[dst][n] == EMPTY
  {
    var t := mem[dst];
    assert t[n := d][..n + 1] + Zero()[n + 1..] == (t[..n] + Zero()[n..])[n := d];
  }

  /** Writing entry `n` of the unfinished root changes what goes through it only. */
  lemma SetRoot(mem: Mem, own: Own, root: nat, p: Path, n: nat, d: Desc, v: Va)
    requires Tree(mem, own, root, p) && root in mem && n < 512 && Below(v, p) && Index(v, |p|) != n
    ensures Look(SetEntry(mem, root, n, d), root, |p|, v) == Look(mem, root, |p|, v)
  {
    var mem' := SetEntry(mem, root, n, d);
    hide Look, Children, Entries, Parents;
    Parts(mem, own, root, p);
    forall g | OnWalk(own, v, g) ensures SameEntry(mem, mem', own, v, g) {
    }
    hide Tree;
    LookAgree(mem, mem', own, p, root, v);
  }

  lemma PlainLook(mem0: Mem, mem: Mem, src: nat, dst: nat, level: nat, v: Va)
    requires src in mem0 && dst in mem && level <= 3 && ValidVa(v)
    requires mem[dst][Index(v, level)] == mem0[src][Index(v, level)]
    requires level == 3 || !IsTable(mem0[src][Index(v, level)])
    ensures Look(mem, dst, level, v) == Look(mem0, src, level, v)
  {
  }

  lemma Entry(mem: Mem, own: Own, root: nat, base: Path, f: nat, i: nat)
    requires Tree(mem, own, root, base) && f in own && f in mem && i < 512
    ensures EntryOk(|own[f]|, mem[f][i])
  {
  }

  lemma PlainBlocks(mem0: Mem, own: Own, src: nat, view: Mem, copy: Own, dst: nat, n: nat)
    requires Blocks(mem0, own) && src in own && src in mem0 && n < 512
    requires Blocks(view, copy) && dst in view && dst in copy && copy[dst] == own[src]
    ensures Blocks(SetEntry(view, dst, n, mem0[src][n]), copy)
  {
  }

  lemma PlainSame(mem0: Mem, view: Mem, own: Own, copy: Own, src: nat, dst: nat, p: Path, n: nat)
    requires Tree(view, copy, dst, p) && dst in view && src in mem0 && n < 512 && |p| <= 3
    requires |p| == 3 || !IsTable(mem0[src][n])
    requires SameBelow(mem0, view, src, dst, p, n)
    ensures SameBelow(mem0, SetEntry(view, dst, n, mem0[src][n]), src, dst, p, n + 1)
  {
    var view1 := SetEntry(view, dst, n, mem0[src][n]);
    hide Tree, Look, IsTable;
    forall v | Below(v, p)
      ensures Look(view1, dst, |p|, v) == if Index(v, |p|) < n + 1 then Look(mem0, src, |p|, v) else None
    {
      if Index(v, |p|) == n {
        PlainLook(mem0, view1, src, dst, |p|, v);
      } else {
        SetRoot(view, copy, dst, p, n, mem0[src][n], v);
      }
    }
  }

  /** A descriptor that leads to no table is copied as it is. */
  lemma CopiedRoot(view: Mem, copy: Own, dst: nat, p: Path)
    requires Tree(view, copy, dst, p)
    ensures dst in copy && copy[dst] == p && dst in view
  {
    hide Tree, Children;
    Parts(view, copy, dst, p);
  }

  lemma TakenEntry(mem0: Mem, mem: Mem, copy: Own, dst: nat, n: nat, d: Desc, free0: set<nat>, free: set<nat>)
    requires Taken(mem0, mem, copy, free0, free) && dst in copy && dst in mem && n < 512
    ensures Taken(mem0, SetEntry(mem, dst, n, d), copy, free0, free)
  {
  }

  lemma CopyPlain(mem0: Mem, mem: Mem, own: Own, root: nat, src: nat, copy: Own, dst: nat, n: nat, free0: set<nat>,
        free: set<nat>)
    requires Tree(mem0, own, root, []) && Blocks(mem0, own) && src in mem0 && own.Keys !! free0
    requires Copied(mem0, mem, own, src, copy, dst, n, free0, free) && n < 512
    requires |own[src]| == 3 || !IsTable(mem0[src][n])
    ensures Copied(mem0, SetEntry(mem, dst, n, mem0[src][n]), own, src, copy, dst, n + 1, free0, free)
  {
    hide View, Tree, Look, Labels, Children, EntryOk, Blocks, SameBelow, Taken;
    var d, p := mem0[src][n], own[src];
    var mem1 := SetEntry(mem, dst, n, d);
    var view, view1 := View(mem, dst, n), View(mem1, dst, n + 1);
    CopiedRoot(view, copy, dst, p);
    TakenEntry(mem0, mem, copy, dst, n, d, free0, free);
    ViewStep(mem, dst, n, d);
    Entry(mem0, own, root, [], src, n);
    SetPlain(view, copy, dst, p, dst, n, d);
    PlainBlocks(mem0, own, src, view, copy, dst, n);
    PlainSame(mem0, view, own, copy, src, dst, p, n);
  }

  // ── A copied child ─────────────────────────────────────────────────────────

  lemma CopiedFrames(mem: Mem, copy: Own, dst: nat, n: nat, p: Path)
    requires dst in mem && n <= 512 && Tree(View(mem, dst, n), copy, dst, p)
    ensures dst in copy && forall g :: g in copy ==> g in mem
  {
    hide Tree, Children;
    Parts(View(mem, dst, n), copy, dst, p);
  }

  lemma TakenApart(mem0: Mem, mem1: Mem, mem2: Mem, copy: Own, sub: Own, dst: nat, n: nat, free0: set<nat>,
                   free1: set<nat>, free2: set<nat>)
    requires dst in copy && n <= 512 && Taken(mem0, mem1, copy, free0, free1) && Taken(mem1, mem2, sub, free1, free2)
    requires forall g :: g in copy ==> g in mem1
    ensures copy.Keys !! sub.Keys && dst in mem2 && Agree(View(mem1, dst, n), View(mem2, dst, n), copy)
    ensures Taken(mem0, mem2, copy + sub, free0, free2)
  {
  }

  /** Copying the child did not touch what was copied before. */
  lemma ChildApart(mem0: Mem, mem1: Mem, mem2: Mem, own: Own, src: nat, child: nat, copy: Own, sub: Own,
                   dst: nat, c: nat, n: nat, free0: set<nat>, free1: set<nat>, free2: set<nat>)
    requires Copied(mem0, mem1, own, src, copy, dst, n, free0, free1)
        && Copied(mem1, mem2, own, child, sub, c, 512, free1, free2)
    ensures dst in copy && copy.Keys !! sub.Keys && dst in mem2
    ensures Agree(View(mem1, dst, n), View(mem2, dst, n), copy)
    ensures Taken(mem0, mem2, copy + sub, free0, free2)
  {
    hide Tree, Blocks, SameBelow, View, Taken, Agree;
    CopiedFrames(mem1, copy, dst, n, own[src]);
    TakenApart(mem0, mem1, mem2, copy, sub, dst, n, free0, free1, free2);
  }

  lemma SameElsewhere(mem0: Mem, view: Mem, view': Mem, copy: Own, src: nat, dst: nat, p: Path, n: nat)
    requires Tree(view, copy, dst, p) && Agree(view, view', copy) && |p| <= 3 && SameBelow(mem0, view, src, dst, p, n)
    ensures SameBelow(mem0, view', src, dst, p, n)
  {
    Parts(view, copy, dst, p);
    hide Tree, Look, Children, Labels, Agree;
    forall v | Below(v, p) ensures Look(view', dst, |p|, v) == Look(view, dst, |p|, v) {
      LookElsewhere(view, view', copy, dst, p, dst, v);
    }
  }

  lemma BlocksElsewhere(mem: Mem, mem': Mem, own: Own)
    requires Blocks(mem, own) && Agree(mem, mem', own)
    ensures Blocks(mem', own)
  {
  }

  lemma BlocksJoin(mem: Mem, mem': Mem, own: Own, sub: Own, f: nat, i: nat, c: nat)
    requires Blocks(mem, own) && Blocks(mem', sub) && Grafted(mem, mem', own, sub, f, i, c)
    ensures Blocks(mem', own + sub)
  {
  }

  lemma PrefixSnoc(v: Va, p: Path)
    requires Below(v, p) && |p| < 3
    ensures Below(v, p + [Index(v, |p|)])
  {
  }

  lemma SameAt(mem0: Mem, mem: Mem, src: nat, dst: nat, p: Path, v: Va)
    requires SameBelow(mem0, mem, src, dst, p, 512) && Below(v, p)
    ensures Look(mem, dst, |p|, v) == Look(mem0, src, |p|, v)
  {
  }

  /** Below the new entry the copy translates as the source does there. */
  lemma ChildLook(mem0: Mem, mem1: Mem, mem2: Mem, view: Mem, view': Mem, own: Own, copy: Own, sub: Own, src: nat,
        root: nat,
                  dst: nat, n: nat, c: nat, v: Va)
    requires Tree(mem0, own, root, []) && src in own && src in mem0 && |own[src]| < 3 && n < 512
        && IsTable(mem0[src][n])
    requires Agree(mem0, mem1, own) && Tree(view', copy + sub, dst, own[src])
        && Grafted(view, view', copy, sub, dst, n, c)
    requires copy[dst] == own[src] && Agree(mem2, view', sub) && Tree(mem2, sub, c, own[src] + [n])
    requires SameBelow(mem1, mem2, mem0[src][n].page, c, own[src] + [n], 512)
    requires Below(v, own[src]) && Index(v, |own[src]|) == n
    ensures Look(view', dst, |own[src]|, v) == Look(mem0, src, |own[src]|, v)
  {
    var p, child := own[src], mem0[src][n].page;
    hide Tree, Labels, Children, Agree, Look, IsTable, SameBelow, Grafted;
    PrefixSnoc(v, p);
    Child(mem0, own, root, [], src, n);
    LookDown(mem0, src, |p|, v);
    GraftInside(view, view', copy, sub, dst, p, dst, n, c, v);
    Parts(mem2, sub, c, p + [n]);
    LookElsewhere(mem2, view', sub, c, p + [n], c, v);
    LookElsewhere(mem0, mem1, own, root, [], child, v);
    SameAt(mem1, mem2, child, c, p + [n], v);
  }

  lemma SubApart(mem: Mem, mem': Mem, sub: Own, c: nat, base: Path, dst: nat)
    requires Tree(mem, sub, c, base) && dst !in sub && dst in mem' && mem' == mem[dst := mem'[dst]]
    ensures Agree(mem, mem', sub) && Tree(mem', sub, c, base)
  {
  }

  /** The graft of the child's copy, as a whole. */
  lemma ChildGrafted(mem2: Mem, view: Mem, view': Mem, copy: Own, sub: Own, dst: nat, n: nat, c: nat, p: Path)
    requires Tree(view, copy, dst, p) && Tree(mem2, sub, c, p + [n]) && copy.Keys !! sub.Keys && |p| < 3
    requires n < 512 && dst in mem2 && dst in view && view == mem2[dst := view[dst]] && dst in copy
    requires view' == SetEntry(view, dst, n, TableDesc(c))
    ensures Grafted(view, view', copy, sub, dst, n, c) && Agree(mem2, view', sub)
  {
    hide Tree, Children, TableDesc, Agree;
    assert view' == mem2[dst := view'[dst]];
    SubApart(mem2, view', sub, c, p + [n], dst);
    Parts(view, copy, dst, p);
  }

  lemma ChildSame(mem0: Mem, mem1: Mem, mem2: Mem, view: Mem, view': Mem, own: Own, copy: Own, sub: Own, src: nat,
        root: nat,
                  dst: nat, n: nat, c: nat)
    requires Tree(mem0, own, root, []) && src in own && src in mem0 && |own[src]| < 3 && n < 512
        && IsTable(mem0[src][n])
    requires Agree(mem0, mem1, own) && Tree(view', copy + sub, dst, own[src])
        && Grafted(view, view', copy, sub, dst, n, c)
    requires copy[dst] == own[src] && Agree(mem2, view', sub) && Tree(mem2, sub, c, own[src] + [n])
    requires SameBelow(mem1, mem2, mem0[src][n].page, c, own[src] + [n], 512)
    requires Tree(view, copy, dst, own[src]) && SameBelow(mem0, view, src, dst, own[src], n)
    ensures SameBelow(mem0, view', src, dst, own[src], n + 1)
  {
    var p := own[src];
    hide Tree, Look, Agree, IsTable, Grafted;
    forall v | Below(v, p)
      ensures Look(view', dst, |p|, v) == if Index(v, |p|) < n + 1 then Look(mem0, src, |p|, v) else None
    {
      if Index(v, |p|) == n {
        ChildLook(mem0, mem1, mem2, view, view', own, copy, sub, src, root, dst, n, c, v);
      } else {
        PrefixOther(v, p, n);
        GraftOutside(view, view', copy, sub, dst, p, dst, n, c, v);
      }
    }
  }

  lemma PrefixOther(v: Va, p: Path, n: nat)
    requires Below(v, p) && |p| < 3 && Index(v, |p|) != n
    ensures Prefix(v, |p| + 1) != p + [n]
  {
    assert Prefix(v, |p| + 1)[|p|] == Index(v, |p|);
  }

  lemma SourceStays(mem0: Mem, mem: Mem, own: Own, root: nat, copy: Own, free0: set<nat>, free: set<nat>)
    requires Tree(mem0, own, root, []) && own.Keys !! free0 && Taken(mem0, mem, copy, free0, free)
    ensures Agree(mem0, mem, own)
  {
  }

  lemma TakenStill(mem0: Mem, mem: Mem, copy: Own, free0: set<nat>, free: set<nat>, dst: nat, mem': Mem)
    requires Taken(mem0, mem, copy, free0, free) && dst in copy && dst in mem && dst in mem'
        && mem' == mem[dst := mem'[dst]]
    ensures Taken(mem0, mem', copy, free0, free)
  {
  }

  lemma CopyChildView(mem0: Mem, mem1: Mem, mem2: Mem, view: Mem, own: Own, root: nat, src: nat, copy: Own, sub: Own,
                      dst: nat, c: nat, n: nat)
    requires Tree(mem0, own, root, []) && src in own && src in mem0 && |own[src]| < 3 && n < 512
        && IsTable(mem0[src][n])
    requires Agree(mem0, mem1, own) && copy.Keys !! sub.Keys && dst in copy && copy[dst] == own[src]
    requires Tree(view, copy, dst, own[src]) && Blocks(view, copy) && SameBelow(mem0, view, src, dst, own[src], n)
    requires Tree(mem2, sub, c, own[src] + [n]) && Blocks(mem2, sub)
    requires SameBelow(mem1, mem2, mem0[src][n].page, c, own[src] + [n], 512)
    requires dst in mem2 && dst in view && view.Keys == mem2.Keys && view == mem2[dst := view[dst]]
        && view[dst][n] == EMPTY
    ensures var view' := SetEntry(view, dst, n, TableDesc(c));
      Tree(view', copy + sub, dst, own[src]) && Blocks(view', copy + sub)
          && SameBelow(mem0, view', src, dst, own[src], n + 1)
  {
    var p := own[src];
    var view' := SetEntry(view, dst, n, TableDesc(c));
    assert !IsTable(view[dst][n]);
    hide Tree, Blocks, SameBelow, Agree, Grafted, TableDesc, IsTable, Look;
    ChildGrafted(mem2, view, view', copy, sub, dst, n, c, p);
    Graft(view, view', copy, sub, dst, p, dst, n, c);
    BlocksElsewhere(mem2, view', sub);
    BlocksJoin(view, view', copy, sub, dst, n, c);
    ChildSame(mem0, mem1, mem2, view, view', own, copy, sub, src, root, dst, n, c);
  }

  /** A table descriptor is copied by copying the table below it. */
  lemma CopyChild(mem0: Mem, mem1: Mem, mem2: Mem, own: Own, root: nat, src: nat, copy: Own, sub: Own, dst: nat,
        c: nat, n: nat,
                  free0: set<nat>, free1: set<nat>, free2: set<nat>)
    requires Tree(mem0, own, root, []) && own.Keys !! free0 && src in own && src in mem0 && |own[src]| < 3 && n < 512
    requires IsTable(mem0[src][n])
    requires Copied(mem0, mem1, own, src, copy, dst, n, free0, free1)
    requires Copied(mem1, mem2, own, mem0[src][n].page, sub, c, 512, free1, free2)
    ensures dst in mem2 && Copied(mem0, SetEntry(mem2, dst, n, TableDesc(c)), own, src, copy + sub, dst, n + 1,
        free0, free2)
  {
    var p, child := own[src], mem0[src][n].page;
    var view1, view2 := View(mem1, dst, n), View(mem2, dst, n);
    var mem3 := SetEntry(mem2, dst, n, TableDesc(c));
    var view3 := SetEntry(view2, dst, n, TableDesc(c));
    hide Tree, Blocks, SameBelow, Agree, Grafted, TableDesc, IsTable, Look;
    ChildApart(mem0, mem1, mem2, own, src, child, copy, sub, dst, c, n, free0, free1, free2);
    CopyDone(mem1, mem2, own, child, sub, c, free1, free2);
    Child(mem0, own, root, [], src, n);
    SourceStays(mem0, mem1, own, root, copy, free0, free1);
    Parts(view1, copy, dst, p);
    hide Labels, Children;
    TreeElsewhere(view1, view2, copy, dst, p);
    BlocksElsewhere(view1, view2, copy);
    SameElsewhere(mem0, view1, view2, copy, src, dst, p, n);
    CopyChildView(mem0, mem1, mem2, view2, own, root, src, copy, sub, dst, c, n);
    ViewStep(mem2, dst, n, TableDesc(c));
    TakenStill(mem0, mem2, copy + sub, free0, free2, dst, mem3);
  }
}
