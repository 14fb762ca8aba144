/** A volume as a map from file names to contents. */
module FatView {
  import opened Bytes
  import opened FatSpec

  /** The files of a volume by name. */
  type Files = map<seq<byte>, seq<byte>>

  predicate Named(d: seq<Sector>, g: Geometry, name: seq<byte>, i: nat) {
    g.rootBase + i / 16 < |d| && Live(EntryAt(d, g, i)) && EntryAt(d, g, i).name == name
  }

  /** The first live slot from `i` on called `name`. */
  function FirstFrom(d: seq<Sector>, g: Geometry, name: seq<byte>, i: nat): (r: Option<nat>)
    requires i <= g.rootEntries
    ensures r.Some? ==> i <= r.value < g.rootEntries && Named(d, g, name, r.value)
    ensures r.Some? ==> forall j :: i <= j < r.value ==> !Named(d, g, name, j)
    ensures r.None? ==> forall j :: i <= j < g.rootEntries ==> !Named(d, g, name, j)
    decreases g.rootEntries - i
  {
    if i == g.rootEntries then None else if Named(d, g, name, i) then Some(i) else FirstFrom(d, g, name, i + 1)
  }

  function First(d: seq<Sector>, g: Geometry, name: seq<byte>): (r: Option<nat>)
    ensures r.Some? ==> r.value < g.rootEntries && Named(d, g, name, r.value)
    ensures r.Some? ==> forall j :: 0 <= j < r.value ==> !Named(d, g, name, j)
    ensures r.None? ==> forall j :: 0 <= j < g.rootEntries ==> !Named(d, g, name, j)
  {
    FirstFrom(d, g, name, 0)
  }

  predicate Unused(d: seq<Sector>, g: Geometry, i: nat) {
    g.rootBase + i / 16 < |d| && IsEmpty(EntryAt(d, g, i))
  }

  /** Nothing follows the first empty slot. */
  ghost predicate Packed(d: seq<Sector>, g: Geometry) {
    forall i, j :: 0 <= i < j < g.rootEntries && Unused(d, g, i) ==> Unused(d, g, j)
  }

  /** In a packed directory the search that stops at the first empty slot misses nothing. */
  lemma AbsentIsNone(d: seq<Sector>, g: Geometry, name: seq<byte>)
    requires Packed(d, g) && Absent(d, g, name)
    ensures First(d, g, name).None?
  {
    hide EntryAt, FirstFrom;
    var n :| 0 <= n <= g.rootEntries && SearchEnds(d, g, name, n);
    forall j | 0 <= j < g.rootEntries ensures !Named(d, g, name, j) {
      if j < n {
        assert PassedOver(d, g, name, j);
      } else {
        assert Unused(d, g, n) && (j > n ==> Unused(d, g, j));
      }
    }
  }

  lemma FoundIsFirst(d: seq<Sector>, g: Geometry, name: seq<byte>, i: nat)
    requires i < g.rootEntries && Named(d, g, name, i)
    requires forall j :: 0 <= j < i ==> PassedOver(d, g, name, j)
    ensures First(d, g, name) == Some(i)
  {
    hide EntryAt, FirstFrom;
    forall j | 0 <= j < i ensures !Named(d, g, name, j) {
      assert PassedOver(d, g, name, j);
    }
  }

  /** Slot `i` holds these bytes. */
  ghost predicate HoldsBytes(d: seq<Sector>, g: Geometry, chains: seq<seq<nat>>, i: nat, x: seq<byte>) {
    && OnDisk(d, g) && i < |chains| && InRange(g, chains[i]) && RootReadable(d, g, i)
    && EntryAt(d, g, i).size <= 512 * Span(g.spc, |chains[i]|)
    && x == FileBytes(d, g, chains[i], EntryAt(d, g, i).size)
  }

  /** `m` is what the volume holds: a name is in it if a slot carries it, with the bytes of the
      first such slot. */
  ghost predicate Represents(d: seq<Sector>, g: Geometry, chains: seq<seq<nat>>, m: Files) {
    && (forall name :: name in m <==> First(d, g, name).Some?)
    && (forall name :: name in m ==>
       First(d, g, name).Some? && HoldsBytes(d, g, chains, First(d, g, name).value, m[name]))
  }

  /** A directory whose slots carry the same names resolves names the same way. */
  lemma SameFirst(d: seq<Sector>, d': seq<Sector>, g: Geometry, name: seq<byte>)
    requires forall i :: 0 <= i < g.rootEntries ==> Named(d', g, name, i) == Named(d, g, name, i)
    ensures First(d', g, name) == First(d, g, name)
  {
    hide Named, FirstFrom;
  }

  /** A finished write changes the file it names, to what was written. */
  lemma WriteRefines(d: seq<Sector>, d': seq<Sector>, f: Fat, f': Fat, g: Geometry, chains: seq<seq<nat>>, idx: nat,
        ch': seq<nat>, e: DirEntry, m: Files)
    requires DirectoryOk(d, f, g, chains) && Represents(d, g, chains, m) && idx < g.rootEntries
    requires RootReadable(d, g, idx) && RootReadable(d', g, idx) && OnDisk(d', g)
    requires Live(EntryAt(d, g, idx)) && First(d, g, EntryAt(d, g, idx).name) == Some(idx)
    requires Grown(f, f', g.clusters, chains[idx], ch') && FileOnly(d, d', g, ch', idx) && InRange(g, ch')
    requires EntryAt(d', g, idx) == e && e == EntryAt(d, g, idx).(start := e.start, size := e.size)
    requires e.size <= 512 * Span(g.spc, |ch'|)
    ensures Represents(d', g, chains[idx := ch'], m[e.name := FileBytes(d', g, ch', e.size)])
  {
    hide EntryAt, FileBytes, Span, First, Grown, SlotOk, SectorImage, Disjoint;
    var chains', m' := chains[idx := ch'], m[e.name := FileBytes(d', g, ch', e.size)];
    assert e.name in m;
    forall name ensures First(d', g, name) == First(d, g, name) {
      forall i | 0 <= i < g.rootEntries ensures Named(d', g, name, i) == Named(d, g, name, i) {
        assert i != idx ==> EntryAt(d', g, i) == EntryAt(d, g, i);
      }
      SameFirst(d, d', g, name);
    }
    forall name | name in m' ensures HoldsBytes(d', g, chains', First(d', g, name).value, m'[name]) {
      var i := First(d, g, name).value;
      if i != idx {
        OtherBytes(d, d', f, f', g, chains, idx, ch', i, m[name]);
      }
    }
  }

  lemma OtherBytes(d: seq<Sector>, d': seq<Sector>, f: Fat, f': Fat, g: Geometry, chains: seq<seq<nat>>, idx: nat,
        ch': seq<nat>, i: nat, x: seq<byte>)
    requires DirectoryOk(d, f, g, chains) && idx < g.rootEntries && i < g.rootEntries && i != idx && OnDisk(d', g)
    requires Grown(f, f', g.clusters, chains[idx], ch') && FileOnly(d, d', g, ch', idx)
    requires HoldsBytes(d, g, chains, i, x)
    ensures HoldsBytes(d', g, chains[idx := ch'], i, x)
  {
    hide EntryAt, Span, SectorImage, Grown;
    assert SlotOk(d, f, g, i, chains[i]);
    OthersApart(f, f', g, chains, idx, ch', i);
  }

  /** A usable file name: not taken for an empty or a deleted slot. */
  predicate GoodName(name: seq<byte>) {
    |name| == 11 && name[0] != 0 && name[0] != 0xE5
  }

  /** A creation under a new name adds that name, with no bytes. */
  lemma CreateRefines(d: seq<Sector>, f: Fat, g: Geometry, chains: seq<seq<nat>>, idx: nat, name: seq<byte>, m: Files)
    requires DirectoryOk(d, f, g, chains) && Represents(d, g, chains, m) && Packed(d, g)
    requires idx < g.rootEntries && RootReadable(d, g, idx) && !Live(EntryAt(d, g, idx))
    requires forall i :: 0 <= i < idx ==> Taken(d, g, i)
    requires GoodName(name) && name !in m
    ensures Represents(StoreEntry(d, g, idx, NewFile(name)), g, chains, m[name := []])
    ensures Packed(StoreEntry(d, g, idx, NewFile(name)), g)
  {
    hide EntryAt, StoreEntry, First, Span, FileBytes, Packed;
    var e := NewFile(name);
    var d' := StoreEntry(d, g, idx, e);
    forall i | 0 <= i < g.rootEntries ensures EntryUpdated(d, d', g, idx, e, i) {
      SlotUpdate(d, g, idx, e, i);
    }
    CreatePacked(d, d', g, idx, e);
    assert SlotOk(d, f, g, idx, chains[idx]);
    forall n
      ensures First(d', g, n) == if n == name then Some(idx) else First(d, g, n)
      ensures n in m ==> HoldsBytes(d', g, chains, First(d, g, n).value, m[n])
    {
      CreateFirst(d, d', g, idx, e, n);
      if n in m {
        var i := First(d, g, n).value;
        assert i != idx;
        StoreKeepsBytes(d, g, idx, e, chains[i]);
        SameBytes(d, d', g, chains[i], EntryAt(d, g, i).size);
        assert EntryUpdated(d, d', g, idx, e, i);
      }
    }
    assert HoldsBytes(d', g, chains, idx, []) by {
      assert EntryUpdated(d, d', g, idx, e, idx);
      StoreKeepsBytes(d, g, idx, e, []);
      NoBytes(d', g, chains[idx]);
    }
  }

  ghost predicate EntryUpdated(d: seq<Sector>, d': seq<Sector>, g: Geometry, idx: nat, e: DirEntry, i: nat) {
    && RootReadable(d, g, i) && RootReadable(d', g, i)
    && EntryAt(d', g, i) == if i == idx then e else EntryAt(d, g, i)
  }

  lemma CreatePacked(d: seq<Sector>, d': seq<Sector>, g: Geometry, idx: nat, e: DirEntry)
    requires Packed(d, g) && idx < g.rootEntries && ValidEntry(e) && !IsEmpty(e)
    requires forall i :: 0 <= i < g.rootEntries ==> EntryUpdated(d, d', g, idx, e, i)
    requires forall i :: 0 <= i < idx ==> Taken(d, g, i)
    ensures Packed(d', g)
  {
    hide EntryAt;
    forall i, j | 0 <= i < j < g.rootEntries && Unused(d', g, i) ensures Unused(d', g, j) {
      assert EntryUpdated(d, d', g, idx, e, i) && EntryUpdated(d, d', g, idx, e, j);
      assert i < idx ==> Taken(d, g, i);
      assert i > idx && Unused(d, g, i) && Unused(d, g, j);
    }
  }

  lemma CreateFirst(d: seq<Sector>, d': seq<Sector>, g: Geometry, idx: nat, e: DirEntry, n: seq<byte>)
    requires idx < g.rootEntries && ValidEntry(e) && Live(e) && First(d, g, e.name).None?
    requires RootReadable(d, g, idx) && !Live(EntryAt(d, g, idx))
    requires forall i :: 0 <= i < g.rootEntries ==> EntryUpdated(d, d', g, idx, e, i)
    ensures First(d', g, n) == if n == e.name then Some(idx) else First(d, g, n)
  {
    hide EntryAt, First;
    forall i | 0 <= i < g.rootEntries ensures Named(d', g, n, i) == if i == idx then n == e.name
        else Named(d, g, n, i) {
      assert EntryUpdated(d, d', g, idx, e, i);
    }
    if n == e.name {
      CreatedIsFirst(d, d', g, n, idx);
    } else {
      SameFirst(d, d', g, n);
    }
  }

  lemma CreatedIsFirst(d: seq<Sector>, d': seq<Sector>, g: Geometry, name: seq<byte>, idx: nat)
    requires idx < g.rootEntries && Named(d', g, name, idx) && First(d, g, name).None?
    requires forall i :: 0 <= i < g.rootEntries && i != idx ==> Named(d', g, name, i) == Named(d, g, name, i)
    ensures First(d', g, name) == Some(idx)
  {
    hide Named, FirstFrom;
  }

  lemma StoreKeepsBytes(d: seq<Sector>, g: Geometry, idx: nat, e: DirEntry, ch: seq<nat>)
    requires OnDisk(d, g) && idx < g.rootEntries && RootReadable(d, g, idx) && ValidEntry(e)
    ensures OnDisk(StoreEntry(d, g, idx, e), g)
    ensures InRange(g, ch) ==> SectorImage(StoreEntry(d, g, idx, e), g, ch) == SectorImage(d, g, ch)
  {
    hide SectorImage;
    RootInHeader(d, g, idx);
    if InRange(g, ch) {
      ImageFrame(d, StoreEntry(d, g, idx, e), g, ch);
    }
  }

  lemma SameBytes(d: seq<Sector>, d': seq<Sector>, g: Geometry, ch: seq<nat>, size: nat)
    requires OnDisk(d, g) && OnDisk(d', g) && InRange(g, ch) && SectorImage(d', g, ch) == SectorImage(d, g, ch)
    requires size <= 512 * Span(g.spc, |ch|)
    ensures FileBytes(d', g, ch, size) == FileBytes(d, g, ch, size)
  {
  }

  lemma NoBytes(d: seq<Sector>, g: Geometry, ch: seq<nat>)
    requires OnDisk(d, g) && InRange(g, ch)
    ensures FileBytes(d, g, ch, 0) == []
  {
  }

  // ── The map under operations ───────────────────────────────────────────────

  datatype Op = Create(name: seq<byte>) | Write(name: seq<byte>, offset: u32, data: seq<byte>)

  /** A creation of a new name, or a write that starts inside an existing file or at its end. */
  predicate Legal(m: Files, op: Op) {
    match op
    case Create(name) => GoodName(name) && name !in m
    case Write(name, offset, data) => name in m && offset <= |m[name]|
  }

  function Applied(m: Files, op: Op): Files {
    match op
    case Create(name) => m[name := []]
    case Write(name, offset, data) =>
      if name in m && offset <= |m[name]| then m[name := Written(m[name], offset, data)] else m
  }

  /** The map after all the operations. */
  function AppliedAll(m: Files, ops: seq<Op>): Files {
    if ops == [] then m else Applied(AppliedAll(m, ops[..|ops| - 1]), ops[|ops| - 1])
  }

  predicate AllLegal(m: Files, ops: seq<Op>) {
    forall k :: 0 <= k < |ops| ==> Legal(AppliedAll(m, ops[..k]), ops[k])
  }
}
