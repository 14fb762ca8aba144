/** Sequences of file operations: consistency, where the clusters go, and what the files hold. */
module FatRuns {
  import opened Bytes
  import opened FatSpec
  import opened FatAccount
  import opened FatView
  import opened Fat16Volume

  /** What an operation needs to succeed on a working device: a slot that is not taken, or a file
      of that name and room for its bytes. */
  ghost predicate Succeeds(d: seq<Sector>, f: Fat, g: Geometry, chains: seq<seq<nat>>, op: Op)
    requires 2 <= g.clusters <= |f| && |chains| == g.rootEntries
  {
    match op
    case Create(_) => exists i :: 0 <= i < g.rootEntries && !Taken(d, g, i)
    case Write(name, offset, data) =>
      var i := First(d, g, name);
      i.Some? && HasRoom(g.spc, |chains[i.value]|, FreeCount(f, 2, g.clusters), offset, data)
  }

  /** When it loses clusters on a working device: a file without clusters is written, some cluster
      is free, and the free ones do not hold the bytes. */
  ghost predicate Loses(d: seq<Sector>, f: Fat, g: Geometry, op: Op)
    requires 2 <= g.clusters <= |f|
  {
    && op.Write? && op.data != [] && First(d, g, op.name).Some?
    && EntryAt(d, g, First(d, g, op.name).value).start == 0
    && FreeCount(f, 2, g.clusters) > 0 && !HasRoom(g.spc, 0, FreeCount(f, 2, g.clusters), op.offset, op.data)
  }

  /**
   * The operation took clusters for the file in `slot`, which had none, and
   * the stored entry still names none. A failed transfer can bring this
   * about at any time.
   */
  ghost predicate Strands(d: seq<Sector>, f: Fat, d': seq<Sector>, g: Geometry, op: Op, slot: Option<nat>) {
    && op.Write? && op.data != [] && !Full(f, g.clusters)
    && slot.Some? && RootReadable(d', g, slot.value) && EntryAt(d', g, slot.value).start == 0
  }

  /** A write to slot `idx`, from `d` and `f` to `d'` and `f'`, that ended with chain `ch'`. */
  ghost predicate WriteDone(d: seq<Sector>, d': seq<Sector>, f: Fat, f': Fat, g: Geometry, chains: seq<seq<nat>>,
        idx: nat, ch': seq<nat>, e: DirEntry, data: seq<byte>) {
    && DirectoryOk(d, f, g, chains) && idx < g.rootEntries && g.clusters <= |f|
    && RootReadable(d, g, idx) && RootReadable(d', g, idx)
    && Live(EntryAt(d, g, idx)) && Grown(f, f', g.clusters, chains[idx], ch')
    && OnDisk(d', g) && FileOnly(d, d', g, ch', idx)
    && ValidEntry(e) && FileChain(f', g.clusters, e.start, ch')
    && (EntryAt(d, g, idx).start != 0 ==> e.start == EntryAt(d, g, idx).start)
    && (|| EntryAt(d', g, idx) == EntryAt(d, g, idx)
        || (EntryAt(d', g, idx) == e && Live(e) && e.size <= 512 * Span(g.spc, |ch'|)))
    && (ch' == [] <==> chains[idx] == [] && (data == [] || Full(f, g.clusters)))
  }

  ghost function Kept(d': seq<Sector>, g: Geometry, idx: nat, ch': seq<nat>): seq<nat>
    requires RootReadable(d', g, idx)
  {
    if EntryAt(d', g, idx).start == 0 then [] else ch'
  }

  lemma WriteAccount(d: seq<Sector>, d': seq<Sector>, f: Fat, f': Fat, g: Geometry, chains: seq<seq<nat>>, idx: nat,
        ch': seq<nat>, e: DirEntry, op: Op)
    requires op.Write? && WriteDone(d, d', f, f', g, chains, idx, ch', e, op.data)
    ensures var chains' := chains[idx := Kept(d', g, idx, ch')];
            && DirectoryOk(d', f', g, chains') && g.clusters <= |f'|
            && Lost(f, g.clusters, chains) <= Lost(f', g.clusters, chains')
            && (Lost(f', g.clusters, chains') != Lost(f, g.clusters, chains) <==> Strands(d, f, d', g, op, Some(idx)))
  {
    hide EntryAt, FileOnly, Grown, DirectoryOk, Lost, Span, OnDisk;
    var n, kept := g.clusters, Kept(d', g, idx, ch');
    WriteKeepsDirectory(d, d', f, f', g, chains, idx, ch', e);
    DirectoryChains(d, f, g, chains);
    StartIsChain(d, f, g, chains, idx);
    GrownSize(f, f', n, chains[idx], ch');
    WriteLoses(f, f', n, chains, idx, ch', kept);
    if ch' != [] {
      assert ch'[0] in Elems(ch');
    }
  }

  lemma StartIsChain(d: seq<Sector>, f: Fat, g: Geometry, chains: seq<seq<nat>>, idx: nat)
    requires DirectoryOk(d, f, g, chains) && idx < g.rootEntries && RootReadable(d, g, idx) && Live(EntryAt(d, g, idx))
    ensures idx < |chains| && (EntryAt(d, g, idx).start == 0 <==> chains[idx] == [])
    ensures FileChain(f, g.clusters, EntryAt(d, g, idx).start, chains[idx])
    ensures EntryAt(d, g, idx).size <= 512 * Span(g.spc, |chains[idx]|)
  {
    hide EntryAt, Span;
    assert SlotOk(d, f, g, idx, chains[idx]);
  }

  lemma DirectoryOnDisk(d: seq<Sector>, f: Fat, g: Geometry, chains: seq<seq<nat>>)
    requires DirectoryOk(d, f, g, chains)
    ensures OnDisk(d, g) && |chains| == g.rootEntries
  {
  }

  lemma CreateDone(d: seq<Sector>, f: Fat, g: Geometry, chains: seq<seq<nat>>, idx: nat, name: seq<byte>, m: Files)
    requires DirectoryOk(d, f, g, chains) && idx < g.rootEntries && RootReadable(d, g, idx) && |name| == 11
    requires IsEmpty(EntryAt(d, g, idx)) || IsDeleted(EntryAt(d, g, idx))
    requires forall i :: 0 <= i < idx ==> Taken(d, g, i)
    ensures DirectoryOk(StoreEntry(d, g, idx, NewFile(name)), f, g, chains)
    ensures Legal(m, Create(name)) && Packed(d, g) && Represents(d, g, chains, m) ==>
              && Packed(StoreEntry(d, g, idx, NewFile(name)), g)
              && Represents(StoreEntry(d, g, idx, NewFile(name)), g, chains, Applied(m, Create(name)))
  {
    hide EntryAt, StoreEntry, DirectoryOk, Represents, Packed;
    CreateKeepsDirectory(d, f, g, chains, idx, NewFile(name));
    if Legal(m, Create(name)) && Packed(d, g) && Represents(d, g, chains, m) {
      CreateRefines(d, f, g, chains, idx, name, m);
    }
  }

  lemma WriteView(d: seq<Sector>, d': seq<Sector>, f: Fat, f': Fat, g: Geometry, chains: seq<seq<nat>>, idx: nat,
        ch': seq<nat>, e: DirEntry, op: Op, m: Files)
    requires op.Write? && WriteDone(d, d', f, f', g, chains, idx, ch', e, op.data) && InRange(g, ch')
        && InRange(g, chains[idx])
    requires Legal(m, op) && Represents(d, g, chains, m) && First(d, g, op.name) == Some(idx)
    requires EntryAt(d', g, idx) == e && e == EntryAt(d, g, idx).(start := e.start, size := e.size)
    requires e.size <= 512 * Span(g.spc, |ch'|) && op.data != []
    requires var size := EntryAt(d, g, idx).size;
             && size <= 512 * Span(g.spc, |chains[idx]|)
             && (op.offset <= size ==>
                   FileBytes(d', g, ch', e.size) == Written(FileBytes(d, g, chains[idx], size), op.offset, op.data))
    requires ch' != []
    ensures Represents(d', g, chains[idx := Kept(d', g, idx, ch')], Applied(m, op))
  {
    hide EntryAt, DirectoryOk, FileBytes, Span, Grown, FileOnly, OnDisk, Chain, Represents, First, Written;
    RepresentsAt(d, g, chains, m, op.name);
    WriteRefines(d, d', f, f', g, chains, idx, ch', e, m);
  }

  lemma RepresentsAt(d: seq<Sector>, g: Geometry, chains: seq<seq<nat>>, m: Files, name: seq<byte>)
    requires Represents(d, g, chains, m) && name in m
    ensures First(d, g, name).Some? && Named(d, g, name, First(d, g, name).value)
    ensures HoldsBytes(d, g, chains, First(d, g, name).value, m[name])
  {
  }

  /** Writing nothing changes nothing. */
  lemma NoWriteView(d: seq<Sector>, f: Fat, g: Geometry, chains: seq<seq<nat>>, idx: nat, op: Op, m: Files)
    requires op.Write? && op.data == [] && DirectoryOk(d, f, g, chains) && idx < g.rootEntries
    requires RootReadable(d, g, idx) && Live(EntryAt(d, g, idx))
    ensures idx < |chains| && chains[idx := Kept(d, g, idx, chains[idx])] == chains
    ensures Applied(m, op) == m
  {
    hide EntryAt, DirectoryOk;
    StartIsChain(d, f, g, chains, idx);
    if op.name in m && op.offset <= |m[op.name]| {
      assert Written(m[op.name], op.offset, []) == m[op.name];
    }
  }

  /** A write leaves the empty slots where they are. */
  lemma WritePacked(d: seq<Sector>, d': seq<Sector>, g: Geometry, ch': seq<nat>, idx: nat)
    requires Packed(d, g) && FileOnly(d, d', g, ch', idx) && RootReadable(d, g, idx)
    requires EntryAt(d', g, idx).name == EntryAt(d, g, idx).name
    ensures Packed(d', g)
  {
    hide EntryAt, SectorImage;
    forall i | 0 <= i < g.rootEntries ensures Unused(d', g, i) == Unused(d, g, i) {
      assert i != idx ==> RootReadable(d, g, i) && EntryAt(d', g, i) == EntryAt(d, g, i);
    }
  }

  /** On a working device the stored entry names the clusters exactly after a success. */
  lemma LossIs(d: seq<Sector>, d': seq<Sector>, f: Fat, f': Fat, g: Geometry, chains: seq<seq<nat>>, idx: nat,
        ch': seq<nat>, e: DirEntry, op: Op, ok: bool)
    requires op.Write? && WriteDone(d, d', f, f', g, chains, idx, ch', e, op.data) && First(d, g, op.name) == Some(idx)
    requires 2 <= g.clusters && (ok <==> HasRoom(g.spc, |chains[idx]|, FreeCount(f, 2, g.clusters), op.offset, op.data))
    requires if ok && op.data != [] then EntryAt(d', g, idx) == e else EntryAt(d', g, idx) == EntryAt(d, g, idx)
    ensures Strands(d, f, d', g, op, Some(idx)) <==> Loses(d, f, g, op)
  {
    hide EntryAt, FileOnly, Grown, DirectoryOk, Span, OnDisk, FreeCount, First, Chain;
    StartIsChain(d, f, g, chains, idx);
    FullIsZero(f, g.clusters);
    if ok && op.data != [] && !Full(f, g.clusters) {
      assert ch' != [] && e.start != 0;
    }
  }

  /**
   * One operation, allowed to fail anywhere. The directory stays consistent.
   * On a working device it succeeds exactly when there is room, and loses
   * clusters exactly when a file without clusters is written that the free
   * ones do not hold. Whatever the device does, clusters are lost exactly when
   * the operation strands them. A success does to the files what the
   * operation does to the map.
   */
  method Apply(fs: Fat16, blk: Disk, op: Op, ghost chains: seq<seq<nat>>, ghost m: Files)
    returns (ok: bool, slot: Option<nat>, ghost chains': seq<seq<nat>>)
    requires fs.Valid() && DirectoryOk(blk.sectors, fs.Fat(), fs.geo, chains) && |op.name| == 11
    modifies fs.fat, blk
    ensures |chains| == fs.geo.rootEntries
    ensures DirectoryOk(blk.sectors, fs.Fat(), fs.geo, chains')
    ensures Lost(old(fs.Fat()), fs.geo.clusters, chains) <= Lost(fs.Fat(), fs.geo.clusters, chains')
    ensures Lost(fs.Fat(), fs.geo.clusters, chains') != Lost(old(fs.Fat()), fs.geo.clusters, chains)
            <==> Strands(old(blk.sectors), old(fs.Fat()), blk.sectors, fs.geo, op, slot)
    ensures Strands(old(blk.sectors), old(fs.Fat()), blk.sectors, fs.geo, op, slot)
            ==> blk.failed || Full(fs.Fat(), fs.geo.clusters)
    ensures !blk.failed && Packed(old(blk.sectors), fs.geo) ==>
              && (ok <==> Succeeds(old(blk.sectors), old(fs.Fat()), fs.geo, chains, op))
              && (Lost(fs.Fat(), fs.geo.clusters, chains') != Lost(old(fs.Fat()), fs.geo.clusters, chains)
                  <==> Loses(old(blk.sectors), old(fs.Fat()), fs.geo, op))
    ensures old(blk.failed) ==> blk.failed
    ensures Full(old(fs.Fat()), fs.geo.clusters) ==> Full(fs.Fat(), fs.geo.clusters)
    ensures ok && !blk.failed && Legal(m, op) && Packed(old(blk.sectors), fs.geo)
            && Represents(old(blk.sectors), fs.geo, chains, m) ==>
              Packed(blk.sectors, fs.geo) && Represents(blk.sectors, fs.geo, chains', Applied(m, op))
  {
    hide EntryAt, DirectoryOk, Represents, Packed, Lost, Full, Legal, Applied, Strands, Loses, Succeeds, FreeCount;
    if op.Create? {
      slot := ApplyCreate(fs, blk, op.name, chains, m);
      ok, chains' := slot.Some?, chains;
      NotStranded(old(blk.sectors), old(fs.Fat()), blk.sectors, fs.geo, op, slot);
    } else {
      ok, slot, chains' := ApplyWrite(fs, blk, op, chains, m);
    }
  }

  lemma NotStranded(d: seq<Sector>, f: Fat, d': seq<Sector>, g: Geometry, op: Op, slot: Option<nat>)
    requires op.Create? || slot.None?
    ensures !Strands(d, f, d', g, op, slot)
    ensures 2 <= g.clusters <= |f| && (op.Create? || First(d, g, op.name).None?) ==> !Loses(d, f, g, op)
  {
  }

  method ApplyCreate(fs: Fat16, blk: Disk, name: seq<byte>, ghost chains: seq<seq<nat>>, ghost m: Files)
    returns (slot: Option<nat>)
    requires fs.Valid() && DirectoryOk(blk.sectors, fs.Fat(), fs.geo, chains) && |name| == 11
    modifies blk
    ensures |chains| == fs.geo.rootEntries && DirectoryOk(blk.sectors, fs.Fat(), fs.geo, chains)
    ensures old(blk.failed) ==> blk.failed
    ensures !blk.failed ==> (slot.Some? <==> Succeeds(old(blk.sectors), old(fs.Fat()), fs.geo, chains, Create(name)))
    ensures slot.Some? && Legal(m, Create(name)) && Packed(old(blk.sectors), fs.geo)
            && Represents(old(blk.sectors), fs.geo, chains, m) ==>
              Packed(blk.sectors, fs.geo) && Represents(blk.sectors, fs.geo, chains, Applied(m, Create(name)))
  {
    hide EntryAt, StoreEntry, DirectoryOk, Represents, Packed, Legal, Applied;
    ghost var d, f := blk.sectors, fs.Fat();
    DirectoryOnDisk(d, f, fs.geo, chains);
    slot := fs.CreateRootFile(blk, name);
    if slot.Some? {
      assert !Taken(d, fs.geo, slot.value);
      CreateDone(d, f, fs.geo, chains, slot.value, name, m);
    }
  }

  method ApplyWrite(fs: Fat16, blk: Disk, op: Op, ghost chains: seq<seq<nat>>, ghost m: Files)
    returns (ok: bool, slot: Option<nat>, ghost chains': seq<seq<nat>>)
    requires fs.Valid() && DirectoryOk(blk.sectors, fs.Fat(), fs.geo, chains) && op.Write?
    modifies fs.fat, blk
    ensures |chains| == fs.geo.rootEntries
    ensures DirectoryOk(blk.sectors, fs.Fat(), fs.geo, chains')
    ensures Lost(old(fs.Fat()), fs.geo.clusters, chains) <= Lost(fs.Fat(), fs.geo.clusters, chains')
    ensures Lost(fs.Fat(), fs.geo.clusters, chains') != Lost(old(fs.Fat()), fs.geo.clusters, chains)
            <==> Strands(old(blk.sectors), old(fs.Fat()), blk.sectors, fs.geo, op, slot)
    ensures Strands(old(blk.sectors), old(fs.Fat()), blk.sectors, fs.geo, op, slot)
            ==> blk.failed || Full(fs.Fat(), fs.geo.clusters)
    ensures !blk.failed && Packed(old(blk.sectors), fs.geo) ==>
              && (ok <==> Succeeds(old(blk.sectors), old(fs.Fat()), fs.geo, chains, op))
              && (Lost(fs.Fat(), fs.geo.clusters, chains') != Lost(old(fs.Fat()), fs.geo.clusters, chains)
                  <==> Loses(old(blk.sectors), old(fs.Fat()), fs.geo, op))
    ensures old(blk.failed) ==> blk.failed
    ensures Full(old(fs.Fat()), fs.geo.clusters) ==> Full(fs.Fat(), fs.geo.clusters)
    ensures ok && !blk.failed && Legal(m, op) && Packed(old(blk.sectors), fs.geo)
            && Represents(old(blk.sectors), fs.geo, chains, m) ==>
              Packed(blk.sectors, fs.geo) && Represents(blk.sectors, fs.geo, chains', Applied(m, op))
  {
    hide EntryAt, DirectoryOk, Represents, Packed, Lost, Full, Legal, Applied, OnDisk, InRange, Chain, Span, Grown;
    hide Image, FileBytes, Overlay, Written, ZeroFilled, GapIsZero, FileOnly, Flushed, Kept;
    ghost var d, f := blk.sectors, fs.Fat();
    DirectoryOnDisk(d, f, fs.geo, chains);
    chains', slot, ok := chains, None, false;
    var found := fs.FindRoot(blk, op.name);
    if found.None? {
      if !blk.failed && Packed(d, fs.geo) {
        AbsentIsNone(d, fs.geo, op.name);
        NotStranded(d, f, d, fs.geo, op, None);
      }
      return;
    }
    var (idx, entry) := found.value;
    slot := Some(idx);
    FoundIsFirst(d, fs.geo, op.name, idx);
    StartIsChain(d, f, fs.geo, chains, idx);
    var r, e; ghost var ch';
    r, e, ch' := fs.WriteFile(blk, idx, entry, op.offset, op.data, chains[idx]);
    ok := r.Some?;
    WriteAccount(d, blk.sectors, f, fs.Fat(), fs.geo, chains, idx, ch', e, op);
    chains' := chains[idx := Kept(blk.sectors, fs.geo, idx, ch')];
    if !blk.failed {
      LossIs(d, blk.sectors, f, fs.Fat(), fs.geo, chains, idx, ch', e, op, ok);
    }
    if Full(f, fs.geo.clusters) {
      FullStays(f, fs.Fat(), fs.geo.clusters, chains[idx], ch');
    }
    if op.data == [] {
      NoWriteView(d, f, fs.geo, chains, idx, op, m);
    } else if ok && !blk.failed && Legal(m, op) && Packed(d, fs.geo) && Represents(d, fs.geo, chains, m) {
      SpanStep(fs.geo.spc, 0);
      WritePacked(d, blk.sectors, fs.geo, ch', idx);
      WriteView(d, blk.sectors, f, fs.Fat(), fs.geo, chains, idx, ch', e, op, m);
    }
  }

  /**
   * Any sequence of operations, each allowed to fail anywhere. All chains
   * stay well formed and disjoint. Every cluster that left the free ones is
   * in a chain or lost, and none is lost while the device works and the
   * volume is not full. If every operation is legal and succeeds, the volume
   * ends up holding the map that the operations produce.
   */
  method Run(fs: Fat16, blk: Disk, ops: seq<Op>, ghost chains: seq<seq<nat>>, ghost m: Files)
    returns (oks: seq<bool>, ghost chains': seq<seq<nat>>)
    requires fs.Valid() && DirectoryOk(blk.sectors, fs.Fat(), fs.geo, chains)
    requires forall k :: 0 <= k < |ops| ==> |ops[k].name| == 11
    modifies fs.fat, blk
    ensures |oks| == |ops| && DirectoryOk(blk.sectors, fs.Fat(), fs.geo, chains')
    ensures FreeCount(fs.Fat(), 2, fs.geo.clusters) + Total(chains') + |Lost(fs.Fat(), fs.geo.clusters, chains')|
            == old(FreeCount(fs.Fat(), 2, fs.geo.clusters)) + Total(chains)
                + |Lost(old(fs.Fat()), fs.geo.clusters, chains)|
    ensures Lost(old(fs.Fat()), fs.geo.clusters, chains) <= Lost(fs.Fat(), fs.geo.clusters, chains')
    ensures !blk.failed && !Full(fs.Fat(), fs.geo.clusters) ==>
              Lost(fs.Fat(), fs.geo.clusters, chains') == Lost(old(fs.Fat()), fs.geo.clusters, chains)
    ensures !blk.failed && (forall k :: 0 <= k < |ops| ==> oks[k]) && AllLegal(m, ops)
            && Packed(old(blk.sectors), fs.geo) && Represents(old(blk.sectors), fs.geo, chains, m) ==>
              Represents(blk.sectors, fs.geo, chains', AppliedAll(m, ops))
  {
    hide DirectoryOk, Represents, Packed, Lost, Full, Legal, Applied, Strands, FreeCount, Total;
    ghost var d, f := blk.sectors, fs.Fat();
    chains', oks := chains, [];
    for k := 0 to |ops|
      invariant |oks| == k && DirectoryOk(blk.sectors, fs.Fat(), fs.geo, chains')
      invariant Lost(f, fs.geo.clusters, chains) <= Lost(fs.Fat(), fs.geo.clusters, chains')
      invariant !blk.failed && !Full(fs.Fat(), fs.geo.clusters) ==>
                  Lost(fs.Fat(), fs.geo.clusters, chains') == Lost(f, fs.geo.clusters, chains)
      invariant !blk.failed && (forall j :: 0 <= j < k ==> oks[j]) && AllLegal(m, ops[..k])
                && Packed(d, fs.geo) && Represents(d, fs.geo, chains, m) ==>
                  Packed(blk.sectors, fs.geo) && Represents(blk.sectors, fs.geo, chains', AppliedAll(m, ops[..k]))
    {
      OneMore(m, ops, k);
      var ok, slot;
      ok, slot, chains' := Apply(fs, blk, ops[k], chains', AppliedAll(m, ops[..k]));
      ghost var before := oks;
      oks := oks + [ok];
      assert oks[k] == ok && forall j :: 0 <= j < k ==> oks[j] == before[j];
    }
    assert ops[..|ops|] == ops;
    DirectoryChains(d, f, fs.geo, chains);
    DirectoryChains(blk.sectors, fs.Fat(), fs.geo, chains');
    Accounting(f, fs.geo.clusters, chains);
    Accounting(fs.Fat(), fs.geo.clusters, chains');
  }

  lemma OneMore(m: Files, ops: seq<Op>, k: nat)
    requires k < |ops|
    ensures AppliedAll(m, ops[..k + 1]) == Applied(AppliedAll(m, ops[..k]), ops[k])
    ensures AllLegal(m, ops[..k + 1]) ==> AllLegal(m, ops[..k]) && Legal(AppliedAll(m, ops[..k]), ops[k])
  {
    hide Legal, Applied;
    assert ops[..k + 1][..k] == ops[..k];
    assert forall j :: 0 <= j <= k ==> ops[..k + 1][..j] == ops[..j];
    if AllLegal(m, ops[..k + 1]) {
      assert Legal(AppliedAll(m, ops[..k + 1][..k]), ops[..k + 1][k]);
      forall j | 0 <= j < k ensures Legal(AppliedAll(m, ops[..k][..j]), ops[..k][j]) {
        assert Legal(AppliedAll(m, ops[..k + 1][..j]), ops[..k + 1][j]);
        assert ops[..k][..j] == ops[..j];
      }
    }
  }

  /** A write that loses a cluster whatever the device does: two clusters' worth of bytes into an
      empty file while one cluster of one sector is left. */
  method LastCluster(fs: Fat16, blk: Disk, idx: nat, ghost chains: seq<seq<nat>>, entry: DirEntry)
    returns (r: Option<nat>)
    requires fs.Valid() && DirectoryOk(blk.sectors, fs.Fat(), fs.geo, chains) && fs.geo.spc == 1
    requires FreeCount(fs.Fat(), 2, fs.geo.clusters) == 1
    requires idx < fs.geo.rootEntries && RootReadable(blk.sectors, fs.geo, idx)
    requires entry == EntryAt(blk.sectors, fs.geo, idx) && Live(entry) && entry.start == 0
    modifies fs.fat, blk
    ensures r.None? && FreeCount(fs.Fat(), 2, fs.geo.clusters) == 0
    ensures DirectoryOk(blk.sectors, fs.Fat(), fs.geo, chains)
    ensures |Lost(fs.Fat(), fs.geo.clusters, chains)| == |Lost(old(fs.Fat()), fs.geo.clusters, chains)| + 1
  {
    hide EntryAt, DirectoryOk, Lost, Image, FileOnly, Flushed, FileBytes, ZeroFilled, GapIsZero, Overlay, Written;
    ghost var d, f := blk.sectors, fs.Fat();
    DirectoryOnDisk(d, f, fs.geo, chains);
    StartIsChain(d, f, fs.geo, chains, idx);
    var data := seq(513, _ => 1);
    var e; ghost var ch';
    r, e, ch' := fs.WriteFile(blk, idx, entry, 0, data, chains[idx]);
    FullIsZero(f, fs.geo.clusters);
    GrownCount(f, fs.Fat(), fs.geo.clusters, [], ch');
    assert Span(1, |ch'|) == |ch'| by { SpanIsProduct(1, |ch'|); }
    hide Span, Grown;
    WriteAccount(d, blk.sectors, f, fs.Fat(), fs.geo, chains, idx, ch', e, Write(entry.name, 0, data));
    DirectoryChains(d, f, fs.geo, chains);
    WriteLoses(f, fs.Fat(), fs.geo.clusters, chains, idx, ch', []);
    assert chains[idx := []] == chains;
  }

  // ── Across a mount ─────────────────────────────────────────────────────────

  /** A chain depends on the data clusters' entries only. */
  lemma SameChain(f: Fat, f': Fat, n: nat, ch: seq<nat>)
    requires Chain(f, n, ch) && n <= |f'| && f'[..n] == f[..n]
    ensures Chain(f', n, ch)
  {
    forall c | 0 <= c < n ensures f'[c] == f[c] {
      assert f'[..n][c] == f[..n][c];
    }
  }

  /**
   * A write, a mount of the volume, a read: when the FAT sectors hold all
   * entries, the mounted volume shows the written file.
   */
  method WriteMountRead(fs: Fat16, blk: Disk, idx: nat, entry: DirEntry, offset: u32, data: seq<byte>, at: u32,
                        out: array<byte>, ghost ch: seq<nat>)
    returns (r: Option<nat>, m: MountResult, n: nat)
    requires fs.Valid() && OnDisk(blk.sectors, fs.geo) && idx < fs.geo.rootEntries && out != fs.fat
    requires ParseBoot(blk.sectors[0]) == Some(fs.geo) && fs.geo.fatBase > 0
    requires ValidEntry(entry) && FileChain(fs.Fat(), fs.geo.clusters, entry.start, ch)
    requires InRange(fs.geo, ch) && offset <= entry.size <= 512 * Span(fs.geo.spc, |ch|) && data != []
    modifies fs.fat, blk, out
    ensures r.Some? && m.Rejected? ==> blk.failed
    ensures r.Some? && m.Panics? ==> fs.geo.fatSectors >= 18
    ensures r.Some? && m.Mounted? && 2 * fs.geo.clusters <= 512 * fs.geo.fatSectors ==>
              var file := Written(FileBytes(old(blk.sectors), fs.geo, ch, entry.size), offset, data);
              && m.fs.geo == fs.geo && n <= out.Length
              && (!blk.failed ==> n == if at < |file| then Min(out.Length, |file| - at) else 0)
              && (n > 0 ==> at + n <= |file| && out[..n] == Slice(file, at, n))
  {
    hide ParseBoot, Image, Span, Flushed, EntryAt, ZeroFilled, GapIsZero, Grown, Chain, Full, Overlay, LoadedFat,
        SectorImage, Reach, ClustersFor, HasRoom, FreeCount, FileBytes, FileOnly, OnDisk;
    n, m := 0, Rejected;
    var e; ghost var ch';
    r, e, ch' := fs.WriteFile(blk, idx, entry, offset, data, ch);
    if r.None? {
      return;
    }
    BootKept(old(blk.sectors), blk.sectors, fs.geo, ch', idx);
    m := Remount(blk, fs);
    if m.Mounted? && 2 * fs.geo.clusters <= 512 * fs.geo.fatSectors {
      if e.start != 0 {
        SameChain(fs.Fat(), m.fs.Fat(), fs.geo.clusters, ch');
      }
      ghost var o := out[..];
      n := m.fs.ReadFile(blk, e.start, e.size, at, out, ch');
      if n > 0 {
        ReadBack(blk.sectors, fs.geo, ch', e.size, at, n, o, out[..]);
      }
    }
  }

  // ── Volumes on which a promise fails ───────────────────────────────────────

  /** A boot sector with these counts: 512-byte sectors, 4 per cluster, one reserved sector, one
      FAT, 64 root entries, 4096 sectors in all. */
  function BootSector(fatSectors: byte): Sector {
    seq(512, i => if i == 0x0C then 2 else if i == 0x0D then 4 else if i == 0x0E then 1 else if i == 0x10 then 1
                  else if i == 0x11 then 64 else if i == 0x14 then 16 else if i == 0x16 then fatSectors
                  else if i == 510 then 0x55 else if i == 511 then 0xAA else 0)
  }

  lemma BootGeometry(n: byte)
    requires 1 <= n <= 18
    ensures ParseBoot(BootSector(n)) == Some(Geometry(4, 1, n, 1 + n, 64, 5 + n, (4091 - n) / 4))
  {
    hide Span;
  }

  /** Cluster 512 of the demo volume, whose FAT has two sectors, does not survive a flush and a
      mount. */
  method DemoRemount(fs: Fat16, blk: Disk) returns (ok: bool, r: MountResult)
    requires fs.Valid() && OnDisk(blk.sectors, fs.geo) && blk.sectors[0] == BootSector(2)
    requires ParseBoot(blk.sectors[0]) == Some(fs.geo) && fs.Fat()[512] == FAT_EOC
    modifies blk
    ensures ok && r.Mounted? ==> r.fs.Valid() && r.fs.Fat()[512] == FAT_FREE
    ensures ok && !blk.failed ==> r.Mounted?
  {
    BootGeometry(2);
    hide ParseBoot, Flushed, DecodeFat, BootSector;
    r := Rejected;
    ok := fs.FlushFat(blk);
    if ok {
      r := Mount(blk);
      RemountEntry(blk.sectors, fs.geo, fs.fat[..], 512);
      LoadedEntry(blk.sectors, fs.geo, 512);
    }
  }

  /** Entries behind the FAT sectors are loaded as free. */
  lemma LoadedEntry(d: seq<Sector>, g: Geometry, c: nat)
    requires g.fatBase + g.fatSectors <= |d| && 512 * g.fatSectors <= 2 * c && c < MAX_CACHED_CLUSTERS
    ensures DecodeFat(LoadedFat(d, g))[c] == FAT_FREE
  {
  }

  /** A FAT of 18 sectors: the mount panics unless a transfer fails first. */
  method MountWide(blk: Disk) returns (r: MountResult)
    requires |blk.sectors| >= 19 && blk.sectors[0] == BootSector(18)
    modifies blk`failed
    ensures r.Panics? || (r.Rejected? && blk.failed)
  {
    hide ParseBoot, BootSector;
    BootGeometry(18);
    r := Mount(blk);
  }

  /** A write at offset 1 of an empty file shows the byte that the cluster held before. */
  method OldByteShows(fs: Fat16, blk: Disk, idx: nat, entry: DirEntry, ghost ch: seq<nat>)
        returns (r: Option<nat>, e: DirEntry, ghost ch': seq<nat>)
    requires fs.Valid() && OnDisk(blk.sectors, fs.geo) && idx < fs.geo.rootEntries
    requires ValidEntry(entry) && FileChain(fs.Fat(), fs.geo.clusters, entry.start, ch) && entry.start != 0
        && entry.size == 0
    requires InRange(fs.geo, ch) && |Image(blk.sectors, fs.geo, ch)| > 0 && Image(blk.sectors, fs.geo, ch)[0] == 7
    modifies fs.fat, blk
    ensures r.Some? ==>
        e.size == 2 && InRange(fs.geo, ch') && OnDisk(blk.sectors, fs.geo) && e.size <= 512 * Span(fs.geo.spc, |ch'|)
                        && FileBytes(blk.sectors, fs.geo, ch', 2) == [7, 9]
  {
    hide Image, Span, Flushed, EntryAt, ZeroFilled, GapIsZero, Full, SectorImage, FileOnly;
    ghost var d, f := blk.sectors, fs.Fat();
    r, e, ch' := fs.WriteFile(blk, idx, entry, 1, [9], ch);
    if r.Some? {
      GrownPrefix(f, fs.Fat(), fs.geo.clusters, ch, ch');
      hide Grown, Chain;
      ImagePrefix(d, fs.geo, ch, ch');
      ghost var img := Image(blk.sectors, fs.geo, ch');
      assert img[0] == Image(d, fs.geo, ch')[0] == Image(d, fs.geo, ch)[0] == 7;
      assert img[..2] == [7, 9];
    }
  }

  lemma BootKept(d: seq<Sector>, d': seq<Sector>, g: Geometry, ch: seq<nat>, idx: nat)
    requires FileOnly(d, d', g, ch, idx) && g.fatBase > 0 && OnDisk(d, g)
    ensures |d'| == |d| > 0 && d'[0] == d[0] && g.fatBase + g.fatSectors <= |d|
  {
    hide SectorImage, EntryAt;
  }

  lemma GrownPrefix(f: Fat, f': Fat, n: nat, ch: seq<nat>, ch': seq<nat>)
    requires Grown(f, f', n, ch, ch')
    ensures ch <= ch'
  {
  }
}
