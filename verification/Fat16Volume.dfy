/** The FAT16 reader/writer over a sector device. */
module Fat16Volume {
  import opened Bytes
  import opened FatSpec

  /**
   * The block device behind `BlockIo`. A transfer may fail at any time; a
   * failed write leaves the sector as it was.
   */
  class Disk {
    var sectors: seq<Sector>
    /** Some transfer has failed. */
    ghost var failed: bool

    method ReadSector(n: nat) returns (ok: bool, buf: Sector)
      modifies this`failed
      ensures ok ==> n < |sectors| && buf == sectors[n]
      ensures !ok ==> failed || n >= |sectors|
      ensures old(failed) ==> failed
    {
      ok, buf := false, seq(512, _ => 0);
      if * {
        if n < |sectors| {
          ok, buf := true, sectors[n];
        }
      } else {
        failed := true;
      }
    }

    method WriteSector(n: nat, buf: Sector) returns (ok: bool)
      modifies this
      ensures ok ==> n < |old(sectors)| && sectors == old(sectors)[n := buf]
      ensures !ok ==> sectors == old(sectors) && (failed || n >= |sectors|)
      ensures old(failed) ==> failed
    {
      ok := false;
      if * {
        if n < |sectors| {
          ok, sectors := true, sectors[n := buf];
        }
      } else {
        failed := true;
      }
    }
  }

  /** A mounted volume: its geometry and the cached FAT. */
  class Fat16 {
    const geo: Geometry
    const fat: array<byte>

    ghost predicate Valid()
    {
      ValidGeometry(geo) && fat.Length == 2 * MAX_CACHED_CLUSTERS
    }

    constructor (geo: Geometry)
      ensures this.geo == geo && fresh(fat)
      ensures fat.Length == 2 * MAX_CACHED_CLUSTERS
      ensures fat[..] == seq(2 * MAX_CACHED_CLUSTERS, _ => 0)
    {
      this.geo := geo;
      this.fat := new byte[2 * MAX_CACHED_CLUSTERS](_ => 0);
    }

    // ── FAT access ───────────────────────────────────────────────────────────

    ghost function Fat(): (f: Fat)
      requires Valid()
      reads fat
      ensures |f| == MAX_CACHED_CLUSTERS
    {
      DecodeFat(fat[..])
    }

    function FatEntry(cluster: nat): (v: u16)
      requires Valid() && cluster < MAX_CACHED_CLUSTERS
      reads fat
      ensures v == Fat()[cluster]
    {
      Le16(fat[2 * cluster], fat[2 * cluster + 1])
    }

    method SetFatEntry(cluster: nat, value: u16)
      requires Valid() && cluster < MAX_CACHED_CLUSTERS
      modifies fat
      ensures Fat() == old(Fat())[cluster := value]
    {
      var i := 2 * cluster;
      fat[i] := value % 256;
      fat[i + 1] := value / 256;
    }

    function NextOf(cluster: nat): (c: nat)
      requires Valid() && cluster < MAX_CACHED_CLUSTERS
      reads fat
      ensures c == NextCluster(Fat(), cluster)
    {
      var e := FatEntry(cluster);
      if e >= 0xFFF8 || e < 2 then 0 else e
    }

    /** Takes the lowest free cluster and chains it behind `prev`; fails exactly when none is free. */
    method AllocCluster(prev: nat) returns (r: Option<nat>)
      requires Valid() && prev < MAX_CACHED_CLUSTERS
      modifies fat
      ensures r.None? ==> Fat() == old(Fat()) && Full(Fat(), geo.clusters)
      ensures r.Some? ==>
                && 2 <= r.value < geo.clusters
                && old(Fat())[r.value] == FAT_FREE
                && (forall c :: 2 <= c < r.value ==> old(Fat())[c] != FAT_FREE)
                && Fat() == Allocated(old(Fat()), prev, r.value)
    {
      for c := 2 to geo.clusters
        invariant Fat() == old(Fat())
        invariant forall b :: 2 <= b < c ==> Fat()[b] != FAT_FREE
      {
        if FatEntry(c) == FAT_FREE {
          SetFatEntry(c, FAT_EOC);
          if prev != 0 {
            SetFatEntry(prev, c);
          }
          return Some(c);
        }
      }
      return None;
    }

    method FreeClusters() returns (n: nat)
      requires Valid()
      ensures n == FreeCount(Fat(), 2, geo.clusters)
    {
      n := 0;
      for c := 2 to geo.clusters
        invariant n == FreeCount(Fat(), 2, c)
      {
        if FatEntry(c) == FAT_FREE {
          n := n + 1;
        }
      }
    }

    /** Stores the cached FAT; on failure only FAT sectors have been touched. */
    method FlushFat(blk: Disk) returns (ok: bool)
      requires Valid() && OnDisk(blk.sectors, geo)
      modifies blk
      ensures |blk.sectors| == |old(blk.sectors)|
      ensures forall s :: 0 <= s < |blk.sectors| && !(geo.fatBase <= s < geo.fatBase + geo.fatSectors)
                          ==> blk.sectors[s] == old(blk.sectors)[s]
      ensures ok ==> Flushed(blk.sectors, geo, fat[..])
      ensures !ok || old(blk.failed) ==> blk.failed
    {
      ghost var d := blk.sectors;
      var n := 2 * geo.clusters;
      for i := 0 to geo.fatSectors
        invariant |blk.sectors| == |d| && (old(blk.failed) ==> blk.failed)
        invariant forall s :: 0 <= s < |d| && !(geo.fatBase <= s < geo.fatBase + i) ==> blk.sectors[s] == d[s]
        invariant forall j :: 0 <= j < i ==> blk.sectors[geo.fatBase + j] == FlushedSector(fat[..], geo.clusters, j)
      {
        var sec: seq<byte> := seq(512, _ => 0);
        var src := i * 512;
        if src < n {
          var take := Min(n - src, 512);
          sec := fat[src..src + take] + sec[take..];
        }
        assert sec == FlushedSector(fat[..], geo.clusters, i);
        ok := blk.WriteSector(geo.fatBase + i, sec);
        if !ok {
          return false;
        }
      }
      ok := true;
    }

    // ── Files ────────────────────────────────────────────────────────────────

    /**
     * Stores `x` at byte `s` of sector `i` of cluster `ch[k]`, reading the
     * sector first unless all of it is replaced.
     */
    method PatchSector(blk: Disk, ghost ch: seq<nat>, ghost k: nat, cluster: nat, i: nat, s: nat, x: seq<byte>)
      returns (ok: bool)
      requires Valid() && OnDisk(blk.sectors, geo) && InRange(geo, ch)
      requires k < |ch| && ch[k] == cluster
      requires forall a :: 0 <= a < |ch| && a != k ==> ch[a] != ch[k]
      requires i < geo.spc && s + |x| <= 512
      modifies blk
      ensures OnlyTouches(old(blk.sectors), blk.sectors, geo, ch) && OnDisk(blk.sectors, geo)
      ensures ok ==> Wrote(old(blk.sectors), blk.sectors, geo, ch, 512 * (Span(geo.spc, k) + i) + s, x)
      ensures !ok || old(blk.failed) ==> blk.failed
    {
      hide SectorImage, Flat, Span, Image, Overlay, OnlyTouches, SectorOf, Wrote;
      SectorThere(blk.sectors, geo, cluster, i);
      WholeSector(blk.sectors[SectorOf(geo, cluster) + i], seq(512, _ => 0), s, x);
      ghost var d := blk.sectors;
      var sec: Sector := seq(512, _ => 0);
      if s > 0 || |x| < 512 {
        ok, sec := blk.ReadSector(SectorOf(geo, cluster) + i);
        if !ok {
          TouchesNothing(d, geo, ch);
          return;
        }
      }
      sec := Overlay(sec, s, x);
      ok := blk.WriteSector(SectorOf(geo, cluster) + i, sec);
      if ok {
        SectorWrote(d, geo, ch, k, i, s, x, sec);
        SectorTouches(d, geo, ch, k, i, sec);
      } else {
        TouchesNothing(d, geo, ch);
      }
    }

    /** The inner loop of `write_file`: fills cluster `ch[k]` from byte `skip` with `data[src..]`. */
    method WriteCluster(blk: Disk, ghost ch: seq<nat>, ghost k: nat, cluster: nat, skip: nat, data: seq<byte>, src: nat)
      returns (ok: bool, src': nat)
      requires Valid() && OnDisk(blk.sectors, geo) && InRange(geo, ch)
      requires k < |ch| && ch[k] == cluster
      requires forall a :: 0 <= a < |ch| && a != k ==> ch[a] != ch[k]
      requires skip < 512 * geo.spc && src < |data|
      modifies blk
      ensures OnlyTouches(old(blk.sectors), blk.sectors, geo, ch) && OnDisk(blk.sectors, geo)
      ensures ok ==>
                && src' == Min(|data|, src + 512 * geo.spc - skip)
                && Wrote(old(blk.sectors), blk.sectors, geo, ch, 512 * Span(geo.spc, k) + skip, data[src..src'])
      ensures !ok || old(blk.failed) ==> blk.failed
    {
      hide Wrote, OnlyTouches, Span, OnDisk, InRange;
      ghost var d := blk.sectors;
      ghost var base := 512 * Span(geo.spc, k) + skip;
      SpanMono(geo.spc, k, |ch|);
      TouchesNothing(d, geo, ch);
      WroteNothing(d, geo, ch, base);
      src' := src;
      assert data[src..src'] == [];
      var sskip: nat := skip;
      var i := 0;
      while i < geo.spc && src' < |data|
        invariant i <= geo.spc && src <= src' <= |data| && (old(blk.failed) ==> blk.failed)
        invariant src' < |data| ==> skip + (src' - src) == 512 * i + sskip
        invariant skip + (src' - src) <= 512 * geo.spc
        invariant OnlyTouches(d, blk.sectors, geo, ch) && OnDisk(blk.sectors, geo)
        invariant Wrote(d, blk.sectors, geo, ch, base, data[src..src'])
      {
        var s := Min(sskip, 512);
        var need := Min(512 - s, |data| - src');
        ghost var d1, x := blk.sectors, data[src'..src' + need];
        ok := PatchSector(blk, ch, k, cluster, i, s, data[src'..src' + need]);
        TouchesThen(d, d1, blk.sectors, geo, ch, ch);
        if !ok {
          return;
        }
        assert data[src..src'] + x == data[src..src' + need];
        WroteThen(d, d1, blk.sectors, geo, ch, base, data[src..src'], 512 * (Span(geo.spc, k) + i) + s, x);
        src' := src' + need;
        sskip := Max(sskip - 512, 0);
        i := i + 1;
      }
      ok := true;
    }

    /** The step to the cluster after `ch[k]`, allocating it when the chain ends there. */
    method NextForWrite(cluster: nat, ghost ch: seq<nat>, ghost k: nat) returns (r: Option<nat>, ghost ch': seq<nat>)
      requires Valid() && Chain(Fat(), geo.clusters, ch) && k < |ch| && ch[k] == cluster
      modifies fat
      ensures Grown(old(Fat()), Fat(), geo.clusters, ch, ch') && InRange(geo, ch')
      ensures r.Some? ==> k + 1 < |ch'| && ch'[k + 1] == r.value
      ensures ch' == ch || (ch' == ch + [ch'[|ch|]] && ch'[|ch|] !in ch && k + 1 == |ch|)
      ensures r.None? ==> ch' == ch && k + 1 == |ch| && Full(Fat(), geo.clusters)
    {
      hide Grown, Chain, Full, Allocated;
      ghost var f := Fat();
      NoGrowth(f, geo.clusters, ch);
      NextInChain(f, geo.clusters, ch, k);
      var next := NextOf(cluster);
      ch' := ch;
      if next == 0 {
        r := AllocCluster(cluster);
        if r.Some? {
          GrownByOne(f, geo.clusters, ch, r.value);
          ch' := ch + [r.value];
        }
      } else {
        r := Some(next);
      }
    }

    /** Walks to the cluster covering `offset`, extending the chain on the way. */
    method SeekForWrite(start: nat, offset: nat, ghost ch: seq<nat>)
      returns (r: Option<nat>, skip: nat, ghost ch': seq<nat>, ghost k: nat)
      requires Valid() && ch != [] && Chain(Fat(), geo.clusters, ch) && ch[0] == start
      modifies fat
      ensures Grown(old(Fat()), Fat(), geo.clusters, ch, ch') && InRange(geo, ch') && ch' != []
      ensures r.Some? ==>
                && k < |ch'| && ch'[k] == r.value
                && skip < 512 * geo.spc && offset == 512 * Span(geo.spc, k) + skip
      ensures r.None? ==> Full(Fat(), geo.clusters) && 512 * Span(geo.spc, |ch'|) <= offset
      ensures NoSpare(geo.spc, |ch|, |ch'|, offset + 1)
    {
      hide Grown, Chain, Span, Full;
      ghost var f := Fat();
      NoGrowth(f, geo.clusters, ch);
      SpanStep(geo.spc, 0);
      var cluster := start;
      skip, ch', k := offset, ch, 0;
      while skip >= 512 * geo.spc
        invariant Grown(f, Fat(), geo.clusters, ch, ch') && InRange(geo, ch') && ch' != []
        invariant k < |ch'| && ch'[k] == cluster
        invariant offset == 512 * Span(geo.spc, k) + skip && (|ch| < |ch'| ==> |ch'| == k + 1)
      {
        SpanStep(geo.spc, k);
        skip := skip - 512 * geo.spc;
        ghost var f1, c1 := Fat(), ch';
        GrownChain(f, f1, geo.clusters, ch, ch');
        r, ch' := NextForWrite(cluster, ch', k);
        GrownThen(f, f1, Fat(), geo.clusters, ch, c1, ch');
        if r.None? {
          return;
        }
        cluster := r.value;
        k := k + 1;
      }
      r := Some(cluster);
    }

    /** The next cluster while writing: what was written so far is written to the longer chain. */
    method Advance(ghost d': seq<Sector>, cluster: nat, ghost f: Fat, ghost d: seq<Sector>, ghost ch: seq<nat>,
                   ghost c1: seq<nat>, ghost k: nat, ghost off: nat, ghost x: seq<byte>)
      returns (r: Option<nat>, ghost ch': seq<nat>)
      requires Valid() && Grown(f, Fat(), geo.clusters, ch, c1) && k < |c1| && c1[k] == cluster
      requires Wrote(d, d', geo, c1, off, x)
      modifies fat
      ensures Grown(f, Fat(), geo.clusters, ch, ch') && InRange(geo, ch') && ch' != []
      ensures OnlyTouches(d, d', geo, ch')
      ensures r.Some? ==> k + 1 < |ch'| && ch'[k + 1] == r.value && Wrote(d, d', geo, ch', off, x)
      ensures r.None? ==> Full(Fat(), geo.clusters) && |ch'| == k + 1
      ensures ch' == c1 || |ch'| == k + 2
    {
      hide Full, Grown, Chain, OnlyTouches, Image;
      ghost var f1 := Fat();
      GrownChain(f, f1, geo.clusters, ch, c1);
      r, ch' := NextForWrite(cluster, c1, k);
      GrownThen(f, f1, Fat(), geo.clusters, ch, c1, ch');
      TouchesMore(d, d', geo, c1, ch');
      if ch' != c1 {
        WroteGrow(d, d', geo, c1, ch'[|c1|], off, x);
      }
    }

    /** Stores `data` from byte `offset` on, cluster by cluster. */
    method WriteChain(blk: Disk, start: nat, offset: nat, data: seq<byte>, ghost ch: seq<nat>)
      returns (ok: bool, ghost ch': seq<nat>)
      requires Valid() && OnDisk(blk.sectors, geo)
      requires ch != [] && Chain(Fat(), geo.clusters, ch) && ch[0] == start && data != []
      modifies fat, blk
      ensures Grown(old(Fat()), Fat(), geo.clusters, ch, ch') && InRange(geo, ch') && ch' != []
      ensures OnlyTouches(old(blk.sectors), blk.sectors, geo, ch') && OnDisk(blk.sectors, geo)
      ensures ok ==> Wrote(old(blk.sectors), blk.sectors, geo, ch', offset, data)
      ensures !ok ==> blk.failed || (Full(Fat(), geo.clusters) && 512 * Span(geo.spc, |ch'|) < offset + |data|)
      ensures NoSpare(geo.spc, |ch|, |ch'|, offset + |data|)
      ensures old(blk.failed) ==> blk.failed
    {
      hide Full, Wrote, OnlyTouches, Grown, OnDisk, Chain, Span;
      ghost var d, f := blk.sectors, Fat();
      ghost var k: nat;
      var r, sskip: nat;
      r, sskip, ch', k := SeekForWrite(start, offset, ch);
      TouchesNothing(d, geo, ch');
      if r.None? {
        return false, ch';
      }
      var cluster, src := r.value, 0;
      SpanMono(geo.spc, k, |ch'|);
      WroteNothing(d, geo, ch', offset);
      assert data[..src] == [];
      while src < |data|
        invariant 0 <= src <= |data| && (old(blk.failed) ==> blk.failed)
        invariant Grown(f, Fat(), geo.clusters, ch, ch') && InRange(geo, ch') && ch' != []
        invariant OnlyTouches(d, blk.sectors, geo, ch') && OnDisk(blk.sectors, geo)
        invariant Wrote(d, blk.sectors, geo, ch', offset, data[..src]) && NoSpare(geo.spc, |ch|, |ch'|, offset + |data|)
        invariant src < |data| ==>
                    && k < |ch'| && ch'[k] == cluster
                    && sskip < 512 * geo.spc && offset + src == 512 * Span(geo.spc, k) + sskip
      {
        ghost var d1, src1 := blk.sectors, src;
        GrownDistinct(f, Fat(), geo.clusters, ch, ch', k);
        SpanStep(geo.spc, k);
        ok, src := WriteCluster(blk, ch', k, cluster, sskip, data, src);
        TouchesThen(d, d1, blk.sectors, geo, ch', ch');
        if !ok {
          return;
        }
        WroteThen(d, d1, blk.sectors, geo, ch', offset, data[..src1], offset + src1, data[src1..src]);
        assert data[..src1] + data[src1..src] == data[..src];
        sskip := 0;
        if src < |data| {
          r, ch' := Advance(blk.sectors, cluster, f, d, ch, ch', k, offset, data[..src]);
          if r.None? {
            return false, ch';
          }
          cluster := r.value;
          k := k + 1;
        }
      }
      assert data[..src] == data;
      ok := true;
    }

    /** Writes a root entry back to its slot; a failure changes nothing. */
    method WriteRootEntry(blk: Disk, idx: nat, e: DirEntry) returns (ok: bool)
      requires Valid() && OnDisk(blk.sectors, geo) && idx < geo.rootEntries && ValidEntry(e)
      modifies blk
      ensures blk.sectors == if ok then StoreEntry(old(blk.sectors), geo, idx, e) else old(blk.sectors)
      ensures !ok || old(blk.failed) ==> blk.failed
    {
      RootInHeader(blk.sectors, geo, idx);
      var sec;
      ok, sec := blk.ReadSector(geo.rootBase + idx / 16);
      if !ok {
        return;
      }
      sec := Overlay(sec, idx % 16 * 32, EncodeEntry(e));
      ok := blk.WriteSector(geo.rootBase + idx / 16, sec);
    }

    /** Allocates the first cluster of a file that has none. */
    method EnsureFirst(start: nat, ghost ch: seq<nat>) returns (r: Option<nat>, ghost ch': seq<nat>)
      requires Valid() && FileChain(Fat(), geo.clusters, start, ch)
      modifies fat
      ensures Grown(old(Fat()), Fat(), geo.clusters, ch, ch')
      ensures r.Some? ==>
          ch' != [] && Chain(Fat(), geo.clusters, ch') && ch'[0] == r.value && (start != 0 ==> r.value == start)
      ensures r.None? ==> start == 0 && ch' == ch && Fat() == old(Fat()) && Full(Fat(), geo.clusters)
      ensures ch' == [] <==> ch == [] && Full(old(Fat()), geo.clusters)
      ensures ch' == ch || |ch'| == 1
    {
      ghost var f := Fat();
      NoGrowth(f, geo.clusters, ch);
      ch' := ch;
      if start != 0 {
        return Some(start), ch;
      }
      r := AllocCluster(0);
      if r.Some? {
        GrownByOne(f, geo.clusters, [], r.value);
        ch' := [r.value];
        assert [] + ch' == ch';
      }
    }

    /** Stores the FAT, then the root entry; only the former's failure is reported. */
    method Persist(blk: Disk, idx: nat, e: DirEntry, ghost d: seq<Sector>, ghost ch: seq<nat>) returns (ok: bool)
      requires Valid() && OnDisk(blk.sectors, geo) && FileOnly(d, blk.sectors, geo, ch, idx)
      requires idx < geo.rootEntries && ValidEntry(e) && InRange(geo, ch)
      modifies blk
      ensures OnDisk(blk.sectors, geo) && FileOnly(d, blk.sectors, geo, ch, idx)
      ensures RootReadable(blk.sectors, geo, idx) && RootReadable(old(blk.sectors), geo, idx)
      ensures EntryAt(blk.sectors, geo, idx) == EntryAt(old(blk.sectors), geo, idx)
              || (ok && EntryAt(blk.sectors, geo, idx) == e)
      ensures ok ==> Flushed(blk.sectors, geo, fat[..])
      ensures ok && !blk.failed ==> EntryAt(blk.sectors, geo, idx) == e
      ensures Image(blk.sectors, geo, ch) == Image(old(blk.sectors), geo, ch)
      ensures !ok || old(blk.failed) ==> blk.failed
    {
      hide Image, FileOnly, Flushed, EntryAt, StoreEntry, OnDisk, InRange;
      ghost var d1 := blk.sectors;
      ok := FlushFat(blk);
      FlushKeeps(d, d1, blk.sectors, geo, ch, idx);
      if ok {
        ghost var d2 := blk.sectors;
        var stored := WriteRootEntry(blk, idx, e);
        RootStoreKeeps(d, d2, geo, ch, idx, e, fat[..]);
      }
    }

    /** Stores `data` in the file's clusters, giving it a first one if it has none. */
    method WriteData(blk: Disk, first: nat, offset: nat, data: seq<byte>, ghost ch: seq<nat>)
      returns (ok: bool, start: nat, ghost ch': seq<nat>)
      requires Valid() && OnDisk(blk.sectors, geo) && FileChain(Fat(), geo.clusters, first, ch) && data != []
      modifies fat, blk
      ensures Grown(old(Fat()), Fat(), geo.clusters, ch, ch') && InRange(geo, ch')
      ensures OnlyTouches(old(blk.sectors), blk.sectors, geo, ch') && OnDisk(blk.sectors, geo)
      ensures start < 0x1_0000 && FileChain(Fat(), geo.clusters, start, ch') && (first != 0 ==> start == first)
      ensures ok ==> Wrote(old(blk.sectors), blk.sectors, geo, ch', offset, data)
      ensures !ok ==> blk.failed || (Full(Fat(), geo.clusters) && 512 * Span(geo.spc, |ch'|) < offset + |data|)
      ensures ch' == [] <==> ch == [] && Full(old(Fat()), geo.clusters)
      ensures NoSpare(geo.spc, |ch|, |ch'|, offset + |data|)
      ensures old(blk.failed) ==> blk.failed
    {
      hide Full, Wrote, OnlyTouches, Grown, OnDisk, Span;
      ghost var d, f := blk.sectors, Fat();
      var r;
      r, ch' := EnsureFirst(first, ch);
      SpanStep(geo.spc, 0);
      if r.None? {
        TouchesNothing(d, geo, ch');
        return false, 0, ch';
      }
      hide Chain;
      start := r.value;
      ghost var f1, c1 := Fat(), ch';
      ok, ch' := WriteChain(blk, start, offset, data, ch');
      GrownThen(f, f1, Fat(), geo.clusters, ch, c1, ch');
      GrownChain(f1, Fat(), geo.clusters, c1, ch');
    }

    /**
     * Overwrites or appends `data`; the FAT and the root entry are stored
     * before a success is reported (the outcome of storing the root entry is
     * ignored). `ch` is the file's chain, `ch'` the chain it ends up with.
     */
    method WriteFile(blk: Disk, idx: nat, entry: DirEntry, offset: u32, data: seq<byte>, ghost ch: seq<nat>)
      returns (r: Option<nat>, e: DirEntry, ghost ch': seq<nat>)
      requires Valid() && OnDisk(blk.sectors, geo) && idx < geo.rootEntries
      requires ValidEntry(entry) && FileChain(Fat(), geo.clusters, entry.start, ch)
      requires entry.size <= 512 * Span(geo.spc, |ch|)
      modifies fat, blk
      // In every outcome the file only grew, by clusters that were free, and
      // every other file kept its chain, its bytes and its root entry.
      ensures Grown(old(Fat()), Fat(), geo.clusters, ch, ch') && InRange(geo, ch')
      ensures OnDisk(blk.sectors, geo) && FileOnly(old(blk.sectors), blk.sectors, geo, ch', idx)
      ensures ValidEntry(e) && FileChain(Fat(), geo.clusters, e.start, ch')
      ensures entry.start != 0 ==> e.start == entry.start
      ensures RootReadable(blk.sectors, geo, idx) && RootReadable(old(blk.sectors), geo, idx)
      ensures EntryAt(blk.sectors, geo, idx) == EntryAt(old(blk.sectors), geo, idx)
              || (r.Some? && EntryAt(blk.sectors, geo, idx) == e)
      ensures r.Some? && !blk.failed && data != [] ==> EntryAt(blk.sectors, geo, idx) == e
      ensures data == [] ==> r.Some? && ch' == ch && e == entry && blk.sectors == old(blk.sectors)
      ensures ch' == [] <==> ch == [] && (data == [] || Full(old(Fat()), geo.clusters))
      // On success the chain image is the old one overlaid with `data`, and
      // the file is the old file with `data` written at `offset`.
      ensures r.Some? ==>
                && r.value == e.size == (if data == [] then entry.size else Max(entry.size, offset + |data|))
                && e.size <= 512 * Span(geo.spc, |ch'|)
                && e == entry.(start := e.start, size := e.size)
      ensures r.Some? && data != [] ==>
                && Flushed(blk.sectors, geo, fat[..])
                && offset + |data| <= |Image(old(blk.sectors), geo, ch')|
                && Image(blk.sectors, geo, ch') == Overlay(Image(old(blk.sectors), geo, ch'), offset, data)
      ensures r.Some? && offset <= entry.size ==>
                && InRange(geo, ch)
                && FileBytes(blk.sectors, geo, ch', e.size)
                   == Written(FileBytes(old(blk.sectors), geo, ch, entry.size), offset, data)
      // The clusters it uses are its own and the lowest free ones, no more than it needs.
      ensures r.Some? && data != [] ==>
                && |ch'| == Max(|ch|, ClustersFor(geo.spc, offset + |data|))
                && ch' <= Reach(old(Fat()), geo.clusters, ch)
      // A write past the end does not clear the gap: it is the zero-filling write if and only if
      // those clusters hold zeros there before the call.
      ensures r.Some? && data != [] ==>
                && InRange(geo, ch) && InRange(geo, Reach(old(Fat()), geo.clusters, ch))
                && offset <= |Image(old(blk.sectors), geo, Reach(old(Fat()), geo.clusters, ch))|
                && (FileBytes(blk.sectors, geo, ch', e.size)
                    == ZeroFilled(FileBytes(old(blk.sectors), geo, ch, entry.size), offset, data)
                    <==> GapIsZero(Image(old(blk.sectors), geo, Reach(old(Fat()), geo.clusters, ch)), entry.size,
                                   offset))
      // It fails only for want of space or of the device; with a working device it succeeds if and
      // only if the file's clusters and the free ones hold the bytes.
      ensures r.None? ==> blk.failed || Full(Fat(), geo.clusters)
      ensures !blk.failed ==>
                (r.Some? <==> HasRoom(geo.spc, |ch|, FreeCount(old(Fat()), 2, geo.clusters), offset, data))
      ensures old(blk.failed) ==> blk.failed
    {
      hide Full, Image, OnlyTouches, FileOnly, Overlay, Grown, Flushed, Span, EntryAt, OnDisk, Chain, InRange;
      hide ZeroFilled, GapIsZero, FileBytes, FreeCount, Wrote, Reach, ClustersFor, NoSpare;
      SpanStep(geo.spc, 0);
      ghost var d, f := blk.sectors, Fat();
      NoGrowth(f, geo.clusters, ch);
      NothingWritten(d, geo, f, ch, idx);
      e, ch' := entry, ch;
      if data == [] {
        r := Some(entry.size);
        return;
      }
      var ok, start;
      ok, start, ch' := WriteData(blk, entry.start, offset, data, ch);
      e := entry.(start := start);
      DataOnly(d, blk.sectors, geo, ch', idx);
      RoomFor(geo.spc, f, Fat(), geo.clusters, ch, ch', offset + |data|);
      if !ok {
        return None, e, ch';
      }
      WroteFacts(d, blk.sectors, geo, ch', offset, data);
      SizeBound(geo, Fat(), ch', offset + |data|);
      e := e.(size := Max(e.size, offset + |data|));
      ok := Persist(blk, idx, e, d, ch');
      if !ok {
        return None, e, ch';
      }
      if offset <= entry.size {
        OverlayMeansWrite(d, blk.sectors, geo, ch, ch', entry.size, offset, data);
      }
      GapShowsOldDisk(d, blk.sectors, geo, ch, ch', entry.size, offset, data);
      ChainIs(geo.spc, f, Fat(), geo.clusters, ch, ch', offset + |data|);
      ReachInRange(geo, f, ch);
      GapInReach(d, geo, ch', Reach(f, geo.clusters, ch), entry.size, offset);
      SpanMono(geo.spc, |ch|, |ch'|);
      r := Some(e.size);
    }

    /**
     * The inner loop of `read_file`: copies from byte `skip` of cluster
     * `ch[k]` to `out[written..]` until the cluster, `limit` bytes in all, or
     * the device runs out.
     */
    method ReadCluster(blk: Disk, ghost ch: seq<nat>, ghost k: nat, cluster: nat, skip: nat, out: array<byte>,
          written: nat, limit: nat)
      returns (ok: bool, n: nat)
      requires Valid() && OnDisk(blk.sectors, geo) && InRange(geo, ch)
      requires k < |ch| && ch[k] == cluster
      requires skip < 512 * geo.spc && written < limit <= out.Length
      modifies out, blk`failed
      ensures written <= n <= limit
      ensures 512 * Span(geo.spc, k) + skip + (n - written) <= |Image(blk.sectors, geo, ch)|
      ensures out[..] == Overlay(old(out[..]), written,
          Slice(Image(blk.sectors, geo, ch), 512 * Span(geo.spc, k) + skip, n - written))
      ensures ok ==> n == Min(limit, written + 512 * geo.spc - skip)
      ensures !ok || old(blk.failed) ==> blk.failed
    {
      hide Span, Image, Overlay, Slice;
      SpanMono(geo.spc, k, |ch|);
      ghost var base, img, o := 512 * Span(geo.spc, k) + skip, Image(blk.sectors, geo, ch), out[..];
      SliceJoin(img, base, 0, 0);
      OverlayNone(o, written);
      n := written;
      var sskip: nat := skip;
      var i := 0;
      while i < geo.spc && n < limit
        invariant i <= geo.spc && written <= n <= limit && (old(blk.failed) ==> blk.failed)
        invariant n < limit ==> skip + (n - written) == 512 * i + sskip
        invariant skip + (n - written) <= 512 * geo.spc
        invariant base + (n - written) <= |img|
        invariant out[..] == Overlay(o, written, Slice(img, base, n - written))
      {
        SectorThere(blk.sectors, geo, cluster, i);
        var sec;
        ok, sec := blk.ReadSector(SectorOf(geo, cluster) + i);
        if !ok {
          return;
        }
        var s := Min(sskip, 512);
        var take := Min(512 - s, limit - n);
        SectorRead(blk.sectors, geo, ch, k, i, s, take);
        CopyInto(out, n, Slice(sec, s, take));
        SliceJoin(img, base, n - written, take);
        OverlayJoin(o, written, Slice(img, base, n - written), n, Slice(sec, s, take));
        n := n + take;
        sskip := Max(sskip - 512, 0);
        i := i + 1;
      }
      ok := true;
    }

    /** Copies `x` into `out` from index `at` on. */
    static method CopyInto(out: array<byte>, at: nat, x: seq<byte>)
      requires at + |x| <= out.Length
      modifies out
      ensures out[..] == Overlay(old(out[..]), at, x)
    {
      for i := 0 to |x|
        invariant out[..] == Overlay(old(out[..]), at, x[..i])
      {
        OverlayStep(old(out[..]), at, x, i);
        hide Overlay;
        out[at + i] := x[i];
      }
      assert x[..|x|] == x;
    }

    /** Walks to the cluster covering `offset`; 0 when the chain ends before it. */
    method SeekForRead(first: nat, offset: nat, ghost ch: seq<nat>) returns (cluster: nat, skip: nat, ghost k: nat)
      requires Valid() && FileChain(Fat(), geo.clusters, first, ch)
      ensures AtCluster(ch, k, cluster)
      ensures cluster >= 2 ==> skip < 512 * geo.spc && offset == 512 * Span(geo.spc, k) + skip
      ensures cluster < 2 ==> 512 * Span(geo.spc, |ch|) <= offset
    {
      hide Span, Chain;
      WalkStarts(geo, Fat(), first, ch);
      SpanStep(geo.spc, 0);
      cluster, skip, k := first, offset, 0;
      while cluster >= 2 && skip >= 512 * geo.spc
        invariant AtCluster(ch, k, cluster) && offset == 512 * Span(geo.spc, k) + skip
        decreases skip
      {
        NextInChain(Fat(), geo.clusters, ch, k);
        SpanStep(geo.spc, k);
        skip := skip - 512 * geo.spc;
        cluster := NextOf(cluster);
        k := k + 1;
      }
    }

    /** Reads cluster after cluster until `limit` bytes are there or the chain ends. */
    method ReadChain(blk: Disk, first: nat, from: nat, offset: nat, out: array<byte>, limit: nat, ghost ch: seq<nat>,
                     ghost at: nat)
      returns (n: nat)
      requires Valid() && OnDisk(blk.sectors, geo) && InRange(geo, ch) && out != fat && limit <= out.Length
      requires Chain(Fat(), geo.clusters, ch) && at < |ch| && ch[at] == first
      requires from < 512 * geo.spc && offset == 512 * Span(geo.spc, at) + from
      modifies out, blk`failed
      ensures n <= limit && offset + n <= |Image(blk.sectors, geo, ch)|
      ensures out[..] == Overlay(old(out[..]), 0, Slice(Image(blk.sectors, geo, ch), offset, n))
      ensures n == limit || offset + n == |Image(blk.sectors, geo, ch)| || blk.failed
      ensures old(blk.failed) ==> blk.failed
    {
      hide Image, Span, OnDisk, Chain, Slice, Overlay;
      n := 0;
      var cluster: nat, skip: nat := first, from;
      ghost var k: nat := at;
      SpanMono(geo.spc, k, |ch|);
      ghost var img, o := Image(blk.sectors, geo, ch), out[..];
      SliceJoin(img, offset, 0, 0);
      OverlayNone(o, 0);
      while cluster >= 2 && n < limit
        invariant n <= limit && AtCluster(ch, k, cluster) && (old(blk.failed) ==> blk.failed)
        invariant cluster >= 2 && n < limit ==> skip < 512 * geo.spc && offset + n == 512 * Span(geo.spc, k) + skip
        invariant cluster == 0 && n < limit ==> offset + n == |img|
        invariant offset + n <= |img| && out[..] == Overlay(o, 0, Slice(img, offset, n))
        decreases limit - n
      {
        ghost var n0 := n;
        var ok;
        ok, n := ReadCluster(blk, ch, k, cluster, skip, out, n, limit);
        SliceJoin(img, offset, n0, n - n0);
        OverlayJoin(o, 0, Slice(img, offset, n0), n0, Slice(img, offset + n0, n - n0));
        if !ok {
          return;
        }
        NextInChain(Fat(), geo.clusters, ch, k);
        SpanStep(geo.spc, k);
        skip := 0;
        cluster := NextOf(cluster);
        k := k + 1;
      }
    }

    /**
     * Reads up to `out.Length` bytes at `offset`: the bytes of the file at
     * that place, and all of them that exist unless the device failed.
     */
    method ReadFile(blk: Disk, first: nat, size: u32, offset: u32, out: array<byte>, ghost ch: seq<nat>)
      returns (n: nat)
      requires Valid() && OnDisk(blk.sectors, geo)
      requires FileChain(Fat(), geo.clusters, first, ch) && out != fat
      modifies out, blk`failed
      ensures InRange(geo, ch) && n <= out.Length
      ensures var end := Min(size, 512 * Span(geo.spc, |ch|));
              var want := if offset < end then Min(out.Length, end - offset) else 0;
              n <= want && (!blk.failed ==> n == want)
      ensures old(blk.failed) ==> blk.failed
      ensures n == 0 ==> out[..] == old(out[..])
      ensures n > 0 ==> && offset + n <= |Image(blk.sectors, geo, ch)|
                        && out[..] == Overlay(old(out[..]), 0, Slice(Image(blk.sectors, geo, ch), offset, n))
    {
      hide Image, Span, OnDisk, Chain, Slice, Overlay;
      n := 0;
      WalkStarts(geo, Fat(), first, ch);
      if offset >= size || out.Length == 0 {
        return;
      }
      var cluster, skip, k := SeekForRead(first, offset, ch);
      if cluster < 2 {
        return;
      }
      n := ReadChain(blk, cluster, skip, offset, out, Min(size - offset, out.Length), ch, k);
      OverlayNone(old(out[..]), 0);
      SliceJoin(Image(blk.sectors, geo, ch), offset, 0, 0);
    }

    /** The first live entry called `name`, searching up to the first empty slot. */
    method FindRoot(blk: Disk, name: seq<byte>) returns (r: Option<(nat, DirEntry)>)
      requires Valid() && OnDisk(blk.sectors, geo)
      modifies blk`failed
      ensures r.Some? ==>
                && r.value.0 < geo.rootEntries && RootReadable(blk.sectors, geo, r.value.0)
                && r.value.1 == EntryAt(blk.sectors, geo, r.value.0)
                && Live(r.value.1) && r.value.1.name == name
                && forall i :: 0 <= i < r.value.0 ==> PassedOver(blk.sectors, geo, name, i)
      ensures r.None? ==> blk.failed || Absent(blk.sectors, geo, name)
      ensures old(blk.failed) ==> blk.failed
    {
      hide DecodeEntry, Absent;
      for idx := 0 to geo.rootEntries
        invariant old(blk.failed) ==> blk.failed
        invariant forall i :: 0 <= i < idx ==> PassedOver(blk.sectors, geo, name, i)
      {
        RootInHeader(blk.sectors, geo, idx);
        var ok, sec := blk.ReadSector(geo.rootBase + idx / 16);
        if !ok {
          return None;
        }
        var e := DecodeEntry(sec[idx % 16 * 32..idx % 16 * 32 + 32]);
        assert e == EntryAt(blk.sectors, geo, idx);
        if IsEmpty(e) {
          AbsentAt(blk.sectors, geo, name, idx);
          return None;
        }
        if !IsDeleted(e) && !IsVolume(e) && e.name == name {
          return Some((idx, e));
        }
      }
      AbsentAt(blk.sectors, geo, name, geo.rootEntries);
      return None;
    }

    /** Enters an empty file in the first empty or deleted slot. */
    method CreateRootFile(blk: Disk, name: seq<byte>) returns (r: Option<nat>)
      requires Valid() && OnDisk(blk.sectors, geo) && |name| == 11
      modifies blk
      ensures r.None? ==> blk.sectors == old(blk.sectors)
      ensures r.None? ==> blk.failed || forall i :: 0 <= i < geo.rootEntries ==> Taken(blk.sectors, geo, i)
      ensures r.Some? ==>
                && r.value < geo.rootEntries && RootReadable(old(blk.sectors), geo, r.value)
                && (IsEmpty(EntryAt(old(blk.sectors), geo, r.value))
                   || IsDeleted(EntryAt(old(blk.sectors), geo, r.value)))
                && blk.sectors == StoreEntry(old(blk.sectors), geo, r.value, NewFile(name))
                && forall i :: 0 <= i < r.value ==> Taken(old(blk.sectors), geo, i)
      ensures old(blk.failed) ==> blk.failed
    {
      hide DecodeEntry, StoreEntry;
      for idx := 0 to geo.rootEntries
        invariant blk.sectors == old(blk.sectors) && (old(blk.failed) ==> blk.failed)
        invariant forall i :: 0 <= i < idx ==> Taken(blk.sectors, geo, i)
      {
        RootInHeader(blk.sectors, geo, idx);
        var ok, sec := blk.ReadSector(geo.rootBase + idx / 16);
        if !ok {
          return None;
        }
        var e := DecodeEntry(sec[idx % 16 * 32..idx % 16 * 32 + 32]);
        assert e == EntryAt(blk.sectors, geo, idx);
        if IsEmpty(e) || IsDeleted(e) {
          ok := WriteRootEntry(blk, idx, NewFile(name));
          return if ok then Some(idx) else None;
        }
      }
      return None;
    }
  }

  lemma AbsentAt(d: seq<Sector>, g: Geometry, name: seq<byte>, n: nat)
    requires n <= g.rootEntries && SearchEnds(d, g, name, n)
    ensures Absent(d, g, name)
  {
  }

  datatype MountResult = Mounted(fs: Fat16) | Rejected | Panics

  /** Reads the boot sector and the FAT. A FAT of 18 sectors or more runs the
      copy into the cache out of bounds. */
  method Mount(blk: Disk) returns (r: MountResult)
    modifies blk`failed
    ensures r.Rejected? ==>
              || blk.failed || |blk.sectors| == 0 || ParseBoot(blk.sectors[0]).None?
              || ParseBoot(blk.sectors[0]).value.fatBase + ParseBoot(blk.sectors[0]).value.fatSectors > |blk.sectors|
    ensures r.Mounted? ==>
              && |blk.sectors| > 0 && ParseBoot(blk.sectors[0]) == Some(r.fs.geo)
              && fresh(r.fs) && fresh(r.fs.fat) && r.fs.Valid()
              && r.fs.geo.fatSectors <= 17 && r.fs.geo.fatBase + r.fs.geo.fatSectors <= |blk.sectors|
              && r.fs.fat[..] == LoadedFat(blk.sectors, r.fs.geo)
    ensures r.Panics? ==>
              && |blk.sectors| > 0 && ParseBoot(blk.sectors[0]).Some?
              && ParseBoot(blk.sectors[0]).value.fatSectors >= 18
  {
    hide ParseBoot;
    var ok, bs := blk.ReadSector(0);
    if !ok {
      return Rejected;
    }
    var g := ParseBoot(bs);
    if g.None? {
      return Rejected;
    }
    var geo := g.value;
    var fs := new Fat16(geo);
    for i := 0 to geo.fatSectors
      invariant i <= 17 && (i > 0 ==> geo.fatBase + i <= |blk.sectors|)
      invariant forall p :: 0 <= p < fs.fat.Length ==>
                  fs.fat[p] == if p < 512 * i then blk.sectors[geo.fatBase + p / 512][p % 512] else 0
    {
      var sec;
      ok, sec := blk.ReadSector(geo.fatBase + i);
      if !ok {
        return Rejected;
      }
      var dst := 512 * i;
      if dst > fs.fat.Length {
        return Panics; // the room left in the table buffer would be negative
      }
      var n := Min(fs.fat.Length - dst, 512);
      for j := 0 to n
        invariant forall p :: 0 <= p < fs.fat.Length ==>
                    fs.fat[p] == if p < dst + j then blk.sectors[geo.fatBase + p / 512][p % 512] else 0
      {
        fs.fat[dst + j] := sec[j];
      }
    }
    r := Mounted(fs);
  }

  /** Mounting a volume whose FAT was flushed gives it back. */
  method Remount(blk: Disk, fs: Fat16) returns (r: MountResult)
    requires fs.Valid() && |blk.sectors| > 0 && ParseBoot(blk.sectors[0]) == Some(fs.geo)
    requires Flushed(blk.sectors, fs.geo, fs.fat[..])
    modifies blk`failed
    ensures r.Rejected? ==> blk.failed || fs.geo.fatBase + fs.geo.fatSectors > |blk.sectors|
    ensures r.Mounted? ==>
              && r.fs.Valid() && r.fs.geo == fs.geo && fresh(r.fs.fat)
              && (2 * fs.geo.clusters <= 512 * fs.geo.fatSectors ==>
                    r.fs.Fat()[..fs.geo.clusters] == fs.Fat()[..fs.geo.clusters])
    ensures r.Panics? ==> fs.geo.fatSectors >= 18
  {
    hide ParseBoot, LoadedFat;
    r := Mount(blk);
    if r.Mounted? && 2 * fs.geo.clusters <= 512 * fs.geo.fatSectors {
      RemountFat(blk.sectors, fs.geo, fs.fat[..]);
    }
  }

  /** A finished write, read back anywhere, shows the written file. */
  method WriteThenRead(fs: Fat16, blk: Disk, idx: nat, entry: DirEntry, offset: u32, data: seq<byte>, at: u32,
        out: array<byte>, ghost ch: seq<nat>)
    returns (r: Option<nat>, n: nat)
    requires fs.Valid() && OnDisk(blk.sectors, fs.geo) && idx < fs.geo.rootEntries && out != fs.fat
    requires ValidEntry(entry) && FileChain(fs.Fat(), fs.geo.clusters, entry.start, ch)
    requires InRange(fs.geo, ch) && offset <= entry.size <= 512 * Span(fs.geo.spc, |ch|)
    modifies fs.fat, blk, out
    ensures r.Some? ==>
              var file := Written(FileBytes(old(blk.sectors), fs.geo, ch, entry.size), offset, data);
              && n <= out.Length && (!blk.failed ==> n == if at < |file| then Min(out.Length, |file| - at) else 0)
              && (n > 0 ==> at + n <= |file| && out[..n] == Slice(file, at, n))
  {
    hide Image, Span, Flushed, EntryAt, OnDisk, ZeroFilled, GapIsZero, Grown, FileOnly, Chain, Full, Overlay, FileBytes,
        Reach, ClustersFor, HasRoom, FreeCount;
    n := 0;
    ghost var ch';
    var e;
    r, e, ch' := fs.WriteFile(blk, idx, entry, offset, data, ch);
    if r.Some? {
      ghost var o := out[..];
      n := fs.ReadFile(blk, e.start, e.size, at, out, ch');
      if n > 0 {
        ReadBack(blk.sectors, fs.geo, ch', e.size, at, n, o, out[..]);
      }
    }
  }
}
