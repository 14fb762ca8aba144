/**
 * What a mounted FAT16 volume means: cluster chains, the byte image of a
 * chain, the root directory, and the laws the file operations rest on.
 */
module FatSpec {
  import opened Bytes

  const SECTOR: nat := 512
  const MAX_CACHED_CLUSTERS: nat := 4096
  const MAX_ROOT_ENTRIES: nat := 512
  const FAT_EOC: u16 := 0xFFFF
  const FAT_FREE: u16 := 0

  type Sector = s: seq<byte> | |s| == 512 witness seq(512, _ => 0)

  /** Volume layout, as derived from the boot sector. */
  datatype Geometry = Geometry(
    spc: nat, // sectors per cluster
    fatBase: nat,
    fatSectors: nat,
    rootBase: nat,
    rootEntries: nat,
    dataBase: nat,
    clusters: nat) // clusters the cached FAT describes

  ghost predicate ValidGeometry(g: Geometry) {
    && 1 <= g.spc
    && g.fatBase + g.fatSectors <= g.rootBase
    && 32 * g.rootEntries <= SECTOR * (g.dataBase - g.rootBase)
    && g.rootEntries <= MAX_ROOT_ENTRIES
    && 2 <= g.clusters <= MAX_CACHED_CLUSTERS
    && g.dataBase + Span(g.spc, g.clusters) <= 0xFFFF
  }

  // ── Cluster chains ─────────────────────────────────────────────────────────

  type Fat = seq<u16>

  /** `ch` is a whole file chain of `f`: in range, without repetition, linked
      entry by entry and closed by an end-of-chain mark. */
  ghost predicate Chain(f: Fat, n: nat, ch: seq<nat>) {
    && n <= |f|
    && 0 < |ch|
    && (forall i :: 0 <= i < |ch| ==> 2 <= ch[i] < n)
    && (forall i, j :: 0 <= i < j < |ch| ==> ch[i] != ch[j])
    && (forall i :: 0 <= i < |ch| - 1 ==> f[ch[i]] == ch[i + 1])
    && f[ch[|ch| - 1]] >= 0xFFF8
  }

  /** The chain of a directory entry; an empty file has none. */
  ghost predicate FileChain(f: Fat, n: nat, start: nat, ch: seq<nat>) {
    if start == 0 then ch == [] else Chain(f, n, ch) && ch[0] == start
  }

  predicate Disjoint(a: seq<nat>, b: seq<nat>) {
    forall i, j :: 0 <= i < |a| && 0 <= j < |b| ==> a[i] != b[j]
  }

  /** One chain step, 0 at the end of the chain. */
  function NextCluster(f: Fat, c: nat): nat
    requires c < |f|
  {
    if f[c] >= 0xFFF8 || f[c] < 2 then 0 else f[c]
  }

  /** No cluster is free. */
  ghost predicate Full(f: Fat, n: nat) {
    n <= |f| && forall c :: 2 <= c < n ==> f[c] != FAT_FREE
  }

  /** Walking a chain visits exactly its clusters, and stops after the last. */
  lemma NextInChain(f: Fat, n: nat, ch: seq<nat>, k: nat)
    requires Chain(f, n, ch) && n <= MAX_CACHED_CLUSTERS
    requires k < |ch|
    ensures NextCluster(f, ch[k]) == if k + 1 < |ch| then ch[k + 1] else 0
  {
  }

  /** A start cluster has at most one chain: the FAT determines the file. */
  lemma {:induction false} ChainUnique(f: Fat, n: nat, a: seq<nat>, b: seq<nat>)
    requires Chain(f, n, a) && Chain(f, n, b) && n <= MAX_CACHED_CLUSTERS
    requires a[0] == b[0]
    ensures a == b
  {
    if |a| <= |b| {
      ChainPrefix(f, n, a, b, |a|);
      NextInChain(f, n, a, |a| - 1);
      NextInChain(f, n, b, |a| - 1);
    } else {
      ChainPrefix(f, n, b, a, |b|);
      NextInChain(f, n, a, |b| - 1);
      NextInChain(f, n, b, |b| - 1);
    }
  }

  lemma {:induction false} ChainPrefix(f: Fat, n: nat, a: seq<nat>, b: seq<nat>, k: nat)
    requires Chain(f, n, a) && Chain(f, n, b) && n <= MAX_CACHED_CLUSTERS
    requires a[0] == b[0] && k <= |a| <= |b|
    ensures a[..k] == b[..k]
  {
    if k >= 1 {
      ChainPrefix(f, n, a, b, k - 1);
      if k >= 2 {
        assert a[k - 2] == a[..k - 1][k - 2] == b[..k - 1][k - 2] == b[k - 2];
        assert f[a[k - 2]] == a[k - 1];
      }
      assert a[k - 1] == b[k - 1];
      assert a[..k] == a[..k - 1] + [a[k - 1]];
      assert b[..k] == b[..k - 1] + [b[k - 1]];
    }
  }

  // ── Allocation ─────────────────────────────────────────────────────────────

  /** The FAT after taking free cluster `c` and hanging it behind `prev` (0 = start a chain). */
  function Allocated(f: Fat, prev: nat, c: nat): (r: Fat)
    requires prev < |f| && c < |f| && c < 0xFFF8
    ensures |r| == |f|
  {
    var g := f[c := FAT_EOC];
    if prev == 0 then g else g[prev := c]
  }

  /** Free clusters in `[lo, n)`. */
  function FreeCount(f: Fat, lo: nat, n: nat): nat
    requires lo <= n <= |f|
  {
    if lo == n then 0 else FreeCount(f, lo, n - 1) + (if f[n - 1] == FAT_FREE then 1 else 0)
  }

  /** The free clusters in `[lo, n)`, lowest first. */
  ghost function FreeList(f: Fat, lo: nat, n: nat): (r: seq<nat>)
    requires lo <= n <= |f|
    ensures |r| == FreeCount(f, lo, n)
  {
    if lo == n then [] else FreeList(f, lo, n - 1) + if f[n - 1] == FAT_FREE then [n - 1] else []
  }

  /** `r` has the free clusters in `[lo, n)`, ascending, and no others. */
  ghost predicate FreeOnes(f: Fat, lo: nat, n: nat, r: seq<nat>)
    requires lo <= n <= |f|
  {
    && (forall i :: 0 <= i < |r| ==> lo <= r[i] < n && f[r[i]] == FAT_FREE)
    && (forall i, j :: 0 <= i < j < |r| ==> r[i] < r[j])
    && (forall c :: lo <= c < n && f[c] == FAT_FREE ==> c in r)
  }

  lemma FreeOnesMore(f: Fat, lo: nat, n: nat, q: seq<nat>)
    requires lo <= n < |f| && FreeOnes(f, lo, n, q) && f[n] == FAT_FREE
    ensures FreeOnes(f, lo, n + 1, q + [n])
  {
    var r := q + [n];
    assert r[|q|] == n;
    assert forall i :: 0 <= i < |q| ==> r[i] == q[i];
    forall c | lo <= c < n + 1 && f[c] == FAT_FREE ensures c in r {
      if c < n {
        var i :| 0 <= i < |q| && q[i] == c;
        assert r[i] == c;
      }
    }
  }

  lemma FreeOnesSame(f: Fat, lo: nat, n: nat, q: seq<nat>)
    requires lo <= n < |f| && FreeOnes(f, lo, n, q) && f[n] != FAT_FREE
    ensures FreeOnes(f, lo, n + 1, q)
  {
  }

  lemma {:induction false} FreeListIs(f: Fat, lo: nat, n: nat)
    requires lo <= n <= |f|
    ensures FreeOnes(f, lo, n, FreeList(f, lo, n))
  {
    if lo < n {
      var q := FreeList(f, lo, n - 1);
      FreeListIs(f, lo, n - 1);
      hide FreeOnes;
      if f[n - 1] == FAT_FREE {
        FreeOnesMore(f, lo, n - 1, q);
      } else {
        FreeOnesSame(f, lo, n - 1, q);
        assert q + [] == q;
      }
    }
  }

  /** Taking the lowest free cluster takes the head of the list. */
  lemma {:induction false} FreeListTake(f: Fat, f': Fat, lo: nat, n: nat, c: nat)
    requires lo <= c < n <= |f| == |f'|
    requires f[c] == FAT_FREE && f'[c] != FAT_FREE && forall b :: lo <= b < c ==> f[b] != FAT_FREE
    requires forall b :: lo <= b < n && b != c ==> (f[b] == FAT_FREE <==> f'[b] == FAT_FREE)
    ensures FreeList(f, lo, n) == [c] + FreeList(f', lo, n)
  {
    if c == n - 1 {
      FreeListNone(f, lo, c);
      FreeListNone(f', lo, c);
    } else {
      FreeListTake(f, f', lo, n - 1, c);
    }
  }

  lemma {:induction false} FreeListNone(f: Fat, lo: nat, n: nat)
    requires lo <= n <= |f| && forall b :: lo <= b < n ==> f[b] != FAT_FREE
    ensures FreeList(f, lo, n) == []
  {
    if lo < n {
      FreeListNone(f, lo, n - 1);
    }
  }

  lemma {:induction false} FreeCountUpdate(f: Fat, lo: nat, n: nat, c: nat, v: u16)
    requires lo <= n <= |f| && lo <= c < n
    ensures FreeCount(f[c := v], lo, n) ==
            FreeCount(f, lo, n) - (if f[c] == FAT_FREE then 1 else 0) + (if v == FAT_FREE then 1 else 0)
  {
    if c == n - 1 {
      FreeCountSame(f, f[c := v], lo, n - 1);
    } else {
      FreeCountUpdate(f, lo, n - 1, c, v);
    }
  }

  lemma {:induction false} FreeCountSame(f: Fat, g: Fat, lo: nat, n: nat)
    requires lo <= n <= |f| && |f| == |g|
    requires forall c :: lo <= c < n ==> f[c] == g[c]
    ensures FreeCount(f, lo, n) == FreeCount(g, lo, n)
  {
    if lo < n {
      FreeCountSame(f, g, lo, n - 1);
    }
  }

  /** No cluster of a chain is free. */
  lemma ChainIsAllocated(f: Fat, n: nat, ch: seq<nat>)
    requires Chain(f, n, ch)
    ensures forall i :: 0 <= i < |ch| ==> f[ch[i]] != FAT_FREE
  {
    forall i | 0 <= i < |ch| ensures f[ch[i]] != FAT_FREE {
      assert i < |ch| - 1 ==> f[ch[i]] == ch[i + 1];
    }
  }

  /** Extending a chain by a free cluster: the chain grows by it, every other
      chain stays a chain and stays disjoint, and one free cluster is gone. */
  lemma ExtendChain(f: Fat, n: nat, ch: seq<nat>, c: nat)
    requires n <= |f| && n <= MAX_CACHED_CLUSTERS
    requires ch == [] || Chain(f, n, ch)
    requires 2 <= c < n && f[c] == FAT_FREE
    ensures var prev := if ch == [] then 0 else ch[|ch| - 1];
            var g := Allocated(f, prev, c);
            && Chain(g, n, ch + [c])
            && FreeCount(g, 2, n) == FreeCount(f, 2, n) - 1
            && (forall o :: Chain(f, n, o) && Disjoint(o, ch) ==> Chain(g, n, o) && Disjoint(o, ch + [c]))
  {
    var prev := if ch == [] then 0 else ch[|ch| - 1];
    var f1 := f[c := FAT_EOC];
    var g := Allocated(f, prev, c);
    FreeCountUpdate(f, 2, n, c, FAT_EOC);
    if ch != [] {
      FreeCountUpdate(f1, 2, n, prev, c);
      ChainIsAllocated(f, n, ch);
    }
    forall o | Chain(f, n, o) && Disjoint(o, ch)
      ensures Chain(g, n, o) && Disjoint(o, ch + [c])
    {
      ChainIsAllocated(f, n, o);
      forall i | 0 <= i < |o| ensures g[o[i]] == f[o[i]] {
        assert ch != [] ==> ch[|ch| - 1] != o[i];
      }
    }
  }

  // ── Byte image of a chain ──────────────────────────────────────────────────

  /** First sector of a cluster. */
  function SectorOf(g: Geometry, c: nat): nat
    requires 2 <= c
  {
    g.dataBase + Span(g.spc, c - 2)
  }

  ghost predicate OnDisk(d: seq<Sector>, g: Geometry) {
    ValidGeometry(g) && g.dataBase + Span(g.spc, g.clusters) <= |d|
  }

  ghost predicate InRange(g: Geometry, ch: seq<nat>) {
    forall i :: 0 <= i < |ch| ==> 2 <= ch[i] < g.clusters
  }

  /** Sectors in `k` clusters: `k * spc`, by recurrence (see `SpanIsProduct`). */
  function Span(spc: nat, k: nat): nat {
    if k == 0 then 0 else Span(spc, k - 1) + spc
  }

  lemma {:induction false} SpanIsProduct(spc: nat, k: nat)
    ensures Span(spc, k) == k * spc
  {
    if k > 0 {
      SpanIsProduct(spc, k - 1);
      assert k * spc == (k - 1) * spc + spc;
    }
  }

  lemma {:induction false} SpanMono(spc: nat, k: nat, l: nat)
    requires k <= l
    ensures Span(spc, k) <= Span(spc, l)
    ensures k < l ==> Span(spc, k) + spc <= Span(spc, l)
    decreases l
  {
    if k < l {
      SpanMono(spc, k, l - 1);
    }
  }

  /** A cluster lies in the data area. */
  lemma ClusterExtent(g: Geometry, c: nat)
    requires 2 <= c < g.clusters
    ensures g.dataBase <= SectorOf(g, c)
    ensures SectorOf(g, c) + g.spc <= g.dataBase + Span(g.spc, g.clusters)
  {
    SpanMono(g.spc, c - 2, g.clusters);
  }

  lemma SectorThere(d: seq<Sector>, g: Geometry, c: nat, i: nat)
    requires OnDisk(d, g) && 2 <= c < g.clusters && i < g.spc
    ensures SectorOf(g, c) + i < |d|
  {
    ClusterExtent(g, c);
  }

  lemma ClustersApart(g: Geometry, b: nat, c: nat)
    requires 2 <= b < g.clusters && 2 <= c < g.clusters && b != c
    ensures SectorOf(g, b) + g.spc <= SectorOf(g, c) || SectorOf(g, c) + g.spc <= SectorOf(g, b)
  {
    SpanMono(g.spc, Min(b, c) - 2, Max(b, c) - 2);
  }

  /** The sectors of one cluster. */
  ghost function ClusterSectors(d: seq<Sector>, g: Geometry, c: nat): (r: seq<Sector>)
    requires OnDisk(d, g) && 2 <= c < g.clusters
    ensures |r| == g.spc
  {
    ClusterExtent(g, c);
    d[SectorOf(g, c)..SectorOf(g, c) + g.spc]
  }

  /** The sectors of a chain, in file order. */
  ghost function SectorImage(d: seq<Sector>, g: Geometry, ch: seq<nat>): (r: seq<Sector>)
    requires OnDisk(d, g) && InRange(g, ch)
    ensures |r| == Span(g.spc, |ch|)
  {
    if ch == [] then []
    else
      var k := |ch| - 1;
      SectorImage(d, g, ch[..k]) + ClusterSectors(d, g, ch[k])
  }

  /** The bytes held by a run of sectors. */
  ghost function Flat(ss: seq<Sector>): (r: seq<byte>)
    ensures |r| == 512 * |ss|
  {
    seq(512 * |ss|, p requires 0 <= p < 512 * |ss| => ss[p / 512][p % 512])
  }

  ghost function Image(d: seq<Sector>, g: Geometry, ch: seq<nat>): (r: seq<byte>)
    requires OnDisk(d, g) && InRange(g, ch)
    ensures |r| == 512 * Span(g.spc, |ch|)
  {
    Flat(SectorImage(d, g, ch))
  }

  /** The contents of a file: its chain's image cut at the recorded size. */
  ghost function FileBytes(d: seq<Sector>, g: Geometry, ch: seq<nat>, size: nat): (r: seq<byte>)
    requires OnDisk(d, g) && InRange(g, ch)
    requires size <= 512 * Span(g.spc, |ch|)
    ensures |r| == size
  {
    Image(d, g, ch)[..size]
  }

  /** What was read from the image inside the file is that slice of the file. */
  lemma ReadBack(d: seq<Sector>, g: Geometry, ch: seq<nat>, size: nat, at: nat, n: nat, o: seq<byte>, out: seq<byte>)
    requires OnDisk(d, g) && InRange(g, ch) && at + n <= size <= 512 * Span(g.spc, |ch|) && n <= |o|
    requires out == Overlay(o, 0, Slice(Image(d, g, ch), at, n))
    ensures |out| == |o| && out[..n] == Slice(FileBytes(d, g, ch, size), at, n)
  {
    hide Image, Span, Overlay, Slice;
    OverlayHead(o, Slice(Image(d, g, ch), at, n));
    SliceOfPrefix(Image(d, g, ch), size, at, n);
  }

  /** Patching `[s, s + |x|)` of sector `j` patches the flat image at `512 * j + s`. */
  lemma FlatPatch(ss: seq<Sector>, j: nat, s: nat, x: seq<byte>)
    requires j < |ss| && s + |x| <= 512
    ensures 512 * j + s + |x| <= |Flat(ss)|
    ensures |Overlay(ss[j], s, x)| == 512
    ensures var patched: Sector := Overlay(ss[j], s, x);
            Flat(ss[j := patched]) == Overlay(Flat(ss), 512 * j + s, x)
  {
  }

  /** Reading `[s, s + n)` of sector `j` reads the flat image at `512 * j + s`. */
  lemma FlatSlice(ss: seq<Sector>, j: nat, s: nat, n: nat)
    requires j < |ss| && s + n <= 512
    ensures 512 * j + s + n <= |Flat(ss)|
    ensures Flat(ss)[512 * j + s..512 * j + s + n] == ss[j][s..s + n]
  {
  }

  /** Sector `i` of the `k`-th cluster is sector `k * spc + i` of the image. */
  lemma {:induction false} SectorImageAt(d: seq<Sector>, g: Geometry, ch: seq<nat>, k: nat, i: nat)
    requires OnDisk(d, g) && InRange(g, ch)
    requires k < |ch| && i < g.spc
    ensures Span(g.spc, k) + i < Span(g.spc, |ch|)
    ensures SectorOf(g, ch[k]) + i < |d|
    ensures SectorImage(d, g, ch)[Span(g.spc, k) + i] == d[SectorOf(g, ch[k]) + i]
  {
    var l := |ch| - 1;
    ClusterExtent(g, ch[k]);
    if k < l {
      SectorImageAt(d, g, ch[..l], k, i);
    }
  }

  lemma ClusterWrite(d: seq<Sector>, g: Geometry, c: nat, i: nat, x: Sector, b: nat)
    requires OnDisk(d, g) && 2 <= c < g.clusters && 2 <= b < g.clusters && i < g.spc
    ensures SectorOf(g, c) + i < |d|
    ensures ClusterSectors(d[SectorOf(g, c) + i := x], g, b) ==
            if b == c then ClusterSectors(d, g, b)[i := x] else ClusterSectors(d, g, b)
  {
    ClusterExtent(g, c);
    ClusterExtent(g, b);
    if b != c {
      ClustersApart(g, b, c);
    }
  }

  lemma UpdateLeft<T>(a: seq<T>, b: seq<T>, k: nat, x: T)
    requires k < |a|
    ensures (a + b)[k := x] == a[k := x] + b
  {
  }

  lemma UpdateRight<T>(a: seq<T>, b: seq<T>, k: nat, x: T)
    requires k < |b|
    ensures (a + b)[|a| + k := x] == a + b[k := x]
  {
  }

  lemma ImageLast(d: seq<Sector>, g: Geometry, ch: seq<nat>)
    requires OnDisk(d, g) && InRange(g, ch) && ch != []
    ensures SectorImage(d, g, ch) == SectorImage(d, g, ch[..|ch| - 1]) + ClusterSectors(d, g, ch[|ch| - 1])
  {
  }

  /** Writing a sector of a cluster rewrites it in the image of a chain through that cluster. */
  lemma {:induction false} WriteInChain(d: seq<Sector>, g: Geometry, ch: seq<nat>, k: nat, i: nat, x: Sector)
    requires OnDisk(d, g) && InRange(g, ch)
    requires k < |ch| && i < g.spc
    requires forall a :: 0 <= a < |ch| && a != k ==> ch[a] != ch[k]
    ensures Span(g.spc, k) + i < Span(g.spc, |ch|)
    ensures SectorOf(g, ch[k]) + i < |d|
    ensures SectorImage(d[SectorOf(g, ch[k]) + i := x], g, ch) == SectorImage(d, g, ch)[Span(g.spc, k) + i := x]
  {
    hide SectorImage, ClusterSectors, Span, SectorOf;
    var l := |ch| - 1;
    SpanStep(g.spc, l);
    SectorThere(d, g, ch[k], i);
    ImageLast(d, g, ch);
    ImageLast(d[SectorOf(g, ch[k]) + i := x], g, ch);
    ClusterWrite(d, g, ch[k], i, x, ch[l]);
    var a, b := SectorImage(d, g, ch[..l]), ClusterSectors(d, g, ch[l]);
    if k < l {
      SpanMono(g.spc, k, l);
      WriteInChain(d, g, ch[..l], k, i, x);
      UpdateLeft(a, b, Span(g.spc, k) + i, x);
    } else {
      WriteOffChain(d, g, ch[..l], ch[k], i, x);
      UpdateRight(a, b, i, x);
    }
  }

  /** ... and does not show in the image of any chain that avoids the cluster. */
  lemma {:induction false} WriteOffChain(d: seq<Sector>, g: Geometry, o: seq<nat>, c: nat, i: nat, x: Sector)
    requires OnDisk(d, g) && InRange(g, o)
    requires 2 <= c < g.clusters && i < g.spc && c !in o
    ensures SectorOf(g, c) + i < |d|
    ensures SectorImage(d[SectorOf(g, c) + i := x], g, o) == SectorImage(d, g, o)
  {
    ClusterExtent(g, c);
    if o != [] {
      var l := |o| - 1;
      assert o[l] in o;
      WriteOffChain(d, g, o[..l], c, i, x);
      ClusterWrite(d, g, c, i, x, o[l]);
    }
  }

  /** Sectors outside the data area do not show in any image. */
  lemma {:induction false} ImageFrame(d: seq<Sector>, d': seq<Sector>, g: Geometry, ch: seq<nat>)
    requires OnDisk(d, g) && |d'| == |d| && InRange(g, ch)
    requires forall k :: g.dataBase <= k < |d| ==> d'[k] == d[k]
    ensures SectorImage(d', g, ch) == SectorImage(d, g, ch)
  {
    if ch != [] {
      var l := |ch| - 1;
      ImageFrame(d, d', g, ch[..l]);
      ClusterExtent(g, ch[l]);
      assert ClusterSectors(d', g, ch[l]) == ClusterSectors(d, g, ch[l]);
    }
  }

  // ── The cached FAT as bytes ────────────────────────────────────────────────

  /** The 16-bit little-endian entries of the cached FAT. */
  function DecodeFat(b: seq<byte>): (f: Fat)
    ensures |f| == |b| / 2
  {
    seq(|b| / 2, i requires 0 <= i < |b| / 2 => Le16(b[2 * i], b[2 * i + 1]))
  }

  /** What `flush_fat` stores in FAT sector `i`: the first `n` entries, zeros behind them. */
  function FlushedSector(b: seq<byte>, n: nat, i: nat): (s: Sector)
    requires 2 * n <= |b|
  {
    seq(512, j requires 0 <= j < 512 => if 512 * i + j < 2 * n then b[512 * i + j] else 0)
  }

  /** What `mount` loads into the cache: the FAT sectors, zeros behind them. */
  function LoadedFat(d: seq<Sector>, g: Geometry): (b: seq<byte>)
    requires g.fatBase + g.fatSectors <= |d|
    ensures |b| == 2 * MAX_CACHED_CLUSTERS
  {
    seq(2 * MAX_CACHED_CLUSTERS, p requires 0 <= p < 2 * MAX_CACHED_CLUSTERS =>
      if p < 512 * g.fatSectors then d[g.fatBase + p / 512][p % 512] else 0)
  }

  ghost predicate Flushed(d: seq<Sector>, g: Geometry, b: seq<byte>) {
    && g.fatBase + g.fatSectors <= |d|
    && 2 * g.clusters <= |b|
    && forall i :: 0 <= i < g.fatSectors ==> d[g.fatBase + i] == FlushedSector(b, g.clusters, i)
  }

  /** Mounting a flushed volume gives back a FAT entry exactly when the FAT
      sectors have room for it or it was free; so the whole FAT survives when
      the FAT sectors can hold all its entries. */
  lemma RemountEntry(d: seq<Sector>, g: Geometry, b: seq<byte>, c: nat)
    requires |b| == 2 * MAX_CACHED_CLUSTERS && Flushed(d, g, b)
    requires c < g.clusters <= MAX_CACHED_CLUSTERS
    ensures DecodeFat(LoadedFat(d, g))[c] == DecodeFat(b)[c]
            <==> 2 * c + 2 <= 512 * g.fatSectors || DecodeFat(b)[c] == FAT_FREE
  {
    var l := LoadedFat(d, g);
    forall p | 0 <= p < 2 * g.clusters ensures l[p] == if p < 512 * g.fatSectors then b[p] else 0 {
      if p < 512 * g.fatSectors {
        var i := p / 512;
        assert d[g.fatBase + i] == FlushedSector(b, g.clusters, i);
        assert 512 * i + p % 512 == p;
      }
    }
    assert l[2 * c] == if 2 * c < 512 * g.fatSectors then b[2 * c] else 0;
    assert l[2 * c + 1] == if 2 * c + 1 < 512 * g.fatSectors then b[2 * c + 1] else 0;
  }

  lemma RemountFat(d: seq<Sector>, g: Geometry, b: seq<byte>)
    requires |b| == 2 * MAX_CACHED_CLUSTERS && Flushed(d, g, b)
    requires g.clusters <= MAX_CACHED_CLUSTERS
    requires 2 * g.clusters <= 512 * g.fatSectors
    ensures DecodeFat(LoadedFat(d, g))[..g.clusters] == DecodeFat(b)[..g.clusters]
  {
    forall c | 0 <= c < g.clusters
      ensures DecodeFat(LoadedFat(d, g))[c] == DecodeFat(b)[c]
    {
      RemountEntry(d, g, b, c);
    }
  }

  // ── Root directory ─────────────────────────────────────────────────────────

  /** One 32-byte root entry; `meta` holds the reserved, time and date fields. */
  datatype DirEntry = DirEntry(name: seq<byte>, attr: byte, meta: seq<byte>, start: u16, size: u32)

  predicate ValidEntry(e: DirEntry) {
    |e.name| == 11 && |e.meta| == 14
  }

  predicate IsEmpty(e: DirEntry)
    requires ValidEntry(e)
  {
    e.name[0] == 0
  }

  predicate IsDeleted(e: DirEntry)
    requires ValidEntry(e)
  {
    e.name[0] == 0xE5
  }

  /** Volume-label bit set, directory bit clear. */
  predicate IsVolume(e: DirEntry) {
    (e.attr / 0x08) % 2 == 1 && (e.attr / 0x10) % 2 == 0
  }

  predicate Live(e: DirEntry)
    requires ValidEntry(e)
  {
    !IsEmpty(e) && !IsDeleted(e) && !IsVolume(e)
  }

  function EncodeEntry(e: DirEntry): (b: seq<byte>)
    requires ValidEntry(e)
    ensures |b| == 32
  {
    e.name + [e.attr] + e.meta
    + [e.start % 256, e.start / 256]
    + [e.size % 256, e.size / 0x100 % 256, e.size / 0x1_0000 % 256, e.size / 0x100_0000]
  }

  function DecodeEntry(b: seq<byte>): (e: DirEntry)
    requires |b| == 32
    ensures ValidEntry(e)
  {
    DirEntry(b[..11], b[11], b[12..26], Le16(b[26], b[27]),
             Le32(b[28], b[29], b[30], b[31]))
  }

  lemma DecodeEncodeEntry(e: DirEntry)
    requires ValidEntry(e)
    ensures DecodeEntry(EncodeEntry(e)) == e
  {
    var b := EncodeEntry(e);
    assert b[..11] == e.name && b[12..26] == e.meta;
    var s := e.size;
    assert s / 0x100 % 256 == s / 0x100 - 256 * (s / 0x1_0000);
    assert s / 0x1_0000 % 256 == s / 0x1_0000 - 256 * (s / 0x100_0000);
  }

  /** A freshly created file: no clusters, no bytes. */
  function NewFile(name: seq<byte>): DirEntry {
    DirEntry(name, 0x20, seq(14, _ => 0), 0, 0)
  }

  /** The stored bytes of root slot `idx`. */
  function Slot(d: seq<Sector>, g: Geometry, idx: nat): (b: seq<byte>)
    requires g.rootBase + idx / 16 < |d|
    ensures |b| == 32
  {
    d[g.rootBase + idx / 16][idx % 16 * 32..idx % 16 * 32 + 32]
  }

  function EntryAt(d: seq<Sector>, g: Geometry, idx: nat): (e: DirEntry)
    requires g.rootBase + idx / 16 < |d|
    ensures ValidEntry(e)
  {
    DecodeEntry(Slot(d, g, idx))
  }

  lemma RootInHeader(d: seq<Sector>, g: Geometry, idx: nat)
    requires OnDisk(d, g) && idx < g.rootEntries
    ensures g.rootBase + idx / 16 < g.dataBase <= |d|
  {
  }

  /** Slot `i` does not end the search for `name` and is not its entry. */
  ghost predicate PassedOver(d: seq<Sector>, g: Geometry, name: seq<byte>, i: nat) {
    g.rootBase + i / 16 < |d| && !IsEmpty(EntryAt(d, g, i))
        && !(Live(EntryAt(d, g, i)) && EntryAt(d, g, i).name == name)
  }

  /** A search of the root directory finds no entry called `name`. */
  ghost predicate Absent(d: seq<Sector>, g: Geometry, name: seq<byte>) {
    exists n :: 0 <= n <= g.rootEntries && SearchEnds(d, g, name, n)
  }

  ghost predicate SearchEnds(d: seq<Sector>, g: Geometry, name: seq<byte>, n: nat) {
    && (forall i :: 0 <= i < n ==> PassedOver(d, g, name, i))
    && (n < g.rootEntries ==> g.rootBase + n / 16 < |d| && IsEmpty(EntryAt(d, g, n)))
  }

  predicate Taken(d: seq<Sector>, g: Geometry, i: nat) {
    g.rootBase + i / 16 < |d| && !IsEmpty(EntryAt(d, g, i)) && !IsDeleted(EntryAt(d, g, i))
  }

  /** The disk after an entry is written back to its slot. */
  function StoreEntry(d: seq<Sector>, g: Geometry, idx: nat, e: DirEntry): (d': seq<Sector>)
    requires g.rootBase + idx / 16 < |d| && ValidEntry(e)
    ensures |d'| == |d|
  {
    var n := g.rootBase + idx / 16;
    var s: Sector := Overlay(d[n], idx % 16 * 32, EncodeEntry(e));
    d[n := s]
  }

  /** Storing an entry in its slot leaves every other slot as it was. */
  lemma SlotUpdate(d: seq<Sector>, g: Geometry, idx: nat, e: DirEntry, o: nat)
    requires OnDisk(d, g) && ValidEntry(e) && idx < g.rootEntries && o < g.rootEntries
    ensures g.rootBase + idx / 16 < |d| && g.rootBase + o / 16 < |d|
    ensures EntryAt(StoreEntry(d, g, idx, e), g, o) == if o == idx then e else EntryAt(d, g, o)
  {
    hide Overlay, EncodeEntry, DecodeEntry;
    RootInHeader(d, g, idx);
    RootInHeader(d, g, o);
    var n := g.rootBase + idx / 16;
    SlotOverlay(d[n], idx % 16, o % 16, EncodeEntry(e));
    if o == idx {
      DecodeEncodeEntry(e);
    }
  }

  lemma SlotOverlay(sec: Sector, i: nat, j: nat, x: seq<byte>)
    requires i < 16 && j < 16 && |x| == 32
    ensures Overlay(sec, i * 32, x)[j * 32..j * 32 + 32] == if i == j then x else sec[j * 32..j * 32 + 32]
  {
  }

  /** The whole volume is consistent: every live root entry owns a well-formed
      chain long enough for its size, and no two entries share a cluster. */
  ghost predicate DirectoryOk(d: seq<Sector>, f: Fat, g: Geometry, chains: seq<seq<nat>>) {
    && OnDisk(d, g)
    && |chains| == g.rootEntries
    && (forall i :: 0 <= i < g.rootEntries ==> SlotOk(d, f, g, i, chains[i]))
    && (forall i, j :: 0 <= i < j < g.rootEntries ==> Disjoint(chains[i], chains[j]))
  }

  ghost predicate SlotOk(d: seq<Sector>, f: Fat, g: Geometry, i: nat, ch: seq<nat>) {
    && g.rootBase + i / 16 < |d|
    && var e := EntryAt(d, g, i);
       if Live(e)
       then FileChain(f, g.clusters, e.start, ch) && e.size <= 512 * Span(g.spc, |ch|)
       else ch == []
  }

  // ── What file writes leave alone ───────────────────────────────────────────

  /** Between `d` and `d'` only clusters of `ch` changed: the header and the
      image of every chain disjoint from `ch` are the same. */
  ghost predicate OnlyTouches(d: seq<Sector>, d': seq<Sector>, g: Geometry, ch: seq<nat>) {
    && |d| == |d'| && OnDisk(d, g)
    && (forall s :: 0 <= s < g.dataBase ==> d'[s] == d[s])
    && (forall o :: InRange(g, o) && Disjoint(o, ch) ==> SectorImage(d', g, o) == SectorImage(d, g, o))
  }

  lemma TouchesNothing(d: seq<Sector>, g: Geometry, ch: seq<nat>)
    requires OnDisk(d, g)
    ensures OnlyTouches(d, d, g, ch)
  {
  }

  lemma TouchesMore(d: seq<Sector>, d': seq<Sector>, g: Geometry, ch: seq<nat>, ch': seq<nat>)
    requires OnlyTouches(d, d', g, ch) && ch <= ch'
    ensures OnlyTouches(d, d', g, ch')
  {
  }

  /** Touching `ch` and then a chain that extends it touches only the longer chain. */
  lemma TouchesThen(d: seq<Sector>, d1: seq<Sector>, d2: seq<Sector>, g: Geometry, ch: seq<nat>, ch2: seq<nat>)
    requires OnlyTouches(d, d1, g, ch) && ch <= ch2
    requires OnlyTouches(d1, d2, g, ch2)
    ensures OnlyTouches(d, d2, g, ch2)
  {
  }

  // ── Growing a file ─────────────────────────────────────────────────────────

  /** `f'` is `f` after the file `ch` grew to `ch'`: the lowest free clusters
      joined it in order, every other chain is intact and still disjoint from it. */
  ghost predicate Grown(f: Fat, f': Fat, n: nat, ch: seq<nat>, ch': seq<nat>) {
    && 2 <= n <= |f'| == |f| && ch <= ch'
    && (ch' != [] ==> Chain(f', n, ch'))
    && FreeList(f, 2, n) == ch'[|ch|..] + FreeList(f', 2, n)
    && (forall c :: 0 <= c < |f| && c !in ch' ==> f'[c] == f[c])
    && (forall i :: |ch| <= i < |ch'| ==> ch'[i] < |f| && f[ch'[i]] == FAT_FREE)
    && (forall o :: Chain(f, n, o) && Disjoint(o, ch) ==> Chain(f', n, o) && Disjoint(o, ch'))
  }

  lemma GrownByOne(f: Fat, n: nat, ch: seq<nat>, c: nat)
    requires n <= |f| && n <= MAX_CACHED_CLUSTERS
    requires ch == [] || Chain(f, n, ch)
    requires 2 <= c < n && f[c] == FAT_FREE && forall b :: 2 <= b < c ==> f[b] != FAT_FREE
    ensures Grown(f, Allocated(f, if ch == [] then 0 else ch[|ch| - 1], c), n, ch, ch + [c])
    ensures c !in ch
  {
    hide FreeList, FreeCount, Chain, Disjoint, Allocated;
    AllocatedTakes(f, n, ch, c);
    ExtendChain(f, n, ch, c);
    OneMore(ch, c);
  }

  lemma OneMore(ch: seq<nat>, c: nat)
    ensures ch <= ch + [c] && (ch + [c])[|ch|..] == [c] && (ch + [c])[|ch|] == c
  {
  }

  lemma AllocatedTakes(f: Fat, n: nat, ch: seq<nat>, c: nat)
    requires n <= |f| && n <= MAX_CACHED_CLUSTERS && (ch == [] || Chain(f, n, ch))
    requires 2 <= c < n && f[c] == FAT_FREE && forall b :: 2 <= b < c ==> f[b] != FAT_FREE
    ensures c !in ch && (ch != [] ==> ch[|ch| - 1] < n)
    ensures var g := Allocated(f, if ch == [] then 0 else ch[|ch| - 1], c);
      && FreeList(f, 2, n) == [c] + FreeList(g, 2, n)
      && forall b :: 0 <= b < |f| && b !in ch + [c] ==> g[b] == f[b]
  {
    hide FreeList, FreeCount;
    if ch != [] {
      ChainIsAllocated(f, n, ch);
      assert ch[|ch| - 1] in ch + [c];
    }
    FreeListTake(f, Allocated(f, if ch == [] then 0 else ch[|ch| - 1], c), 2, n, c);
  }

  lemma GrownThen(f: Fat, f1: Fat, f2: Fat, n: nat, a: seq<nat>, b: seq<nat>, c: seq<nat>)
    requires Grown(f, f1, n, a, b) && Grown(f1, f2, n, b, c)
    ensures Grown(f, f2, n, a, c)
  {
    hide FreeList, FreeCount, Chain, Disjoint;
    TailJoin(a, b, c);
    TookFree(f, f2, n, a, c);
    InLonger(b, c);
  }

  lemma TailJoin(a: seq<nat>, b: seq<nat>, c: seq<nat>)
    requires a <= b <= c
    ensures a <= c && c[|a|..] == b[|a|..] + c[|b|..]
  {
  }

  lemma InLonger(b: seq<nat>, c: seq<nat>)
    requires b <= c
    ensures forall x :: x in b ==> x in c
  {
    forall x | x in b ensures x in c {
      var i :| 0 <= i < |b| && b[i] == x;
      assert c[i] == x;
    }
  }

  /** What heads the free list was free. */
  lemma TookFree(f: Fat, f': Fat, n: nat, ch: seq<nat>, ch': seq<nat>)
    requires 2 <= n <= |f'| == |f| && ch <= ch' && FreeList(f, 2, n) == ch'[|ch|..] + FreeList(f', 2, n)
    ensures forall i :: |ch| <= i < |ch'| ==> ch'[i] < |f| && f[ch'[i]] == FAT_FREE
  {
    hide FreeList, FreeCount;
    FreeListIs(f, 2, n);
    var r := FreeList(f, 2, n);
    forall i | |ch| <= i < |ch'| ensures ch'[i] < |f| && f[ch'[i]] == FAT_FREE {
      assert r[i - |ch|] == ch'[|ch|..][i - |ch|] == ch'[i];
    }
  }

  lemma {:induction false} FullIsZero(f: Fat, n: nat)
    requires 2 <= n <= |f|
    ensures Full(f, n) <==> FreeCount(f, 2, n) == 0
  {
    if n > 2 {
      FullIsZero(f, n - 1);
    }
  }

  /** The clusters a file of `have` clusters and `free` free ones hold the bytes of the write. */
  predicate HasRoom(spc: nat, have: nat, free: nat, offset: nat, data: seq<byte>) {
    data == [] || offset + |data| <= 512 * Span(spc, have + free)
  }

  lemma GrownCount(f: Fat, f': Fat, n: nat, ch: seq<nat>, ch': seq<nat>)
    requires Grown(f, f', n, ch, ch')
    ensures 2 <= n <= |f'| == |f| && ch <= ch' && |ch| <= |ch'|
    ensures FreeCount(f', 2, n) + |ch'| == FreeCount(f, 2, n) + |ch|
  {
    hide Chain, Disjoint, FreeCount, FreeList;
  }

  /** The clusters a file has and may get, in the order in which it uses them. */
  ghost function Reach(f: Fat, n: nat, ch: seq<nat>): seq<nat>
    requires 2 <= n <= |f|
  {
    ch + FreeList(f, 2, n)
  }

  /** The file got no cluster that its bytes below `end` do not reach. */
  predicate NoSpare(spc: nat, have: nat, has: nat, end: nat) {
    have < has ==> 512 * Span(spc, has - 1) < end
  }

  /** How many clusters `end` bytes take. */
  function ClustersFor(spc: nat, end: nat): nat
    requires spc > 0
  {
    if end == 0 then 0 else if end <= 512 * spc then 1 else 1 + ClustersFor(spc, end - 512 * spc)
  }

  lemma {:induction false} ClustersHold(spc: nat, end: nat, k: nat)
    requires spc > 0
    ensures ClustersFor(spc, end) <= k <==> end <= 512 * Span(spc, k)
  {
    if k > 0 && end > 512 * spc {
      ClustersHold(spc, end - 512 * spc, k - 1);
    }
  }

  /** So the chain after a write is known before it. */
  lemma ChainIs(spc: nat, f: Fat, f': Fat, n: nat, ch: seq<nat>, ch': seq<nat>, end: nat)
    requires spc > 0 && Grown(f, f', n, ch, ch') && NoSpare(spc, |ch|, |ch'|, end) && end <= 512 * Span(spc, |ch'|)
    ensures 2 <= n <= |f| && ch' <= Reach(f, n, ch)
    ensures var k := Max(|ch|, ClustersFor(spc, end)); k == |ch'| && ch' == Reach(f, n, ch)[..k]
  {
    hide Span, FreeList, FreeCount, ClustersFor, Grown;
    GrownHead(f, f', n, ch, ch');
    ClustersHold(spc, end, |ch'|);
    if |ch| < |ch'| {
      ClustersHold(spc, end, |ch'| - 1);
    }
  }

  lemma GrownHead(f: Fat, f': Fat, n: nat, ch: seq<nat>, ch': seq<nat>)
    requires Grown(f, f', n, ch, ch')
    ensures 2 <= n <= |f| && ch <= ch' && ch' <= Reach(f, n, ch)
  {
    hide Chain, Disjoint, FreeList, FreeCount;
    HeadOf(ch, ch', FreeList(f', 2, n));
  }

  lemma HeadOf(ch: seq<nat>, ch': seq<nat>, rest: seq<nat>)
    requires ch <= ch'
    ensures ch' <= ch + (ch'[|ch|..] + rest)
  {
    assert ch + (ch'[|ch|..] + rest) == ch' + rest;
  }

  lemma ReachInRange(g: Geometry, f: Fat, ch: seq<nat>)
    requires 2 <= g.clusters <= |f| && InRange(g, ch)
    ensures InRange(g, Reach(f, g.clusters, ch))
  {
    hide FreeList, FreeCount;
    FreeListIs(f, 2, g.clusters);
    RangeJoin(g, f, ch, FreeList(f, 2, g.clusters));
  }

  lemma RangeJoin(g: Geometry, f: Fat, ch: seq<nat>, r: seq<nat>)
    requires 2 <= g.clusters <= |f| && InRange(g, ch) && FreeOnes(f, 2, g.clusters, r)
    ensures InRange(g, ch + r)
  {
    forall i | 0 <= i < |ch| + |r| ensures 2 <= (ch + r)[i] < g.clusters {
      if i < |ch| {
        assert (ch + r)[i] == ch[i];
      } else {
        assert (ch + r)[i] == r[i - |ch|];
      }
    }
  }

  /** What a grown chain holds fits the old one and the free clusters; all of it on a full volume. */
  lemma RoomFor(spc: nat, f: Fat, f': Fat, n: nat, ch: seq<nat>, ch': seq<nat>, end: nat)
    requires Grown(f, f', n, ch, ch')
    ensures 2 <= n <= |f| && ch <= ch'
    ensures end <= 512 * Span(spc, |ch'|) ==> end <= 512 * Span(spc, |ch| + FreeCount(f, 2, n))
    ensures Full(f', n) && end > 512 * Span(spc, |ch'|) ==> end > 512 * Span(spc, |ch| + FreeCount(f, 2, n))
  {
    hide Grown, Span, FreeCount, Full;
    GrownCount(f, f', n, ch, ch');
    SpanMono(spc, |ch'|, |ch| + FreeCount(f, 2, n));
    FullIsZero(f', n);
  }

  lemma GrownChain(f: Fat, f': Fat, n: nat, ch: seq<nat>, ch': seq<nat>)
    requires Grown(f, f', n, ch, ch') && ch' != []
    ensures Chain(f', n, ch') && ch <= ch'
  {
  }

  lemma GrownDistinct(f: Fat, f': Fat, n: nat, ch: seq<nat>, ch': seq<nat>, k: nat)
    requires Grown(f, f', n, ch, ch') && k < |ch'|
    ensures forall a :: 0 <= a < |ch'| && a != k ==> ch'[a] != ch'[k]
  {
  }

  /** Between `d` and `d'` exactly this happened: `x` was stored at byte `off` of the file on `ch`. */
  ghost predicate Wrote(d: seq<Sector>, d': seq<Sector>, g: Geometry, ch: seq<nat>, off: nat, x: seq<byte>) {
    && OnlyTouches(d, d', g, ch) && InRange(g, ch)
    && off + |x| <= |Image(d, g, ch)|
    && Image(d', g, ch) == Overlay(Image(d, g, ch), off, x)
  }

  lemma WroteFacts(d: seq<Sector>, d': seq<Sector>, g: Geometry, ch: seq<nat>, off: nat, x: seq<byte>)
    requires Wrote(d, d', g, ch, off, x)
    ensures OnDisk(d, g) && InRange(g, ch) && off + |x| <= |Image(d, g, ch)| == 512 * Span(g.spc, |ch|)
    ensures OnDisk(d', g) && Image(d', g, ch) == Overlay(Image(d, g, ch), off, x)
  {
  }

  lemma WroteNothing(d: seq<Sector>, g: Geometry, ch: seq<nat>, off: nat)
    requires OnDisk(d, g) && InRange(g, ch) && off <= 512 * Span(g.spc, |ch|)
    ensures Wrote(d, d, g, ch, off, [])
  {
    hide Image;
    OverlayNone(Image(d, g, ch), off);
  }

  /** Adjacent writes add up; an empty one changes nothing. */
  lemma WroteThen(d: seq<Sector>, d1: seq<Sector>, d2: seq<Sector>, g: Geometry, ch: seq<nat>, off: nat,
        x: seq<byte>, next: nat, y: seq<byte>)
    requires Wrote(d, d1, g, ch, off, x) && Wrote(d1, d2, g, ch, next, y)
    requires y == [] || next == off + |x|
    ensures Wrote(d, d2, g, ch, off, x + y)
  {
    hide Image, SectorImage, Overlay;
    TouchesThen(d, d1, d2, g, ch, ch);
    OverlayJoin(Image(d, g, ch), off, x, next, y);
  }

  /** A write to the file is the same write to the file plus one more cluster. */
  lemma WroteGrow(d: seq<Sector>, d': seq<Sector>, g: Geometry, ch: seq<nat>, c: nat, off: nat, x: seq<byte>)
    requires Wrote(d, d', g, ch, off, x)
    requires 2 <= c < g.clusters && c !in ch
    ensures Wrote(d, d', g, ch + [c], off, x)
  {
    hide Image, Flat, Overlay;
    ImageAppend(d, g, ch, c);
    ImageAppend(d', g, ch, c);
    TouchesMore(d, d', g, ch, ch + [c]);
    assert Disjoint([c], ch);
    SingleCluster(d, g, c);
    SingleCluster(d', g, c);
    OverlayAppend(Image(d, g, ch), Flat(ClusterSectors(d, g, c)), off, x);
  }

  /** One read-modify-write of sector `i` of the `k`-th cluster stores `x` in the file, and nothing else. */
  lemma SectorWrote(d: seq<Sector>, g: Geometry, ch: seq<nat>, k: nat, i: nat, s: nat, x: seq<byte>, sec: Sector)
    requires OnDisk(d, g) && InRange(g, ch)
    requires k < |ch| && i < g.spc && s + |x| <= 512
    requires forall a :: 0 <= a < |ch| && a != k ==> ch[a] != ch[k]
    requires SectorOf(g, ch[k]) + i < |d|
    requires sec == Overlay(d[SectorOf(g, ch[k]) + i], s, x)
    ensures Wrote(d, d[SectorOf(g, ch[k]) + i := sec], g, ch, 512 * (Span(g.spc, k) + i) + s, x)
  {
    hide SectorImage, Flat, Span, Overlay, SectorOf, OnlyTouches, InRange, OnDisk;
    SectorImageAt(d, g, ch, k, i);
    WriteInChain(d, g, ch, k, i, sec);
    FlatPatch(SectorImage(d, g, ch), Span(g.spc, k) + i, s, x);
    SectorWriteOthers(d, g, ch, k, i, sec);
  }

  /** A whole sector of new bytes hides what was there. */
  lemma WholeSector(a: Sector, b: Sector, s: nat, x: seq<byte>)
    requires s + |x| <= 512
    ensures s == 0 && |x| == 512 ==> Overlay(a, s, x) == Overlay(b, s, x)
  {
  }

  lemma SectorTouches(d: seq<Sector>, g: Geometry, ch: seq<nat>, k: nat, i: nat, sec: Sector)
    requires OnDisk(d, g) && InRange(g, ch) && k < |ch| && i < g.spc && SectorOf(g, ch[k]) + i < |d|
    ensures var d' := d[SectorOf(g, ch[k]) + i := sec]; OnlyTouches(d, d', g, ch) && OnDisk(d', g)
  {
    hide SectorImage, Span;
    SectorWriteOthers(d, g, ch, k, i, sec);
  }

  lemma SpanStep(spc: nat, k: nat)
    ensures Span(spc, 0) == 0 && Span(spc, k + 1) == Span(spc, k) + spc
  {
  }

  /** The walk stands at the `k`-th cluster, or past the end (cluster 0). */
  ghost predicate AtCluster(ch: seq<nat>, k: nat, cluster: nat) {
    if k < |ch| then ch[k] == cluster && cluster >= 2 else k == |ch| && cluster == 0
  }

  lemma WalkStarts(g: Geometry, f: Fat, start: nat, ch: seq<nat>)
    requires FileChain(f, g.clusters, start, ch)
    ensures InRange(g, ch) && AtCluster(ch, 0, start)
  {
  }

  /** Reading a sector of the `k`-th cluster reads the file there. */
  lemma SectorRead(d: seq<Sector>, g: Geometry, ch: seq<nat>, k: nat, i: nat, s: nat, n: nat)
    requires OnDisk(d, g) && InRange(g, ch)
    requires k < |ch| && i < g.spc && s + n <= 512
    ensures SectorOf(g, ch[k]) + i < |d|
    ensures 512 * (Span(g.spc, k) + i) + s + n <= |Image(d, g, ch)|
    ensures Slice(Image(d, g, ch), 512 * (Span(g.spc, k) + i) + s, n) == Slice(d[SectorOf(g, ch[k]) + i], s, n)
  {
    hide SectorImage, Flat, Span, SectorOf;
    SectorImageAt(d, g, ch, k, i);
    FlatSlice(SectorImage(d, g, ch), Span(g.spc, k) + i, s, n);
  }

  lemma SectorWriteOthers(d: seq<Sector>, g: Geometry, ch: seq<nat>, k: nat, i: nat, sec: Sector)
    requires OnDisk(d, g) && InRange(g, ch)
    requires k < |ch| && i < g.spc
    requires SectorOf(g, ch[k]) + i < |d|
    ensures OnlyTouches(d, d[SectorOf(g, ch[k]) + i := sec], g, ch)
  {
    var d' := d[SectorOf(g, ch[k]) + i := sec];
    ClusterExtent(g, ch[k]);
    forall o | InRange(g, o) && Disjoint(o, ch)
      ensures SectorImage(d', g, o) == SectorImage(d, g, o)
    {
      WriteOffChain(d, g, o, ch[k], i, sec);
    }
  }

  lemma SingleCluster(d: seq<Sector>, g: Geometry, c: nat)
    requires OnDisk(d, g) && 2 <= c < g.clusters
    ensures InRange(g, [c]) && SectorImage(d, g, [c]) == ClusterSectors(d, g, c)
  {
  }

  lemma ImageAppend(d: seq<Sector>, g: Geometry, ch: seq<nat>, c: nat)
    requires OnDisk(d, g) && InRange(g, ch) && 2 <= c < g.clusters
    ensures InRange(g, ch + [c])
    ensures Image(d, g, ch + [c]) == Image(d, g, ch) + Flat(ClusterSectors(d, g, c))
  {
  }

  /** The image of a grown chain starts with the image of the old one. */
  lemma {:induction false} ImagePrefix(d: seq<Sector>, g: Geometry, ch: seq<nat>, ch': seq<nat>)
    requires OnDisk(d, g) && InRange(g, ch') && ch <= ch'
    ensures InRange(g, ch)
    ensures Image(d, g, ch) <= Image(d, g, ch')
    decreases |ch'|
  {
    hide Image, SectorImage;
    assert forall i :: 0 <= i < |ch| ==> ch[i] == ch'[i];
    if |ch| < |ch'| {
      var l := |ch'| - 1;
      ImagePrefix(d, g, ch, ch'[..l]);
      ImageAppend(d, g, ch'[..l], ch'[l]);
      assert ch'[..l] + [ch'[l]] == ch';
    } else {
      assert ch == ch';
    }
  }

  /** An overlay on the chain image is the abstract write on the file it holds. */
  lemma OverlayMeansWrite(d: seq<Sector>, d': seq<Sector>, g: Geometry, ch: seq<nat>, ch': seq<nat>, size: nat,
        off: nat, data: seq<byte>)
    requires OnDisk(d, g) && OnDisk(d', g) && InRange(g, ch') && ch <= ch' && InRange(g, ch)
    requires off <= size <= 512 * Span(g.spc, |ch|)
    requires off + |data| <= |Image(d, g, ch')|
    requires Image(d', g, ch') == Overlay(Image(d, g, ch'), off, data)
    ensures Max(size, off + |data|) <= 512 * Span(g.spc, |ch'|)
    ensures FileBytes(d', g, ch', Max(size, off + |data|)) == Written(FileBytes(d, g, ch, size), off, data)
  {
    hide Image, Span, Overlay, Written, OnDisk, InRange;
    ImagePrefix(d, g, ch, ch');
    SpanMono(g.spc, |ch|, |ch'|);
    var a, b := Image(d, g, ch), Image(d, g, ch');
    OverlayIsWritten(a, b[|a|..], size, off, data);
    assert a + b[|a|..] == b;
  }

  /** A write past the end leaves a gap that shows whatever the clusters held before; it is the
      zero-filling write if and only if that was zeros. */
  lemma GapShowsOldDisk(d: seq<Sector>, d': seq<Sector>, g: Geometry, ch: seq<nat>, ch': seq<nat>, size: nat,
        off: nat, data: seq<byte>)
    requires OnDisk(d, g) && OnDisk(d', g) && InRange(g, ch') && ch <= ch' && InRange(g, ch)
    requires size <= 512 * Span(g.spc, |ch|) && off + |data| <= |Image(d, g, ch')|
    requires Image(d', g, ch') == Overlay(Image(d, g, ch'), off, data)
    ensures Max(size, off + |data|) <= 512 * Span(g.spc, |ch'|)
    ensures FileBytes(d', g, ch', Max(size, off + |data|)) == ZeroFilled(FileBytes(d, g, ch, size), off, data)
            <==> GapIsZero(Image(d, g, ch'), size, off)
  {
    hide Image, Span, Overlay, ZeroFilled, GapIsZero, OnDisk, InRange;
    ImagePrefix(d, g, ch, ch');
    SpanMono(g.spc, |ch|, |ch'|);
    var a, b := Image(d, g, ch), Image(d, g, ch');
    OverlayGap(a, b[|a|..], size, off, data);
    assert a + b[|a|..] == b;
  }

  /** The gap looks the same in any longer chain. */
  lemma GapInReach(d: seq<Sector>, g: Geometry, ch: seq<nat>, all: seq<nat>, size: nat, off: nat)
    requires OnDisk(d, g) && InRange(g, all) && InRange(g, ch) && ch <= all && off <= |Image(d, g, ch)|
    ensures off <= |Image(d, g, all)|
    ensures GapIsZero(Image(d, g, ch), size, off) <==> GapIsZero(Image(d, g, all), size, off)
  {
    hide Image, Span, OnDisk, InRange;
    ImagePrefix(d, g, ch, all);
  }

  // ── What a file write may change ───────────────────────────────────────────

  ghost predicate RootReadable(d: seq<Sector>, g: Geometry, idx: nat) {
    g.rootBase + idx / 16 < |d|
  }

  /** Between `d` and `d'` the sectors before the FAT, every root entry but
      `idx`, and the image of every chain disjoint from `ch` are the same. */
  ghost predicate FileOnly(d: seq<Sector>, d': seq<Sector>, g: Geometry, ch: seq<nat>, idx: nat) {
    && |d| == |d'| && OnDisk(d, g)
    && (forall s :: 0 <= s < g.fatBase ==> d'[s] == d[s])
    && (forall i :: 0 <= i < g.rootEntries && i != idx ==>
       RootReadable(d, g, i) && EntryAt(d', g, i) == EntryAt(d, g, i))
    && (forall o :: InRange(g, o) && Disjoint(o, ch) ==> SectorImage(d', g, o) == SectorImage(d, g, o))
  }

  lemma NoGrowth(f: Fat, n: nat, ch: seq<nat>)
    requires 2 <= n <= |f| && (ch == [] || Chain(f, n, ch))
    ensures Grown(f, f, n, ch, ch)
    ensures ch != [] ==> forall i :: 0 <= i < |ch| ==> 2 <= ch[i] < n
  {
  }

  lemma NothingWritten(d: seq<Sector>, g: Geometry, f: Fat, ch: seq<nat>, idx: nat)
    requires OnDisk(d, g) && idx < g.rootEntries && (ch == [] || Chain(f, g.clusters, ch))
    ensures FileOnly(d, d, g, ch, idx) && RootReadable(d, g, idx) && InRange(g, ch)
    ensures forall size, off :: 0 <= off <= size <= 512 * Span(g.spc, |ch|) ==>
              Written(FileBytes(d, g, ch, size), off, []) == FileBytes(d, g, ch, size)
  {
    hide SectorImage, EntryAt, FileBytes, Span;
    RootInHeader(d, g, idx);
  }

  lemma DataOnly(d: seq<Sector>, d': seq<Sector>, g: Geometry, ch: seq<nat>, idx: nat)
    requires OnlyTouches(d, d', g, ch) && idx < g.rootEntries
    ensures FileOnly(d, d', g, ch, idx) && RootReadable(d, g, idx) && RootReadable(d', g, idx)
    ensures EntryAt(d', g, idx) == EntryAt(d, g, idx)
  {
  }

  /** Flushing the FAT disturbs neither the directory nor the data area. */
  lemma FlushKeeps(d: seq<Sector>, d1: seq<Sector>, d2: seq<Sector>, g: Geometry, ch: seq<nat>, idx: nat)
    requires FileOnly(d, d1, g, ch, idx) && idx < g.rootEntries && InRange(g, ch)
    requires |d2| == |d1|
    requires forall s :: 0 <= s < |d1| && !(g.fatBase <= s < g.fatBase + g.fatSectors) ==> d2[s] == d1[s]
    ensures OnDisk(d1, g) && OnDisk(d2, g) && FileOnly(d, d2, g, ch, idx)
    ensures RootReadable(d1, g, idx) && RootReadable(d2, g, idx)
    ensures EntryAt(d2, g, idx) == EntryAt(d1, g, idx)
    ensures Image(d2, g, ch) == Image(d1, g, ch)
  {
    hide SectorImage, Flat;
    ImageFrame(d1, d2, g, ch);
    forall o | InRange(g, o) && Disjoint(o, ch)
      ensures SectorImage(d2, g, o) == SectorImage(d, g, o)
    {
      ImageFrame(d1, d2, g, o);
    }
  }

  /** Nor does storing a root entry disturb the FAT, the other entries or the data area. */
  lemma RootStoreKeeps(d: seq<Sector>, d1: seq<Sector>, g: Geometry, ch: seq<nat>, idx: nat, e: DirEntry, b: seq<byte>)
    requires FileOnly(d, d1, g, ch, idx) && idx < g.rootEntries && InRange(g, ch)
    requires ValidEntry(e) && Flushed(d1, g, b)
    ensures OnDisk(d1, g) && RootReadable(d1, g, idx)
    ensures var d2 := StoreEntry(d1, g, idx, e);
            && OnDisk(d2, g) && FileOnly(d, d2, g, ch, idx) && Flushed(d2, g, b)
            && RootReadable(d2, g, idx) && EntryAt(d2, g, idx) == e
            && Image(d2, g, ch) == Image(d1, g, ch)
  {
    hide SectorImage, Flat, EntryAt, FlushedSector;
    var d2 := StoreEntry(d1, g, idx, e);
    RootInHeader(d1, g, idx);
    ImageFrame(d1, d2, g, ch);
    forall o | InRange(g, o) && Disjoint(o, ch)
      ensures SectorImage(d2, g, o) == SectorImage(d, g, o)
    {
      ImageFrame(d1, d2, g, o);
    }
    SlotUpdate(d1, g, idx, e, idx);
    forall i | 0 <= i < g.rootEntries && i != idx
        ensures RootReadable(d, g, i) && EntryAt(d2, g, i) == EntryAt(d, g, i) {
      RootInHeader(d1, g, i);
      SlotUpdate(d1, g, idx, e, i);
    }
  }

  /** A position inside a chain's image fits the 32-bit size field. */
  lemma SizeBound(g: Geometry, f: Fat, ch: seq<nat>, pos: nat)
    requires ValidGeometry(g) && (ch == [] || Chain(f, g.clusters, ch)) && pos <= 512 * Span(g.spc, |ch|)
    ensures pos <= 0xFFFF * 512
  {
    if ch != [] {
      DistinctBound(ch, g.clusters);
    }
    SpanMono(g.spc, |ch|, g.clusters);
  }

  /** Distinct numbers below `n` are at most `n` many. */
  lemma DistinctBound(ch: seq<nat>, n: nat)
    requires forall i :: 0 <= i < |ch| ==> ch[i] < n
    requires forall i, j :: 0 <= i < j < |ch| ==> ch[i] != ch[j]
    ensures |ch| <= n
  {
    SeqSetSize(ch);
    SubsetSize(Elems(ch), Below(n));
  }

  ghost function Elems(ch: seq<nat>): set<nat> {
    set c | c in ch
  }

  ghost function Below(n: nat): (s: set<nat>)
    ensures |s| == n && forall c: nat :: c in s <==> c < n
  {
    if n == 0 then {} else Below(n - 1) + {n - 1}
  }

  lemma {:induction false} SeqSetSize(ch: seq<nat>)
    requires forall i, j :: 0 <= i < j < |ch| ==> ch[i] != ch[j]
    ensures |Elems(ch)| == |ch|
  {
    if ch != [] {
      var l := |ch| - 1;
      SeqSetSize(ch[..l]);
      assert Elems(ch) == Elems(ch[..l]) + {ch[l]};
    }
  }

  lemma {:induction false} SubsetSize<T>(a: set<T>, b: set<T>)
    requires a <= b
    ensures |a| <= |b|
  {
    assert b == a + (b - a);
  }

  /** A write to a live file, finished or not, leaves the directory consistent. */
  lemma WriteKeepsDirectory(d: seq<Sector>, d': seq<Sector>, f: Fat, f': Fat, g: Geometry, chains: seq<seq<nat>>,
        idx: nat, ch': seq<nat>, e: DirEntry)
    requires DirectoryOk(d, f, g, chains) && idx < g.rootEntries
    requires RootReadable(d, g, idx) && RootReadable(d', g, idx)
    requires Live(EntryAt(d, g, idx)) && Grown(f, f', g.clusters, chains[idx], ch')
    requires OnDisk(d', g) && FileOnly(d, d', g, ch', idx)
    requires ValidEntry(e) && FileChain(f', g.clusters, e.start, ch')
    requires EntryAt(d, g, idx).start != 0 ==> e.start == EntryAt(d, g, idx).start
    requires || EntryAt(d', g, idx) == EntryAt(d, g, idx)
             || (EntryAt(d', g, idx) == e && Live(e) && e.size <= 512 * Span(g.spc, |ch'|))
    ensures DirectoryOk(d', f', g, chains[idx := if EntryAt(d', g, idx).start == 0 then [] else ch'])
  {
    hide EntryAt, SectorImage, Span, Chain, Grown, Disjoint, SlotOk;
    var entry' := EntryAt(d', g, idx);
    var chains' := chains[idx := if entry'.start == 0 then [] else ch'];
    GrownCount(f, f', g.clusters, chains[idx], ch');
    SpanMono(g.spc, |chains[idx]|, |ch'|);
    forall i | 0 <= i < g.rootEntries ensures chains[i] == [] || Chain(f, g.clusters, chains[i]) {
      SlotChain(d, f, g, i, chains[i]);
    }
    forall i | 0 <= i < g.rootEntries ensures SlotOk(d', f', g, i, chains'[i]) {
      if i != idx {
        OthersApart(f, f', g, chains, idx, ch', i);
        OtherSlot(d, d', f, f', g, i, chains[i]);
      } else {
        OwnSlot(d, d', f, f', g, idx, chains[idx], ch', e);
      }
    }
    StayApart(f, f', g, chains, chains', idx, ch');
  }

  lemma SlotChain(d: seq<Sector>, f: Fat, g: Geometry, i: nat, ch: seq<nat>)
    requires SlotOk(d, f, g, i, ch)
    ensures ch == [] || Chain(f, g.clusters, ch)
  {
    hide Chain, EntryAt, Span;
  }

  lemma OtherSlot(d: seq<Sector>, d': seq<Sector>, f: Fat, f': Fat, g: Geometry, i: nat, ch: seq<nat>)
    requires SlotOk(d, f, g, i, ch) && |d'| == |d| && RootReadable(d, g, i) && EntryAt(d', g, i) == EntryAt(d, g, i)
    requires ch == [] || Chain(f', g.clusters, ch)
    ensures SlotOk(d', f', g, i, ch)
  {
    hide EntryAt, Span;
  }

  lemma OwnSlot(d: seq<Sector>, d': seq<Sector>, f: Fat, f': Fat, g: Geometry, idx: nat, ch: seq<nat>, ch': seq<nat>,
                e: DirEntry)
    requires SlotOk(d, f, g, idx, ch) && |d'| == |d| && RootReadable(d, g, idx) && Live(EntryAt(d, g, idx))
    requires Span(g.spc, |ch|) <= Span(g.spc, |ch'|) && FileChain(f', g.clusters, e.start, ch')
    requires EntryAt(d, g, idx).start != 0 ==> e.start == EntryAt(d, g, idx).start
    requires || EntryAt(d', g, idx) == EntryAt(d, g, idx)
             || (EntryAt(d', g, idx) == e && Live(e) && e.size <= 512 * Span(g.spc, |ch'|))
    ensures SlotOk(d', f', g, idx, if EntryAt(d', g, idx).start == 0 then [] else ch')
  {
    hide Chain, EntryAt, Span;
  }

  lemma StayApart(f: Fat, f': Fat, g: Geometry, chains: seq<seq<nat>>, chains': seq<seq<nat>>, idx: nat, ch': seq<nat>)
    requires |chains| == g.rootEntries && idx < g.rootEntries && Grown(f, f', g.clusters, chains[idx], ch')
    requires forall i :: 0 <= i < g.rootEntries ==> chains[i] == [] || Chain(f, g.clusters, chains[i])
    requires forall a, b :: 0 <= a < b < g.rootEntries ==> Disjoint(chains[a], chains[b])
    requires |chains'| == |chains| && chains' == chains[idx := chains'[idx]]
        && (chains'[idx] == [] || chains'[idx] == ch')
    ensures forall i, j :: 0 <= i < j < g.rootEntries ==> Disjoint(chains'[i], chains'[j])
  {
    hide Grown, Chain;
    forall i, j | 0 <= i < j < g.rootEntries ensures Disjoint(chains'[i], chains'[j]) {
      if i == idx {
        OthersApart(f, f', g, chains, idx, ch', j);
      } else if j == idx {
        OthersApart(f, f', g, chains, idx, ch', i);
      }
    }
  }

  lemma OthersApart(f: Fat, f': Fat, g: Geometry, chains: seq<seq<nat>>, idx: nat, ch': seq<nat>, i: nat)
    requires |chains| == g.rootEntries && idx < g.rootEntries && i < g.rootEntries && i != idx
    requires Grown(f, f', g.clusters, chains[idx], ch')
    requires chains[i] == [] || Chain(f, g.clusters, chains[i])
    requires forall a, b :: 0 <= a < b < g.rootEntries ==> Disjoint(chains[a], chains[b])
    ensures chains[i] == [] || Chain(f', g.clusters, chains[i])
    ensures Disjoint(chains[i], ch') && Disjoint(ch', chains[i])
  {
  }

  /** Filling a free slot with an empty file leaves the directory consistent. */
  lemma CreateKeepsDirectory(d: seq<Sector>, f: Fat, g: Geometry, chains: seq<seq<nat>>, idx: nat, e: DirEntry)
    requires DirectoryOk(d, f, g, chains) && idx < g.rootEntries && RootReadable(d, g, idx)
    requires !Live(EntryAt(d, g, idx)) && ValidEntry(e) && e.start == 0 && e.size == 0
    ensures DirectoryOk(StoreEntry(d, g, idx, e), f, g, chains)
  {
    hide EntryAt, StoreEntry, Span;
    var d' := StoreEntry(d, g, idx, e);
    forall i | 0 <= i < g.rootEntries ensures SlotOk(d', f, g, i, chains[i]) {
      assert SlotOk(d, f, g, i, chains[i]);
      SlotUpdate(d, g, idx, e, i);
    }
  }

  // ── Boot sector ────────────────────────────────────────────────────────────

  predicate PowerOfTwo(n: byte) {
    n in {1, 2, 4, 8, 16, 32, 64, 128}
  }

  /** The geometry `mount` derives from the boot sector, if it accepts it. */
  function ParseBoot(bs: Sector): (r: Option<Geometry>)
    ensures r.Some? ==> ValidGeometry(r.value) && 1 <= r.value.fatSectors
  {
    if bs[510] != 0x55 || bs[511] != 0xAA || Le16(bs[0x0B], bs[0x0C]) != 512 || !PowerOfTwo(bs[0x0D]) then None
    else
      var spc := bs[0x0D];
      var reserved := Le16(bs[0x0E], bs[0x0F]);
      var numFats := bs[0x10];
      var rootEntries := Le16(bs[0x11], bs[0x12]);
      var totalSectors := Le16(bs[0x13], bs[0x14]);
      var fatSectors := Le16(bs[0x16], bs[0x17]);
      if numFats == 0 || fatSectors == 0 || totalSectors == 0 then None
      else
        var rootSectors := (rootEntries * 32 + 511) / 512;
        var rootBase := reserved + numFats * fatSectors;
        var dataBase := rootBase + rootSectors;
        if dataBase >= totalSectors then None
        else
          var clusters := (totalSectors - dataBase) / spc;
          if clusters < 2 || clusters > MAX_CACHED_CLUSTERS then None
          else
            SpanIsProduct(spc, clusters);
            ProductAtLeast(numFats, fatSectors);
            QuotientFits(totalSectors - dataBase, spc);
            Some(Geometry(spc, reserved, fatSectors, rootBase, Min(rootEntries, MAX_ROOT_ENTRIES), dataBase, clusters))
  }

  /** Boot sector `bs` describes `g`: the signature and a sector size of 512, the FATs behind the reserved sectors,
      the root directory in as few sectors as hold its entries, and as many whole clusters as fit behind it. */
  predicate Describes(bs: Sector, g: Geometry) {
    var numFats, rootEntries, total := bs[16] as int, Word(bs, 17), Word(bs, 19);
    var room := g.dataBase - g.rootBase;
    && bs[510] == 0x55 && bs[511] == 0xAA && Word(bs, 11) == 512
    && g.spc == bs[13] && Doubling(g.spc)
    && g.fatBase == Word(bs, 14) && g.fatSectors == Word(bs, 22)
    && numFats >= 1 && g.fatSectors >= 1
    && g.rootBase == g.fatBase + numFats * g.fatSectors
    && 32 * rootEntries <= 512 * room < 32 * rootEntries + 512
    && g.rootEntries == (if rootEntries < 512 then rootEntries else 512)
    && g.dataBase < total && g.clusters * g.spc <= total - g.dataBase < g.clusters * g.spc + g.spc
    && 2 <= g.clusters <= 4096
  }

  /** The two bytes at `i`, the low one first. */
  function Word(bs: Sector, i: nat): nat
    requires i < 511
  {
    (bs[i] as int) + 256 * (bs[i + 1] as int)
  }

  function Doubled(k: nat): nat {
    if k == 0 then 1 else 2 * Doubled(k - 1)
  }

  predicate Doubling(n: int) {
    exists k :: 0 <= k < 8 && n == Doubled(k)
  }

  lemma Doubles(n: byte)
    ensures PowerOfTwo(n) <==> Doubling(n)
    ensures PowerOfTwo(n) ==> n > 0
  {
    assert Doubled(0) == 1 && Doubled(1) == 2 && Doubled(2) == 4 && Doubled(3) == 8;
    assert Doubled(4) == 16 && Doubled(5) == 32 && Doubled(6) == 64 && Doubled(7) == 128;
  }

  lemma Quotient(n: nat, d: nat, q: int)
    requires d > 0
    ensures q == n / d <==> q * d <= n < q * d + d
  {
    var k := n / d;
    assert k * d <= n < k * d + d;
    if q < k {
      ProductStep(q, k, d);
    } else if k < q {
      ProductStep(k, q, d);
    }
  }

  lemma ProductStep(a: int, b: int, d: nat)
    requires a < b
    ensures a * d + d <= b * d
  {
    var k: nat := b - a - 1;
    assert k * d >= 0;
    assert b * d == a * d + d + k * d;
  }

  /** Mounting accepts a boot sector exactly when it describes some volume, and takes that one. */
  lemma BootIs(bs: Sector, g: Geometry)
    ensures ParseBoot(bs) == Some(g) <==> Describes(bs, g)
  {
    if ParseBoot(bs) == Some(g) {
      BootDescribes(bs, g);
    }
    if Describes(bs, g) {
      BootParses(bs, g);
    }
  }

  lemma BootDescribes(bs: Sector, g: Geometry)
    requires ParseBoot(bs) == Some(g)
    ensures Describes(bs, g)
  {
    hide ValidGeometry, Span, PowerOfTwo, Doubling;
    Doubles(bs[13]);
    Quotient(Word(bs, 17) * 32 + 511, 512, g.dataBase - g.rootBase);
    Quotient(Word(bs, 19) - g.dataBase, g.spc, g.clusters);
  }

  lemma BootParses(bs: Sector, g: Geometry)
    requires Describes(bs, g)
    ensures ParseBoot(bs) == Some(g)
  {
    hide ValidGeometry, Span, PowerOfTwo, Doubling;
    Doubles(bs[13]);
    Quotient(Word(bs, 17) * 32 + 511, 512, g.dataBase - g.rootBase);
    Quotient(Word(bs, 19) - g.dataBase, g.spc, g.clusters);
    assert g.dataBase == g.rootBase + (Le16(bs[0x11], bs[0x12]) * 32 + 511) / 512;
    assert g.rootBase == Le16(bs[0x0E], bs[0x0F]) + bs[0x10] * Le16(bs[0x16], bs[0x17]);
    assert g.clusters == (Le16(bs[0x13], bs[0x14]) - g.dataBase) / bs[0x0D];
  }

  lemma ProductAtLeast(a: nat, b: nat)
    requires a > 0
    ensures b <= a * b
  {
  }

  lemma QuotientFits(a: nat, b: nat)
    requires b > 0
    ensures a / b * b <= a
  {
  }
}
