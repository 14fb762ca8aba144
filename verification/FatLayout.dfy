/** Where the volume keeps what: the bytes on the disk behind entries, FAT and files. */
module FatLayout {
  import opened Bytes
  import opened FatSpec

  /** Byte `p` behind the start of sector `base`. */
  function ByteAt(d: seq<Sector>, base: nat, p: nat): int
    requires base + p / 512 < |d|
  {
    d[base + p / 512][p % 512]
  }

  /** Root entry `idx` takes the 32 bytes from `32 * idx` on: eleven of name, the attributes, fourteen of
      times and dates, then the first cluster and the size, low bytes first. */
  lemma EntryOnDisk(d: seq<Sector>, g: Geometry, idx: nat)
    requires g.rootBase + idx / 16 < |d|
    ensures var e, at := EntryAt(d, g, idx), 32 * idx;
      && at / 512 == (at + 31) / 512 == idx / 16
      && (forall k :: 0 <= k < 11 ==> g.rootBase + (at + k) / 512 < |d| && e.name[k] == ByteAt(d, g.rootBase, at + k))
      && e.attr == ByteAt(d, g.rootBase, at + 11)
      && (forall k :: 0 <= k < 14 ==>
            g.rootBase + (at + 12 + k) / 512 < |d| && e.meta[k] == ByteAt(d, g.rootBase, at + 12 + k))
      && e.start == ByteAt(d, g.rootBase, at + 26) + 256 * ByteAt(d, g.rootBase, at + 27)
      && e.size == ByteAt(d, g.rootBase, at + 28) + 0x100 * ByteAt(d, g.rootBase, at + 29)
           + 0x1_0000 * ByteAt(d, g.rootBase, at + 30) + 0x100_0000 * ByteAt(d, g.rootBase, at + 31)
  {
    SlotBytes(d, g, idx);
    InSlot(idx, 0);
    InSlot(idx, 31);
    hide Slot;
    assert forall k :: 0 <= k < 11 ==> EntryAt(d, g, idx).name[k] == Slot(d, g, idx)[k];
    assert forall k :: 0 <= k < 14 ==> EntryAt(d, g, idx).meta[k] == Slot(d, g, idx)[12 + k];
  }

  lemma SlotBytes(d: seq<Sector>, g: Geometry, idx: nat)
    requires g.rootBase + idx / 16 < |d|
    ensures forall k :: 0 <= k < 32 ==>
      g.rootBase + (32 * idx + k) / 512 < |d| && Slot(d, g, idx)[k] == ByteAt(d, g.rootBase, 32 * idx + k)
  {
    forall k | 0 <= k < 32
      ensures g.rootBase + (32 * idx + k) / 512 < |d| && Slot(d, g, idx)[k] == ByteAt(d, g.rootBase, 32 * idx + k)
    {
      InSlot(idx, k);
    }
  }

  lemma InSlot(idx: nat, k: nat)
    requires k < 32
    ensures (32 * idx + k) / 512 == idx / 16 && (32 * idx + k) % 512 == idx % 16 * 32 + k
  {
    assert 32 * idx + k == 512 * (idx / 16) + (idx % 16 * 32 + k);
  }

  /** An entry counts unless its first byte is 0x00 or 0xE5 or it is a volume label. */
  lemma CountsIs(e: DirEntry)
    requires ValidEntry(e)
    ensures IsEmpty(e) <==> e.name[0] == 0x00
    ensures IsDeleted(e) <==> e.name[0] == 0xE5
    // Of the bits 0x08 and 0x10 only the first is set.
    ensures IsVolume(e) <==> 8 <= e.attr % 32 < 16
    ensures Live(e) <==> e.name[0] !in {0x00, 0xE5} && !(8 <= e.attr % 32 < 16)
  {
  }

  /** Byte `p` of a file lies in the cluster of its chain that covers it. */
  lemma ImageOnDisk(d: seq<Sector>, g: Geometry, ch: seq<nat>, j: nat, o: nat, base: int, p: int)
    requires OnDisk(d, g) && InRange(g, ch) && j < |ch| && o < 512 * g.spc
    requires base == g.dataBase + (ch[j] - 2) * g.spc && p == 512 * (j * g.spc) + o
    ensures 0 <= base && base + o / 512 < |d| && 0 <= p < |Image(d, g, ch)|
    ensures Image(d, g, ch)[p] == ByteAt(d, base, o)
  {
    hide Span, Image, OnDisk, ByteAt;
    ImageThere(d, g, ch, j, o);
    SpanIsProduct(g.spc, j);
    SpanIsProduct(g.spc, ch[j] - 2);
  }

  lemma ImageThere(d: seq<Sector>, g: Geometry, ch: seq<nat>, j: nat, o: nat)
    requires OnDisk(d, g) && InRange(g, ch) && j < |ch| && o < 512 * g.spc
    ensures 2 <= ch[j]
    ensures var base, p := g.dataBase + Span(g.spc, ch[j] - 2), 512 * Span(g.spc, j) + o;
      base + o / 512 < |d| && p < |Image(d, g, ch)| && Image(d, g, ch)[p] == ByteAt(d, base, o)
  {
    hide Span, SectorImage, ValidGeometry;
    SectorImageAt(d, g, ch, j, o / 512);
    Split(Span(g.spc, j), o);
  }

  lemma Split(k: nat, o: nat)
    ensures (512 * k + o) / 512 == k + o / 512 && (512 * k + o) % 512 == o % 512
  {
  }

  /** FAT entry `c` takes the two bytes from `2 * c` on, the low one first, in the cache after a mount ... */
  lemma LoadedOnDisk(d: seq<Sector>, g: Geometry, c: nat)
    requires g.fatBase + g.fatSectors <= |d| && c < 4096 && 2 * c < 512 * g.fatSectors
    ensures g.fatBase + (2 * c + 1) / 512 < |d|
    ensures DecodeFat(LoadedFat(d, g))[c] == ByteAt(d, g.fatBase, 2 * c) + 256 * ByteAt(d, g.fatBase, 2 * c + 1)
  {
  }

  /** ... and on the disk after a flush. */
  lemma FlushedOnDisk(d: seq<Sector>, g: Geometry, b: seq<byte>, c: nat)
    requires Flushed(d, g, b) && c < g.clusters && 2 * c < 512 * g.fatSectors
    ensures g.fatBase + (2 * c + 1) / 512 < |d|
    ensures DecodeFat(b)[c] == ByteAt(d, g.fatBase, 2 * c) + 256 * ByteAt(d, g.fatBase, 2 * c + 1)
  {
    FlushedByte(d, g, b, 2 * c);
    FlushedByte(d, g, b, 2 * c + 1);
    hide Flushed, ByteAt;
  }

  lemma FlushedByte(d: seq<Sector>, g: Geometry, b: seq<byte>, p: nat)
    requires Flushed(d, g, b) && p < 2 * g.clusters && p < 512 * g.fatSectors
    ensures g.fatBase + p / 512 < |d| && ByteAt(d, g.fatBase, p) == b[p]
  {
    assert d[g.fatBase + p / 512] == FlushedSector(b, g.clusters, p / 512);
  }
}
