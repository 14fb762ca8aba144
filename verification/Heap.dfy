/** The servers' first-fit heap: blocks that tile the frames claimed from the kernel. */
module Heap {
  import opened Bytes

  const HEADER := 16
  const BLOCK := 32
  const PAGE := 4096
  const INITIAL_PAGES := 16
  const GROW_PAGES := 16
  const MAX_PAGES := 256

  type Sizes = map<nat, nat>

  // ── Tiling ─────────────────────────────────────────────────────────────────

  /** Address `a` lies in block `b`. */
  predicate Inside(size: Sizes, b: nat, a: nat) {
    b in size && b <= a < b + size[b]
  }

  predicate Apart(size: Sizes, b: nat, c: nat) {
    b in size && c in size && (b + size[b] <= c || c + size[c] <= b)
  }

  predicate BlockOk(size: Sizes, b: nat) {
    b in size && b > 0 && b % 16 == 0 && size[b] % 16 == 0 && size[b] >= HEADER
  }

  predicate Claims(pages: set<nat>, a: nat) {
    a / PAGE in pages
  }

  ghost predicate In(blocks: set<nat>, size: Sizes, a: nat) {
    exists b :: b in blocks && Inside(size, b, a)
  }

  ghost predicate AllOk(blocks: set<nat>, size: Sizes) {
    forall b :: b in blocks ==> BlockOk(size, b)
  }

  ghost predicate Disjoint(blocks: set<nat>, size: Sizes) {
    forall b, c :: b in blocks && c in blocks && b != c ==> Apart(size, b, c)
  }

  ghost predicate Covered(blocks: set<nat>, size: Sizes, pages: set<nat>) {
    forall a: nat :: Claims(pages, a) <==> In(blocks, size, a)
  }

  /** The blocks are pairwise disjoint and cover exactly the claimed pages. */
  ghost predicate Tiled(blocks: set<nat>, size: Sizes, pages: set<nat>) {
    AllOk(blocks, size) && Disjoint(blocks, size) && Covered(blocks, size, pages)
  }

  /** Cutting a block in two. */
  lemma TileSplit(blocks: set<nat>, size: Sizes, size': Sizes, pages: set<nat>, b: nat, n: nat)
    requires Tiled(blocks, size, pages) && b in blocks && b in size && HEADER <= n && n + HEADER <= size[b]
        && n % 16 == 0
    requires size' == size[b + n := size[b] - n][b := n]
    ensures b + n !in blocks && Tiled(blocks + {b + n}, size', pages)
  {
    hide Covered, In;
    assert BlockOk(size, b);
    assert b + n in blocks ==> Apart(size, b, b + n);
    forall d | d in blocks + {b + n} ensures BlockOk(size', d) {
      if d != b && d != b + n {
        assert BlockOk(size, d);
      }
    }
    SplitApart(blocks, size, size', b, n);
    SplitCovered(blocks, size, size', pages, b, n);
  }

  lemma SplitApart(blocks: set<nat>, size: Sizes, size': Sizes, b: nat, n: nat)
    requires Disjoint(blocks, size) && b in blocks && b in size && n <= size[b] && b + n !in blocks
    requires AllOk(blocks, size) && size' == size[b + n := size[b] - n][b := n]
    ensures Disjoint(blocks + {b + n}, size')
  {
    hide AllOk;
    forall d, e | d in blocks + {b + n} && e in blocks + {b + n} && d != e ensures Apart(size', d, e) {
      OkSized(blocks, size, if d == b + n then b else d);
      OkSized(blocks, size, if e == b + n then b else e);
      var d0, e0 := if d == b + n then b else d, if e == b + n then b else e;
      assert d0 != e0 ==> Apart(size, d0, e0);
    }
  }

  lemma OkSized(blocks: set<nat>, size: Sizes, b: nat)
    requires AllOk(blocks, size) && b in blocks
    ensures b in size
  {
  }

  lemma SplitCovered(blocks: set<nat>, size: Sizes, size': Sizes, pages: set<nat>, b: nat, n: nat)
    requires Covered(blocks, size, pages) && b in blocks && b in size && n <= size[b] && b + n !in blocks
    requires size' == size[b + n := size[b] - n][b := n]
    ensures Covered(blocks + {b + n}, size', pages)
  {
    hide In;
    forall a: nat ensures In(blocks, size, a) <==> In(blocks + {b + n}, size', a) {
      SplitIn(blocks, size, size', b, n, a);
    }
  }

  lemma SplitIn(blocks: set<nat>, size: Sizes, size': Sizes, b: nat, n: nat, a: nat)
    requires b in blocks && b in size && n <= size[b] && b + n !in blocks
    requires size' == size[b + n := size[b] - n][b := n]
    ensures In(blocks, size, a) <==> In(blocks + {b + n}, size', a)
  {
    if d :| d in blocks && Inside(size, d, a) {
      var w := if d == b && a >= b + n then b + n else d;
      assert w in blocks + {b + n} && Inside(size', w, a);
    }
    if d :| d in blocks + {b + n} && Inside(size', d, a) {
      var w := if d == b + n then b else d;
      assert w in blocks && Inside(size, w, a);
    }
  }

  lemma MergeIn(blocks: set<nat>, size: Sizes, size': Sizes, b: nat, c: nat, a: nat)
    requires b in blocks && c in blocks && b in size && c in size && b != c && c == b + size[b]
        && size' == size[b := size[b] + size[c]]
    ensures In(blocks, size, a) <==> In(blocks - {c}, size', a)
  {
    if d :| d in blocks && Inside(size, d, a) {
      var w := if d == c then b else d;
      assert w in blocks - {c} && Inside(size', w, a);
    }
    if d :| d in blocks - {c} && Inside(size', d, a) {
      var w := if d == b && a >= c then c else d;
      assert Inside(size, w, a);
    }
  }

  /** Joining two blocks of which one ends where the other starts. */
  lemma TileMerge(blocks: set<nat>, size: Sizes, size': Sizes, pages: set<nat>, b: nat, c: nat)
    requires Tiled(blocks, size, pages) && b in blocks && c in blocks && b in size && c in size && c == b + size[b]
    requires size' == size[b := size[b] + size[c]]
    ensures b != c && Tiled(blocks - {c}, size', pages)
  {
    assert BlockOk(size, b) && BlockOk(size, c);
    assert AllOk(blocks - {c}, size');
    assert Disjoint(blocks - {c}, size') by {
      hide AllOk, Covered;
      forall d, e | d in blocks - {c} && e in blocks - {c} && d != e ensures Apart(size', d, e) {
        assert Apart(size, d, e);
        assert d != b ==> Apart(size, d, b) && Apart(size, d, c);
        assert e != b ==> Apart(size, e, b) && Apart(size, e, c);
      }
    }
    hide AllOk, Disjoint, In;
    forall a: nat ensures In(blocks, size, a) <==> In(blocks - {c}, size', a) {
      MergeIn(blocks, size, size', b, c, a);
    }
  }

  predicate PagesAt(page: nat, n: nat, p: nat) {
    page <= p < page + n
  }

  lemma ChunkApart(blocks: set<nat>, size: Sizes, pages: set<nat>, page: nat, n: nat, c: nat)
    requires Tiled(blocks, size, pages) && c in blocks && n > 0
    requires forall p :: PagesAt(page, n, p) ==> p !in pages
    ensures BlockOk(size, c) && (c + size[c] <= page * PAGE || page * PAGE + n * PAGE <= c)
  {
    assert BlockOk(size, c);
    if c + size[c] > page * PAGE && page * PAGE + n * PAGE > c {
      var a := Max(c, page * PAGE);
      assert Inside(size, c, a);
      assert In(blocks, size, a);
      assert Claims(pages, a);
      assert PagesAt(page, n, a / PAGE);
    }
  }

  lemma ChunkIn(blocks: set<nat>, size: Sizes, size': Sizes, page: nat, n: nat, a: nat)
    requires page * PAGE !in blocks && size' == size[page * PAGE := n * PAGE]
    ensures In(blocks + {page * PAGE}, size', a) <==> In(blocks, size, a) || PagesAt(page, n, a / PAGE)
  {
  }

  /** A new chunk of pages as one block. */
  lemma TileAdd(blocks: set<nat>, size: Sizes, size': Sizes, pages: set<nat>, pages': set<nat>, page: nat, n: nat)
    requires Tiled(blocks, size, pages) && page > 0 && n > 0 && size' == size[page * PAGE := n * PAGE]
    requires forall p :: p in pages' <==> p in pages || PagesAt(page, n, p)
    requires forall p :: PagesAt(page, n, p) ==> p !in pages
    ensures page * PAGE !in blocks && Tiled(blocks + {page * PAGE}, size', pages')
  {
    var b := page * PAGE;
    forall c | c in blocks ensures BlockOk(size, c) && (c + size[c] <= b || b + n * PAGE <= c) {
      ChunkApart(blocks, size, pages, page, n, c);
    }
    ChunkOk(size', page, n);
    hide In, PagesAt, Claims;
    AddOk(blocks, size, size', b, n * PAGE);
    forall a: nat ensures In(blocks + {b}, size', a) <==> In(blocks, size, a) || PagesAt(page, n, a / PAGE) {
      ChunkIn(blocks, size, size', page, n, a);
    }
    AddCover(blocks, size, size', pages, pages', page, n);
  }

  lemma ChunkOk(size: Sizes, page: nat, n: nat)
    requires page > 0 && n > 0 && page * PAGE in size && size[page * PAGE] == n * PAGE
    ensures BlockOk(size, page * PAGE)
  {
    Sixteens(page * 256);
    Sixteens(n * 256);
  }

  lemma Sixteens(k: nat)
    ensures k * 16 % 16 == 0
  {
  }

  lemma OkOf(blocks: set<nat>, size: Sizes, b: nat)
    requires AllOk(blocks, size) && b in blocks
    ensures BlockOk(size, b)
  {
  }

  lemma AddOk(blocks: set<nat>, size: Sizes, size': Sizes, b: nat, k: nat)
    requires AllOk(blocks, size) && Disjoint(blocks, size) && size' == size[b := k] && BlockOk(size', b)
    requires forall c :: c in blocks ==> c in size && (c + size[c] <= b || b + k <= c)
    ensures b !in blocks && AllOk(blocks + {b}, size') && Disjoint(blocks + {b}, size')
  {
  }

  lemma AddCover(blocks: set<nat>, size: Sizes, size': Sizes, pages: set<nat>, pages': set<nat>, page: nat, n: nat)
    requires Covered(blocks, size, pages) && forall p :: p in pages' <==> p in pages || PagesAt(page, n, p)
    requires forall a: nat :: In(blocks + {page * PAGE}, size', a) <==>
        In(blocks, size, a) || PagesAt(page, n, a / PAGE)
    ensures Covered(blocks + {page * PAGE}, size', pages')
  {
  }

  // ── The free list ──────────────────────────────────────────────────────────

  /** Element `i` of the list, null after its end. */
  function At(list: seq<nat>, i: nat): nat {
    if i < |list| then list[i] else 0
  }

  predicate LinkAt(next: map<nat, nat>, list: seq<nat>, i: nat) {
    i < |list| && list[i] != 0 && list[i] in next && next[list[i]] == At(list, i + 1)
  }

  ghost predicate NoRepeat(list: seq<nat>) {
    forall i, j :: 0 <= i < j < |list| ==> list[i] != list[j]
  }

  /** Following `next` from `head` gives `list`, which ends. */
  ghost predicate Linked(next: map<nat, nat>, head: nat, list: seq<nat>) {
    head == At(list, 0) && NoRepeat(list) && forall i :: 0 <= i < |list| ==> LinkAt(next, list, i)
  }

  ghost function Elems(list: seq<nat>): set<nat> {
    set b | b in list
  }

  function Without(list: seq<nat>, i: nat): seq<nat>
    requires i < |list|
  {
    list[..i] + list[i + 1..]
  }

  function With(list: seq<nat>, i: nat, b: nat): seq<nat>
    requires i <= |list|
  {
    list[..i] + [b] + list[i..]
  }

  /** Where a freed block goes: in front, or before the first later element that lies
      behind it in memory. */
  function Place(list: seq<nat>, block: nat): (i: nat)
    ensures i <= |list|
  {
    if list == [] || block < list[0] then 0 else PlaceFrom(list, block, 1)
  }

  function PlaceFrom(list: seq<nat>, block: nat, i: nat): (r: nat)
    requires i <= |list|
    ensures i <= r <= |list|
    decreases |list| - i
  {
    if i == |list| || list[i] >= block then i else PlaceFrom(list, block, i + 1)
  }

  /** Behind the head, the first element that does not lie in front of the block in memory. */
  lemma PlaceIs(list: seq<nat>, block: nat, i: nat)
    ensures i == Place(list, block) <==>
      if list == [] || block < list[0] then i == 0
      else 0 < i <= |list| && (i < |list| ==> block <= list[i]) && forall j :: 0 < j < i ==> list[j] < block
  {
    if list != [] && block >= list[0] {
      FirstBehind(list, block, 1);
      var r := Place(list, block);
      if 0 < i < r {
        assert list[i] < block;
      }
    }
  }

  lemma {:induction false} FirstBehind(list: seq<nat>, block: nat, i: nat)
    requires i <= |list|
    ensures var r := PlaceFrom(list, block, i);
      (r < |list| ==> block <= list[r]) && forall j :: i <= j < r ==> list[j] < block
    decreases |list| - i
  {
    if i < |list| && list[i] < block {
      FirstBehind(list, block, i + 1);
    }
  }

  ghost predicate Sorted(list: seq<nat>) {
    forall i, j :: 0 <= i < j < |list| ==> list[i] < list[j]
  }

  /** A list in the order of memory stays so, whatever block is freed into it. */
  lemma FreedSorted(list: seq<nat>, size: Sizes, block: nat)
    requires Sorted(list) && block in size && block !in list
    ensures Sorted(Freed(list, size, block))
  {
    var i := Place(list, block);
    PlaceIs(list, block, i);
    assert forall j :: 0 <= j < i ==> list[j] < block;
    assert forall j :: i <= j < |list| ==> block < list[j];
    hide Place;
    WithSorted(list, i, block);
  }

  lemma WithSorted(list: seq<nat>, i: nat, block: nat)
    requires Sorted(list) && i <= |list|
    requires (forall j :: 0 <= j < i ==> list[j] < block) && forall j :: i <= j < |list| ==> block < list[j]
    ensures Sorted(With(list, i, block)) && (i < |list| ==> Sorted(list[i := block]))
  {
    WithIndex(list, i, block);
  }

  /** The list after a free: the block in front of which the freed one goes is absorbed if it
      starts where the freed one ends, except at the head of the list. */
  function Freed(list: seq<nat>, size: Sizes, block: nat): seq<nat>
    requires block in size
  {
    var i := Place(list, block);
    if 0 < i < |list| && block + size[block] == list[i] then list[i := block] else With(list, i, block)
  }

  /** The list after `need` bytes were taken from element `i`. */
  function Carved(list: seq<nat>, size: Sizes, need: nat, i: nat): seq<nat>
    requires i < |list| && list[i] in size
  {
    if size[list[i]] >= need + BLOCK then list[i := list[i] + need] else Without(list, i)
  }

  /** A free block that starts where the freed block ends stays apart from it exactly when the
      freed block becomes the head, the last, or the predecessor of another block. */
  lemma JoinsNext(next: map<nat, nat>, head: nat, list: seq<nat>, size: Sizes, block: nat)
    requires Linked(next, head, list) && block in size && size[block] > 0 && block !in list
    ensures var end, i := block + size[block], Place(list, block);
      end in Freed(list, size, block) <==> end in list && (i == 0 || i == |list| || list[i] != end)
  {
    var end, i := block + size[block], Place(list, block);
    if 0 < i < |list| && list[i] == end {
      assert forall j :: 0 <= j < |list| && j != i ==> list[j] != end;
    } else {
      ElemsWith(list, i, block);
      assert end in Elems(With(list, i, block)) <==> end in Elems(list);
    }
  }

  /** A block freed in front of the whole list. */
  lemma HeadStaysApart()
    ensures Freed([66560], map[65536 := 1024, 66560 := 64512], 65536) == [65536, 66560]
  {
    assert [][..0] + [65536] + [66560][0..] == [65536, 66560];
  }

  /** A block freed between two blocks of a list that is not sorted, because a later chunk with
      higher addresses was put in front. */
  lemma UnsortedStaysApart()
    ensures var size := map[65536 := 1024, 66560 := 1024, 67584 := 63488, 131072 := 4096, 135168 := 61440];
      Freed([65536, 135168, 67584], size, 66560) == [65536, 66560, 135168, 67584]
  {
    var list := [65536, 135168, 67584];
    assert Place(list, 66560) == 1;
    assert With(list, 1, 66560) == [65536, 66560, 135168, 67584];
  }

  /** That state is a heap: two chunks of 16 pages, tiled by the three free and two live blocks. */
  lemma UnsortedIsHeap(pages: set<nat>)
    requires forall p :: p in pages <==> 16 <= p < 48
    ensures var size := map[65536 := 1024, 66560 := 1024, 67584 := 63488, 131072 := 4096, 135168 := 61440];
      && Tiled({65536, 66560, 67584, 131072, 135168}, size, pages)
      && Linked(map[65536 := 135168, 135168 := 67584, 67584 := 0], 65536, [65536, 135168, 67584])
  {
    var size := map[65536 := 1024, 66560 := 1024, 67584 := 63488, 131072 := 4096, 135168 := 61440];
    var blocks := {65536, 66560, 67584, 131072, 135168};
    forall a: nat ensures Claims(pages, a) <==> In(blocks, size, a) {
      if 65536 <= a < 66560 {
        assert Inside(size, 65536, a);
      } else if 66560 <= a < 67584 {
        assert Inside(size, 66560, a);
      } else if 67584 <= a < 131072 {
        assert Inside(size, 67584, a);
      } else if 131072 <= a < 135168 {
        assert Inside(size, 131072, a);
      } else if 135168 <= a < 196608 {
        assert Inside(size, 135168, a);
      }
    }
  }

  /** Element `i` is the first of at least `need` bytes. */
  predicate FitsFirst(list: seq<nat>, size: Sizes, need: nat, i: nat) {
    && i < |list| && list[i] in size && size[list[i]] >= need
    && forall j :: 0 <= j < i ==> list[j] in size && size[list[j]] < need
  }

  /** `list'` is `list` with whole chunks put in front. */
  ghost predicate Fronted(list: seq<nat>, size: Sizes, list': seq<nat>, size': Sizes) {
    && |list| <= |list'| && list'[|list'| - |list|..] == list
    && (forall j :: 0 <= j < |list'| - |list| ==> list'[j] % PAGE == 0)
    && (forall b :: b in list ==> b in size && b in size' && size'[b] == size[b])
  }

  lemma FrontedByNone(list: seq<nat>, size: Sizes)
    requires forall j :: 0 <= j < |list| ==> list[j] in size
    ensures Fronted(list, size, list, size)
  {
  }

  lemma FrontedByOne(list: seq<nat>, size: Sizes, b: nat, n: nat)
    requires b !in list && b % PAGE == 0 && forall j :: 0 <= j < |list| ==> list[j] in size
    ensures Fronted(list, size, [b] + list, size[b := n])
  {
  }

  lemma FrontedThen(l0: seq<nat>, s0: Sizes, l1: seq<nat>, s1: Sizes, l2: seq<nat>, s2: Sizes)
    requires Fronted(l0, s0, l1, s1) && Fronted(l1, s1, l2, s2)
    ensures Fronted(l0, s0, l2, s2)
  {
    var m, k := |l2| - |l1|, |l1| - |l0|;
    assert l2[m + k..] == l2[m..][k..];
    forall j | 0 <= j < m + k ensures l2[j] % PAGE == 0 {
      if j >= m {
        assert l2[j] == l2[m..][j - m];
      }
    }
    forall b | b in l0 ensures b in s2 && s2[b] == s0[b] {
      var j :| 0 <= j < |l0| && l0[j] == b;
      assert l1[k..][j] == l1[k + j];
    }
  }

  /** When no block of the list fits, the block that does is a whole chunk put in front. */
  lemma FrontedFit(list: seq<nat>, size: Sizes, list': seq<nat>, size': Sizes, need: nat, i: nat)
    requires Fronted(list, size, list', size') && i < |list'| && list'[i] in size' && size'[list'[i]] >= need
    requires forall j :: 0 <= j < |list| ==> list[j] in size && size[list[j]] < need
    ensures list'[i] % PAGE == 0
  {
    TailAt(list', |list'| - |list|, i);
  }

  lemma TailAt(list: seq<nat>, m: nat, i: nat)
    requires m <= |list| && i < |list|
    ensures i >= m ==> list[m..][i - m] == list[i]
  {
  }

  lemma WholePage(page: nat)
    ensures page * PAGE % PAGE == 0
  {
  }

  /** Behind the header of a block at a page boundary nothing is aligned to more than 16. */
  lemma NeverWide(b: nat, align: nat)
    requires b % PAGE == 0 && align > 0 && align % 32 == 0
    ensures (b + HEADER) % 32 == 16 && (b + HEADER) % align != 0
  {
    var q := b / PAGE;
    Thirtytwo(128 * q);
    if (b + HEADER) % align == 0 {
      var a, m := align / 32, (b + HEADER) / align;
      assert b + HEADER == 32 * a * m;
      Factor(a, m);
      assert false;
    }
  }

  lemma Thirtytwo(k: nat)
    ensures (32 * k + HEADER) % 32 == 16
  {
  }

  lemma Factor(a: nat, m: nat)
    ensures 32 * a * m % 32 == 0
  {
    assert 32 * a * m == 32 * (a * m);
    Times(a * m);
  }

  lemma Times(k: nat)
    ensures 32 * k % 32 == 0
  {
  }

  lemma ElemsOf(next: map<nat, nat>, head: nat, list: seq<nat>, i: nat, b: nat)
    requires Linked(next, head, list) && i < |list|
    ensures Elems(Without(list, i)) == Elems(list) - {list[i]}
    ensures Elems(list[i := b]) == Elems(list) - {list[i]} + {b}
  {
    forall x | x in Elems(list) - {list[i]} ensures x in Without(list, i) && x in list[i := b] {
      var j :| 0 <= j < |list| && list[j] == x;
      assert j < i ==> Without(list, i)[j] == x;
      assert j > i ==> Without(list, i)[j - 1] == x;
      assert list[i := b][j] == x;
    }
    assert list[i := b][i] == b;
  }

  lemma ElemsWith(list: seq<nat>, i: nat, b: nat)
    requires i <= |list|
    ensures Elems(With(list, i, b)) == Elems(list) + {b}
  {
  }

  lemma NonNull(next: map<nat, nat>, head: nat, list: seq<nat>)
    requires Linked(next, head, list)
    ensures forall i :: 0 <= i < |list| ==> list[i] != 0
  {
    forall i | 0 <= i < |list| ensures list[i] != 0 {
      assert LinkAt(next, list, i);
    }
  }

  lemma Mapped(next: map<nat, nat>, head: nat, list: seq<nat>)
    requires Linked(next, head, list)
    ensures forall i :: 0 <= i < |list| ==> list[i] in next
    ensures NoRepeat(list)
  {
    forall i | 0 <= i < |list| ensures list[i] in next {
      assert LinkAt(next, list, i);
    }
  }

  lemma Sized(blocks: set<nat>, size: Sizes, pages: set<nat>)
    requires Tiled(blocks, size, pages)
    ensures forall b :: b in blocks ==> b in size
  {
  }

  lemma SplitElems(next: map<nat, nat>, head: nat, list: seq<nat>, live: set<nat>, i: nat, rest: nat)
    requires Linked(next, head, list) && Elems(list) !! live && i < |list| && rest !in Elems(list) + live
    ensures Elems(list[i := rest]) + (live + {list[i]}) == Elems(list) + live + {rest}
    ensures Elems(list[i := rest]) !! live + {list[i]} && rest !in list && list[i] !in live
  {
    ElemsOf(next, head, list, i, rest);
    assert list[i] in Elems(list);
  }

  /** Unlinking element `i`; its own link no longer matters. */
  lemma Unlink(next: map<nat, nat>, next': map<nat, nat>, head: nat, list: seq<nat>, i: nat)
    requires Linked(next, head, list) && i < |list|
    requires forall j :: 0 <= j < |list| && j != i ==>
               list[j] in next' && list[j] in next
                   && next'[list[j]] == if j == i - 1 then At(list, i + 1) else next[list[j]]
    ensures Linked(next', if i == 0 then At(list, 1) else head, Without(list, i))
  {
    var l := Without(list, i);
    assert forall j :: 0 <= j < i ==> l[j] == list[j];
    assert forall j :: i <= j < |l| ==> l[j] == list[j + 1];
    hide Without;
    forall j | 0 <= j < |l| ensures LinkAt(next', l, j) {
      assert LinkAt(next, list, if j < i then j else j + 1);
    }
  }

  /** Putting `b` in the place of element `i`. */
  lemma Relink(next: map<nat, nat>, next': map<nat, nat>, head: nat, list: seq<nat>, i: nat, b: nat)
    requires Linked(next, head, list) && i < |list| && b != 0 && b !in list
    requires next' == if i == 0 then next[b := At(list, i + 1)][list[i] := 0]
                      else next[b := At(list, i + 1)][list[i] := 0][list[i - 1] := b]
    ensures Linked(next', if i == 0 then b else head, list[i := b])
  {
    var l := list[i := b];
    forall j | 0 <= j < |l| ensures LinkAt(next', l, j) {
      assert LinkAt(next, list, j);
    }
  }

  lemma WithIndex(list: seq<nat>, i: nat, b: nat)
    requires i <= |list| && NoRepeat(list) && b !in list
    ensures var l := With(list, i, b);
      && l[i] == b && (forall j :: 0 <= j < i ==> l[j] == list[j]) && (forall j :: i < j < |l| ==> l[j] == list[j - 1])
      && NoRepeat(l)
  {
  }

  /** Linking `b` in front of element `i`. */
  lemma LinkIn(next: map<nat, nat>, next': map<nat, nat>, head: nat, list: seq<nat>, i: nat, b: nat)
    requires Linked(next, head, list) && i <= |list| && b != 0 && b !in list
    requires next' == if i == 0 then next[b := At(list, 0)] else next[b := At(list, i)][list[i - 1] := b]
    ensures Linked(next', if i == 0 then b else head, With(list, i, b))
  {
    var l := With(list, i, b);
    WithIndex(list, i, b);
    assert |l| == |list| + 1;
    hide With;
    forall j | 0 <= j < |l| ensures LinkAt(next', l, j) {
      if j != i { assert LinkAt(next, list, if j < i then j else j - 1); }
    }
  }

  // ── The heap ───────────────────────────────────────────────────────────────

  function RunOf(page: nat, n: nat): (r: set<nat>)
    ensures forall p :: p in r <==> PagesAt(page, n, p)
  {
    if n == 0 then {} else RunOf(page, n - 1) + {page + n - 1}
  }

  lemma {:induction false} RunCount(pages: set<nat>, pages': set<nat>, page: nat, n: nat)
    requires forall p :: p in pages' <==> p in pages || PagesAt(page, n, p)
    requires forall p :: PagesAt(page, n, p) ==> p !in pages
    ensures |pages'| == |pages| + n
  {
    if n == 0 {
      assert pages' == pages;
    } else {
      var rest := pages' - {page + n - 1};
      assert PagesAt(page, n, page + n - 1);
      assert forall p :: PagesAt(page, n - 1, p) ==> PagesAt(page, n, p);
      assert forall p :: p in rest <==> p in pages || PagesAt(page, n - 1, p);
      RunCount(pages, rest, page, n - 1);
    }
  }

  /** The kernel's frames, which hands out runs nobody holds. */
  class Kernel {
    var taken: set<nat>
    ghost var refused: nat

    /** The first page of a run of `n`, or zero. */
    method AllocFrames(n: nat) returns (page: nat)
      modifies this
      ensures page == 0 ==> taken == old(taken) && refused == old(refused) + 1
      ensures page != 0 ==> refused == old(refused)
      ensures page != 0 ==> forall p :: p in taken <==> p in old(taken) || PagesAt(page, n, p)
      ensures page != 0 ==> forall p :: PagesAt(page, n, p) ==> p !in old(taken)
    {
      page := *;
      if page == 0 || !(forall p | page <= p < page + n :: p !in taken) {
        refused := refused + 1;
        return 0;
      }
      taken := taken + RunOf(page, n);
    }
  }

  /** A layout rounded up to a whole block. */
  function BlockSize(bytes: nat, align: nat): (n: nat)
    ensures n >= HEADER + bytes && n % 16 == 0
    // The least multiple of 16 that also holds the padding of a larger alignment.
    ensures align <= 16 ==> n < HEADER + bytes + 16
    ensures align > 16 ==> bytes + align <= n < bytes + align + 16
  {
    (HEADER + bytes + (if align > HEADER then align - HEADER else 0) + 15) / 16 * 16
  }

  lemma Aligned(blocks: set<nat>, size: Sizes, pages: set<nat>, b: nat)
    requires Tiled(blocks, size, pages) && b in blocks
    ensures (b + HEADER) % 2 == (b + HEADER) % 4 == (b + HEADER) % 8 == (b + HEADER) % 16 == 0
  {
    hide AllOk, Disjoint, Covered;
    OkOf(blocks, size, b);
    SixteenAfter(b / 16);
  }

  lemma SixteenAfter(k: nat)
    ensures (16 * k + HEADER) % 2 == (16 * k + HEADER) % 4 == (16 * k + HEADER) % 8 == (16 * k + HEADER) % 16 == 0
  {
    Multiple(2, 8 * (k + 1));
    Multiple(4, 4 * (k + 1));
    Multiple(8, 2 * (k + 1));
    Multiple(16, k + 1);
  }

  lemma Multiple(d: nat, k: nat)
    requires d == 2 || d == 4 || d == 8 || d == 16
    ensures d * k % d == 0
  {
    if d == 2 {
      assert 2 * k % 2 == 0;
    } else if d == 4 {
      assert 4 * k % 4 == 0;
    } else if d == 8 {
      assert 8 * k % 8 == 0;
    } else {
      assert 16 * k % 16 == 0;
    }
  }

  // ── Pointers held ──────────────────────────────────────────────────────────

  /** `ptr` points into a live block that holds `bytes` bytes behind its header. */
  predicate Serves(live: set<nat>, size: Sizes, ptr: nat, bytes: nat) {
    ptr >= HEADER && ptr - HEADER in live && ptr - HEADER in size && HEADER + bytes <= size[ptr - HEADER]
  }

  /** Pointer `held[k]` was given out for `asked[k]` bytes and not taken back: the blocks behind
      these pointers are the live ones, and each holds its bytes. */
  ghost predicate Holds(live: set<nat>, size: Sizes, held: seq<nat>, asked: seq<nat>) {
    && |held| == |asked| && NoRepeat(held)
    && (forall k :: 0 <= k < |held| ==> Serves(live, size, held[k], asked[k]))
    && (forall b :: b in live ==> b + HEADER in held)
  }

  ghost predicate KeepsSizes(live: set<nat>, size: Sizes, size': Sizes) {
    forall b :: b in live ==> b in size && b in size' && size'[b] == size[b]
  }

  /** Bytes behind different pointers do not overlap. */
  predicate Separate(held: seq<nat>, asked: seq<nat>)
    requires |held| == |asked|
  {
    forall j, k :: 0 <= j < k < |held| ==> held[j] + asked[j] <= held[k] || held[k] + asked[k] <= held[j]
  }

  lemma HeldApart(blocks: set<nat>, live: set<nat>, size: Sizes, pages: set<nat>, held: seq<nat>, asked: seq<nat>)
    requires Tiled(blocks, size, pages) && live <= blocks && Holds(live, size, held, asked)
    ensures Separate(held, asked)
  {
    hide AllOk, Covered;
    forall j, k | 0 <= j < k < |held| ensures held[j] + asked[j] <= held[k] || held[k] + asked[k] <= held[j] {
      assert Serves(live, size, held[j], asked[j]) && Serves(live, size, held[k], asked[k]);
      assert Apart(size, held[j] - HEADER, held[k] - HEADER);
    }
  }

  lemma HeldServed(live: set<nat>, size: Sizes, held: seq<nat>, asked: seq<nat>)
    requires Holds(live, size, held, asked)
    ensures |held| == |asked| && forall k :: 0 <= k < |held| ==> held[k] >= HEADER && held[k] - HEADER in live
  {
    assert forall k :: 0 <= k < |held| ==> Serves(live, size, held[k], asked[k]);
  }

  lemma HoldsStill(live: set<nat>, size: Sizes, size': Sizes, held: seq<nat>, asked: seq<nat>)
    requires Holds(live, size, held, asked) && KeepsSizes(live, size, size')
    ensures Holds(live, size', held, asked)
  {
    forall k | 0 <= k < |held| ensures Serves(live, size', held[k], asked[k]) {
      assert Serves(live, size, held[k], asked[k]);
    }
  }

  lemma HoldsMore(live: set<nat>, size: Sizes, held: seq<nat>, asked: seq<nat>, ptr: nat, bytes: nat)
    requires Holds(live, size, held, asked) && ptr >= HEADER && ptr - HEADER !in live
    requires Serves(live + {ptr - HEADER}, size, ptr, bytes)
    ensures Holds(live + {ptr - HEADER}, size, held + [ptr], asked + [bytes])
  {
    var live', held', asked' := live + {ptr - HEADER}, held + [ptr], asked + [bytes];
    forall k | 0 <= k < |held| ensures Serves(live', size, held[k], asked[k]) && held[k] != ptr {
      assert Serves(live, size, held[k], asked[k]);
    }
    assert forall k :: 0 <= k < |held| ==> held'[k] == held[k] && asked'[k] == asked[k];
    assert held'[|held|] == ptr;
    forall b | b in live' ensures b + HEADER in held' {
      if b in live {
        var k :| 0 <= k < |held| && held[k] == b + HEADER;
        assert held'[k] == b + HEADER;
      }
    }
  }

  lemma WithoutAt(list: seq<nat>, i: nat, k: nat)
    requires i < |list| && k + 1 < |list|
    ensures |Without(list, i)| == |list| - 1 && Without(list, i)[k] == list[if k < i then k else k + 1]
  {
  }

  lemma HoldsLess(live: set<nat>, size: Sizes, held: seq<nat>, asked: seq<nat>, i: nat)
    requires Holds(live, size, held, asked) && i < |held| && held[i] >= HEADER
    ensures Holds(live - {held[i] - HEADER}, size, Without(held, i), Without(asked, i))
  {
    hide Without;
    var live', h, s := live - {held[i] - HEADER}, Without(held, i), Without(asked, i);
    WithoutLength(held, i);
    WithoutLength(asked, i);
    forall k | 0 <= k < |h| ensures Serves(live', size, h[k], s[k]) {
      WithoutAt(held, i, k);
      WithoutAt(asked, i, k);
      var j := if k < i then k else k + 1;
      assert Serves(live, size, held[j], asked[j]) && held[j] != held[i];
    }
    forall j, k | 0 <= j < k < |h| ensures h[j] != h[k] {
      WithoutAt(held, i, j);
      WithoutAt(held, i, k);
    }
    forall b | b in live' ensures b + HEADER in h {
      var j :| 0 <= j < |held| && held[j] == b + HEADER;
      WithoutAt(held, i, if j < i then j else j - 1);
    }
  }

  lemma WithoutLength(list: seq<nat>, i: nat)
    requires i < |list|
    ensures |Without(list, i)| == |list| - 1
  {
  }

  class FreeList {
    const kernel: Kernel
    var head: nat
    var pages: nat
    var size: Sizes
    var next: map<nat, nat>
    ghost var list: seq<nat>
    ghost var live: set<nat>
    ghost var claimed: set<nat>
    /** How often a claim for an empty list started the page count again. */
    ghost var restarts: nat

    ghost function Blocks(): set<nat>
      reads this
    {
      Elems(list) + live
    }

    ghost predicate Ok()
      reads this, kernel
    {
      && Linked(next, head, list) && Elems(list) !! live && Tiled(Blocks(), size, claimed)
      && claimed <= kernel.taken && pages <= MAX_PAGES
      && (claimed == {} ==> pages == 0) && pages <= |claimed| <= pages + MAX_PAGES * restarts
    }

    constructor (kernel: Kernel)
      ensures this.kernel == kernel && Ok() && live == {} && list == [] && claimed == {} && pages == restarts == 0
    {
      this.kernel := kernel;
      head, pages, size, next := 0, 0, map[], map[];
      list, live, claimed, restarts := [], {}, {}, 0;
      new;
      assert forall a: nat :: !In({}, map[], a);
    }

    /** Adds the pages of a fresh run as one block at the front of the list, and counts them. */
    method AddChunk(page: nat, n: nat, count: nat, ghost again: nat, ghost before: set<nat>)
      requires page > 0 && n > 0
      requires Linked(next, head, list) && Elems(list) !! live && Tiled(Blocks(), size, claimed)
      requires n <= count <= MAX_PAGES && count <= |claimed| + n <= count + MAX_PAGES * again
      requires claimed <= before && (forall p :: p in kernel.taken <==> p in before || PagesAt(page, n, p))
      requires forall p :: PagesAt(page, n, p) ==> p !in before
      modifies this`head, this`size, this`next, this`list, this`claimed, this`pages, this`restarts
      ensures Ok() && list == [page * PAGE] + old(list) && size == old(size)[page * PAGE := n * PAGE]
      ensures page * PAGE !in old(list) && page * PAGE !in live && page * PAGE % PAGE == 0
      ensures (forall p :: p in claimed <==> p in old(claimed) || PagesAt(page, n, p))
          && |claimed| == |old(claimed)| + n
      ensures pages == count && restarts == again
    {
      var b := page * PAGE;
      WholePage(page);
      ghost var pages' := set p | p in kernel.taken && (p in claimed || PagesAt(page, n, p));
      assert forall p :: p in pages' <==> p in claimed || PagesAt(page, n, p);
      hide Tiled, PagesAt;
      RunCount(claimed, pages', page, n);
      TileAdd(Blocks(), size, size[b := n * PAGE], claimed, pages', page, n);
      assert b !in list;
      LinkIn(next, next[b := head], head, list, 0, b);
      ElemsWith(list, 0, b);
      assert With(list, 0, b) == [b] + list;
      hide Linked;
      assert Elems([b] + list) + live == Blocks() + {b};
      size, next := size[b := n * PAGE], next[b := head];
      head, list, claimed := b, [b] + list, pages';
      pages, restarts := count, again;
    }

    /** Claims a chunk when the list is empty. The count of pages starts again at that chunk,
        so it stays the number of claimed pages only if none was claimed before. */
    method Ensure() returns (ok: bool)
      requires Ok()
      modifies this, kernel
      ensures Ok() && live == old(live) && (forall b :: b in old(live) ==> b in size && size[b] == old(size)[b])
      ensures ok <==> head != 0
      ensures kernel.refused == old(kernel.refused) + (if ok then 0 else 1)
      ensures ok && old(head) == 0 ==>
                && pages == INITIAL_PAGES && |claimed| == |old(claimed)| + INITIAL_PAGES
                && restarts == old(restarts) + (if old(claimed) == {} then 0 else 1)
                && |list| == 1 && list[0] in size && size[list[0]] == INITIAL_PAGES * PAGE && list[0] % PAGE == 0
      ensures !ok || old(head) != 0 ==>
                pages == old(pages) && claimed == old(claimed) && list == old(list) && size == old(size)
                    && restarts == old(restarts)
      ensures (old(head) == 0 <==> old(list) == []) && (!ok ==> list == [])
    {
      NonNull(next, head, list);
      if head != 0 { return true; }
      var page := kernel.AllocFrames(INITIAL_PAGES);
      if page == 0 { return false; }
      AddChunk(page, INITIAL_PAGES, INITIAL_PAGES, restarts + (if claimed == {} then 0 else 1), old(kernel.taken));
      ok := true;
    }

    /** Claims another chunk, up to the cap. */
    method Grow() returns (ok: bool)
      requires Ok()
      modifies this, kernel
      ensures Ok() && live == old(live) && (forall b :: b in old(live) ==> b in size && size[b] == old(size)[b])
      ensures if ok then kernel.refused == old(kernel.refused) && pages == Min(old(pages) + GROW_PAGES, MAX_PAGES)
              else old(pages) >= MAX_PAGES || kernel.refused == old(kernel.refused) + 1
      ensures ok ==> old(pages) < pages && |claimed| - pages == |old(claimed)| - old(pages)
      ensures ok ==> Fronted(old(list), old(size), list, size)
      ensures !ok ==> list == old(list) && size == old(size) && pages == old(pages) && claimed == old(claimed)
      ensures restarts == old(restarts) && forall p :: p in old(claimed) ==> p in claimed
    {
      hide Tiled, Linked, Elems, Fronted;
      AllSized();
      if pages >= MAX_PAGES { return false; }
      var n := Min(MAX_PAGES - pages, GROW_PAGES);
      var page := kernel.AllocFrames(n);
      if page == 0 { return false; }
      AddChunk(page, n, pages + n, restarts, old(kernel.taken));
      FrontedByOne(old(list), old(size), page * PAGE, n * PAGE);
      ok := true;
    }

    /** The first block of the list that is large enough. */
    method FirstFit(need: nat) returns (prev: nat, cur: nat, ghost i: nat)
      requires Ok()
      ensures i <= |list| && cur == At(list, i) && prev == (if i == 0 then 0 else list[i - 1])
      ensures forall j :: 0 <= j < i ==> list[j] in size && size[list[j]] < need
      ensures i < |list| ==> cur != 0 && cur in size && size[cur] >= need
      ensures cur == 0 <==> forall j :: 0 <= j < |list| ==> list[j] in size && size[list[j]] < need
    {
      assert AllOk(Blocks(), size);
      hide Tiled;
      i, prev, cur := 0, 0, head;
      NonNull(next, head, list);
      while cur != 0
        invariant i <= |list| && cur == At(list, i) && prev == (if i == 0 then 0 else list[i - 1])
        invariant forall j :: 0 <= j < i ==> list[j] in size && size[list[j]] < need
        decreases |list| - i
      {
        assert i < |list| && LinkAt(next, list, i);
        OkOf(Blocks(), size, cur);
        if size[cur] >= need { return; }
        prev, cur := cur, next[cur];
        i := i + 1;
      }
    }

    /** Element `i` of the list, with its predecessor. */
    ghost predicate Spot(prev: nat, cur: nat, i: nat)
      reads this
    {
      i < |list| && cur == list[i] && prev == (if i == 0 then 0 else list[i - 1])
    }

    lemma Links(prev: nat, cur: nat, i: nat)
      requires Linked(next, head, list) && Spot(prev, cur, i)
      ensures cur in next && next[cur] == At(list, i + 1) && (prev == 0 <==> i == 0)
    {
      assert LinkAt(next, list, i);
      if i > 0 { assert LinkAt(next, list, i - 1); }
    }

    /** Takes `need` bytes of the block `cur`, splitting off a usable rest. */
    method Carve(prev: nat, cur: nat, need: nat, ghost i: nat)
      requires Ok() && Spot(prev, cur, i) && need % 16 == 0 && need >= HEADER && cur in size && size[cur] >= need
      modifies this`head, this`size, this`next, this`list, this`live
      ensures Ok() && cur !in old(live) && live == old(live) + {cur}
      ensures cur in size && need <= size[cur] < need + BLOCK
      ensures forall b :: b in old(live) ==> b in size && size[b] == old(size)[b]
      ensures list == Carved(old(list), old(size), need, i)
    {
      if size[cur] - need >= BLOCK {
        CarveSplit(prev, cur, need, i);
      } else {
        CarveWhole(prev, cur, i);
      }
    }

    method CarveSplit(prev: nat, cur: nat, need: nat, ghost i: nat)
      requires Ok() && Spot(prev, cur, i) && need % 16 == 0 && need >= HEADER && cur in size
          && size[cur] >= need + BLOCK
      modifies this`head, this`size, this`next, this`list, this`live
      ensures Ok() && cur !in old(live) && live == old(live) + {cur} && cur in size && size[cur] == need
      ensures forall b :: b in old(live) ==> b in size && size[b] == old(size)[b]
      ensures list == old(list)[i := cur + need]
    {
      hide Tiled;
      var sz, rest := size[cur], cur + need;
      ghost var blocks := Blocks();
      Sized(blocks, size, claimed);
      Links(prev, cur, i);
      TileSplit(blocks, size, size[rest := sz - need][cur := need], claimed, cur, need);
      SplitElems(next, head, list, live, i, rest);
      ghost var next' := if i == 0 then next[rest := At(list, i + 1)][cur := 0]
          else next[rest := At(list, i + 1)][cur := 0][prev := rest];
      Relink(next, next', head, list, i, rest);
      hide Linked, Elems;
      next := next[rest := next[cur]][cur := 0];
      size := size[rest := sz - need][cur := need];
      if prev == 0 { head := rest; } else { next := next[prev := rest]; }
      live, list := live + {cur}, list[i := rest];
    }

    method CarveWhole(prev: nat, cur: nat, ghost i: nat)
      requires Ok() && Spot(prev, cur, i)
      modifies this`head, this`next, this`list, this`live
      ensures Ok() && cur !in old(live) && live == old(live) + {cur} && list == Without(old(list), i)
    {
      hide Tiled;
      ghost var blocks, list' := Blocks(), Without(list, i);
      Links(prev, cur, i);
      ElemsOf(next, head, list, i, 0);
      Mapped(next, head, list);
      Unlink(next, if i == 0 then next[cur := 0] else next[prev := At(list, i + 1)][cur := 0], head, list, i);
      hide Linked, Without;
      if prev == 0 { head := next[cur]; } else { next := next[prev := next[cur]]; }
      next := next[cur := 0];
      live, list := live + {cur}, list';
      assert Blocks() == blocks;
    }

    /** A block for `bytes` bytes, or null. The retry loop ends because each round brings
        `pages` nearer its cap. */
    method Alloc(bytes: nat, align: nat) returns (ptr: nat)
      requires Ok()
      modifies this, kernel
      ensures Ok() && forall b :: b in old(live) ==> b in size && size[b] == old(size)[b]
      ensures ptr == 0 ==> live == old(live)
      ensures ptr != 0 ==> ptr >= HEADER && ptr - HEADER !in old(live) && live == old(live) + {ptr - HEADER}
      ensures ptr != 0 ==> ptr - HEADER in size && HEADER + bytes <= size[ptr - HEADER]
      // Never more than a rounded block and less than another smallest block on top of it.
      ensures ptr != 0 ==> size[ptr - HEADER] < bytes + (if align > 16 then align else 16) + 16 + BLOCK
      // Null only at the cap or after the kernel refused a chunk.
      ensures if ptr == 0 then pages >= MAX_PAGES || kernel.refused > old(kernel.refused)
              else kernel.refused == old(kernel.refused)
      // Alignments up to 16 are met; a larger one only if the first fit of the list happens to lie so.
      ensures ptr != 0 ==> ptr % 16 == 0 && (align in {1, 2, 4, 8, 16} ==> ptr % align == 0)
      ensures ptr != 0 && align > 0 && align % 32 == 0 ==>
                (ptr % align == 0 <==> exists i: nat :: FitsFirst(old(list), old(size), BlockSize(bytes, align), i)
                                                        && (old(list)[i] + HEADER) % align == 0)
      ensures ptr == 0 ==> forall j :: 0 <= j < |list| ==> list[j] in size && size[list[j]] < BlockSize(bytes, align)
      ensures forall i: nat :: FitsFirst(old(list), old(size), BlockSize(bytes, align), i) ==>
                && ptr == old(list)[i] + HEADER && claimed == old(claimed)
                && list == Carved(old(list), old(size), BlockSize(bytes, align), i)
      // The pages claimed beyond the count: unchanged, unless the list was empty and a chunk came.
      ensures |old(claimed)| <= |claimed|
      ensures old(list) != [] || claimed == old(claimed) ==>
                |claimed| - pages == |old(claimed)| - old(pages) && restarts == old(restarts)
      ensures old(list) == [] && claimed != old(claimed) ==>
                |claimed| - pages == |old(claimed)| && restarts == old(restarts) + (if old(claimed) == {} then 0 else 1)
      // One chunk for an empty list, all of it handed out.
      ensures ptr != 0 && old(list) == [] && BlockSize(bytes, align) == INITIAL_PAGES * PAGE ==>
                list == [] && |claimed| == |old(claimed)| + INITIAL_PAGES && pages == INITIAL_PAGES
    {
      hide Tiled, Linked, Elems, BlockSize;
      AllSized();
      var ok := Ensure();
      if !ok { return 0; }
      var need := BlockSize(bytes, align);
      assert old(list) == [] && need == INITIAL_PAGES * PAGE ==>
          FitsFirst(list, size, need, 0) && Carved(list, size, need, 0) == [];
      ghost var list1, size1 := list, size;
      var cur := TakeFit(need);
      assert forall i: nat :: FitsFirst(old(list), old(size), need, i) ==> FitsFirst(list1, size1, need, i);
      ptr := if cur == 0 then 0 else cur + HEADER;
      if cur != 0 && align > 0 && align % 32 == 0 && cur % PAGE == 0 {
        NeverWide(cur, align);
      }
    }

    lemma AllSized()
      requires Ok()
      ensures head == At(list, 0) && forall b :: b in live ==> b in size
      ensures forall j :: 0 <= j < |list| ==> list[j] != 0 && list[j] in size
    {
      Sized(Blocks(), size, claimed);
      NonNull(next, head, list);
      assert forall j :: 0 <= j < |list| ==> list[j] in Elems(list);
    }

    /** Takes `need` bytes from the first block that has them, growing the heap until one has. */
    method TakeFit(need: nat) returns (cur: nat)
      requires Ok() && need % 16 == 0 && need >= HEADER
      modifies this, kernel
      ensures Ok() && forall b :: b in old(live) ==> b in old(size) && b in size && size[b] == old(size)[b]
      ensures cur == 0 ==> live == old(live) && forall j :: 0 <= j < |list| ==> list[j] in size && size[list[j]] < need
      ensures cur != 0 ==> cur !in old(live) && live == old(live) + {cur}
      ensures cur != 0 ==> cur in size && need <= size[cur] < need + BLOCK
      ensures if cur == 0 then pages >= MAX_PAGES || kernel.refused > old(kernel.refused)
              else kernel.refused == old(kernel.refused)
      ensures cur != 0 ==> (cur + HEADER) % 2 == (cur + HEADER) % 4 == (cur + HEADER) % 8 == (cur + HEADER) % 16 == 0
      ensures forall i: nat :: FitsFirst(old(list), old(size), need, i) ==>
                && cur == old(list)[i] && claimed == old(claimed) && pages == old(pages)
                && list == Carved(old(list), old(size), need, i)
      ensures cur != 0 ==> cur % PAGE == 0 || exists i: nat :: FitsFirst(old(list), old(size), need, i)
      ensures |old(claimed)| <= |claimed| && |claimed| - pages == |old(claimed)| - old(pages)
          && restarts == old(restarts)
    {
      hide Tiled, Linked, Elems, Fronted;
      AllSized();
      FrontedByNone(list, size);
      while true
        invariant Ok() && live == old(live) && forall b :: b in old(live) ==> b in size && size[b] == old(size)[b]
        invariant Fronted(old(list), old(size), list, size)
        invariant (list == old(list) && size == old(size) && claimed == old(claimed) && pages == old(pages))
                  || forall j :: 0 <= j < |old(list)| ==> old(list)[j] in old(size) && old(size)[old(list)[j]] < need
        invariant |old(claimed)| <= |claimed| && |claimed| - pages == |old(claimed)| - old(pages)
            && restarts == old(restarts) && kernel.refused == old(kernel.refused)
        decreases MAX_PAGES - pages
      {
        var prev; ghost var i;
        prev, cur, i := FirstFit(need);
        if cur != 0 {
          if list == old(list) && size == old(size) {
            assert FitsFirst(old(list), old(size), need, i);
          } else {
            FrontedFit(old(list), old(size), list, size, need, i);
          }
          Carve(prev, cur, need, i);
          Aligned(Blocks(), size, claimed, cur);
          return;
        }
        ghost var list1, size1 := list, size;
        var ok := Grow();
        if !ok { return; }
        FrontedThen(old(list), old(size), list1, size1, list, size);
      }
    }

    /** Gives back the block of `ptr`: it goes into the list, and a block that follows both
        in the list and in memory is joined to it. */
    method Free(ptr: nat)
      requires Ok() && ptr >= HEADER && ptr - HEADER in live
      modifies this`head, this`size, this`next, this`list, this`live
      ensures Ok() && live == old(live) - {ptr - HEADER}
      ensures ptr - HEADER in old(size) && list == Freed(old(list), old(size), ptr - HEADER)
      ensures var block := ptr - HEADER;
        var end, i := block + old(size)[block], Place(old(list), block);
        end in list <==> end in old(list) && (i == 0 || i == |old(list)| || old(list)[i] != end)
      ensures forall b :: b in live ==> b in size && old(size)[b] == size[b]
    {
      hide Tiled, Linked, Elems;
      var block := ptr - HEADER;
      AllSized();
      FreedApart(block);
      if head == 0 || block < head {
        Insert(0, block, head, 0);
      } else {
        var prev, cur, i := Seek(block);
        Insert(prev, block, cur, i);
        if cur != 0 && block + size[block] == cur {
          Join(block, cur, i);
          assert Without(With(old(list), i, block), i + 1) == old(list)[i := block];
        }
      }
    }

    lemma FreedApart(block: nat)
      requires Ok() && block in live
      ensures block in size
      ensures var end, i := block + size[block], Place(list, block);
        end in Freed(list, size, block) <==> end in list && (i == 0 || i == |list| || list[i] != end)
    {
      assert BlockOk(size, block) && block !in Elems(list);
      hide Tiled;
      JoinsNext(next, head, list, size, block);
    }

    /** The place for `block` behind the head of the list. */
    method Seek(block: nat) returns (prev: nat, cur: nat, ghost i: nat)
      requires Ok() && head != 0
      ensures 0 < i <= |list| && prev == list[i - 1] && cur == At(list, i) && i == PlaceFrom(list, block, 1)
    {
      hide Tiled;
      Links(0, head, 0);
      NonNull(next, head, list);
      prev, cur, i := head, next[head], 1;
      while cur != 0 && cur < block
        invariant 0 < i <= |list| && prev == list[i - 1] && cur == At(list, i)
            && PlaceFrom(list, block, 1) == PlaceFrom(list, block, i)
        decreases |list| - i
      {
        assert LinkAt(next, list, i);
        prev, cur, i := cur, next[cur], i + 1;
      }
    }

    /** Links a live block in front of element `i`. */
    method Insert(prev: nat, block: nat, cur: nat, ghost i: nat)
      requires Ok() && block in live && i <= |list| && prev == (if i == 0 then 0 else list[i - 1]) && cur == At(list, i)
      modifies this`head, this`next, this`list, this`live
      ensures Ok() && live == old(live) - {block} && list == With(old(list), i, block)
    {
      assert BlockOk(size, block) by { OkOf(Blocks(), size, block); }
      hide Tiled;
      ghost var blocks := Blocks();
      NonNull(next, head, list);
      assert block !in list by { assert block !in Elems(list); }
      ElemsWith(list, i, block);
      LinkIn(next, if i == 0 then next[block := cur] else next[block := cur][prev := block], head, list, i, block);
      hide Linked, With, Elems;
      next := next[block := cur];
      if prev == 0 { head := block; } else { next := next[prev := block]; }
      live, list := live - {block}, With(list, i, block);
      assert Blocks() == blocks;
    }

    /** Joins the free block `cur` to the block in front of it. */
    method Join(block: nat, cur: nat, ghost i: nat)
      requires Ok() && i + 1 < |list| && list[i] == block && list[i + 1] == cur
      requires block in size && cur in size && block + size[block] == cur
      modifies this`size, this`next, this`list
      ensures Ok() && list == Without(old(list), i + 1)
      ensures forall b :: b in live ==> b in size && b in old(size) && size[b] == old(size)[b]
    {
      hide Tiled, Linked, Without;
      ghost var blocks := Blocks();
      Sized(blocks, size, claimed);
      assert block in Elems(list) && cur in Elems(list);
      TileMerge(blocks, size, size[block := size[block] + size[cur]], claimed, block, cur);
      Links(block, cur, i + 1);
      ElemsOf(next, head, list, i + 1, 0);
      Mapped(next, head, list);
      Unlink(next, next[block := next[cur]], head, list, i + 1);
      size := size[block := size[block] + size[cur]];
      next := next[block := next[cur]];
      list := Without(list, i + 1);
      assert Blocks() == blocks - {cur};
    }

    /** One request of a run. */
    method Ask(r: Request, held: seq<nat>, asked: seq<nat>) returns (held': seq<nat>, asked': seq<nat>)
      requires Ok() && Holds(live, size, held, asked)
      modifies this, kernel
      ensures Ok() && Holds(live, size, held', asked') && old(restarts) <= restarts
      ensures restarts == old(restarts) && old(|claimed| == pages) ==> |claimed| == pages
    {
      hide Ok, Holds;
      HeldServed(live, size, held, asked);
      match r {
        case Allocate(bytes, align) => held', asked' := AskFor(bytes, align, held, asked);
        case Release(k) =>
          held', asked' := held, asked;
          if k < |held| {
            held', asked' := GiveBack(k, held, asked);
          }
      }
    }

    method AskFor(bytes: nat, align: nat, held: seq<nat>, asked: seq<nat>)
      returns (held': seq<nat>, asked': seq<nat>)
      requires Ok() && Holds(live, size, held, asked)
      modifies this, kernel
      ensures Ok() && Holds(live, size, held', asked') && old(restarts) <= restarts
      ensures restarts == old(restarts) && old(|claimed| == pages) ==> |claimed| == pages
    {
      hide Ok, FitsFirst, Carved, BlockSize, Holds, Elems;
      AllSized();
      held', asked' := held, asked;
      var ptr := Alloc(bytes, align);
      HoldsStill(old(live), old(size), size, held, asked);
      if ptr != 0 {
        HoldsMore(old(live), size, held, asked, ptr, bytes);
        held', asked' := held + [ptr], asked + [bytes];
      }
    }

    method GiveBack(k: nat, held: seq<nat>, asked: seq<nat>) returns (held': seq<nat>, asked': seq<nat>)
      requires Ok() && Holds(live, size, held, asked) && k < |held|
      modifies this`head, this`size, this`next, this`list, this`live
      ensures Ok() && Holds(live, size, held', asked')
    {
      hide Linked, Tiled, Elems, Freed, Place, Holds, Without;
      AllSized();
      HeldServed(live, size, held, asked);
      HoldsLess(live, size, held, asked, k);
      Free(held[k]);
      held', asked' := Without(held, k), Without(asked, k);
      HoldsStill(live, old(size), size, held', asked');
    }

    /** Any sequence of allocations and of frees of blocks still held keeps the tiling. What is
        still held is what is live: every pointer has the bytes asked for, apart from all others.
        The pages claimed stay within the cap unless an allocation found the list empty after the
        first claim, and within one more cap for each time that happened. */
    method Use(reqs: seq<Request>) returns (held: seq<nat>, asked: seq<nat>)
      requires Ok() && live == {}
      modifies this, kernel
      ensures Ok() && old(restarts) <= restarts
      ensures Holds(live, size, held, asked) && Separate(held, asked)
      ensures old(|claimed| == pages) && restarts == old(restarts) ==> |claimed| == pages <= MAX_PAGES
      ensures |claimed| <= MAX_PAGES * (1 + restarts)
    {
      hide Tiled, Linked, Elems, Separate;
      held, asked := [], [];
      for i := 0 to |reqs|
        invariant Ok() && old(restarts) <= restarts && Holds(live, size, held, asked)
        invariant old(|claimed| == pages) && restarts == old(restarts) ==> |claimed| == pages
      {
        held, asked := Ask(reqs[i], held, asked);
      }
      HeldApart(Blocks(), live, size, claimed, held, asked);
    }

    /** An input whose alignment is not met: 8 bytes aligned to 32, from an empty list. */
    method Misaligned() returns (ptr: nat)
      requires Ok() && list == []
      modifies this, kernel
      ensures ptr != 0 ==> ptr % 32 == 16
    {
      hide Tiled, Linked, Elems;
      ptr := Alloc(8, 32);
      if ptr != 0 {
        SixteenOrZero(ptr);
      }
    }

    static lemma SixteenOrZero(x: nat)
      requires x % 16 == 0
      ensures x % 32 == 0 || x % 32 == 16
    {
    }

    /** The run that breaks the cap: 17 allocations, each of one whole chunk. */
    method Overclaim() returns (done: bool)
      requires Ok() && list == [] && claimed == {}
      modifies this, kernel
      ensures Ok() && (done ==> |claimed| == 272 > MAX_PAGES && pages == 16)
    {
      hide Tiled, Linked;
      for k := 0 to 17
        invariant Ok() && list == [] && |claimed| == 16 * k && (k > 0 ==> pages == 16)
      {
        var ptr := Alloc(65520, 16);
        if ptr == 0 { return false; }
      }
      done := true;
    }
  }

  datatype Request = Allocate(bytes: nat, align: nat) | Release(k: nat)

  /** What lies in one live block lies in no other block, live or free. */
  lemma PayloadsApart(blocks: set<nat>, size: Sizes, pages: set<nat>, b: nat, c: nat, x: nat)
    requires Tiled(blocks, size, pages) && b in blocks && c in blocks && b != c && Inside(size, b, x)
    ensures !Inside(size, c, x) && Claims(pages, x)
  {
  }
}
