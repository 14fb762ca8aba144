/** Where the clusters of a volume are: free, in the chain of a root entry, or lost. */
module FatAccount {
  import opened FatSpec

  ghost function DataClusters(n: nat): (s: set<nat>)
    ensures forall c: nat :: c in s <==> 2 <= c < n
  {
    Below(n) - Below(2)
  }

  ghost function FreeSet(f: Fat, n: nat): set<nat>
    requires n <= |f|
  {
    set c: nat | 2 <= c < n && f[c] == FAT_FREE
  }

  /** The clusters of all files. */
  ghost function Owned(chains: seq<seq<nat>>): set<nat> {
    if chains == [] then {} else Owned(chains[..|chains| - 1]) + Elems(chains[|chains| - 1])
  }

  function Total(chains: seq<seq<nat>>): nat {
    if chains == [] then 0 else Total(chains[..|chains| - 1]) + |chains[|chains| - 1]|
  }

  /** In use, but in no file's chain: nothing reads them and nothing will allocate them. */
  ghost function Lost(f: Fat, n: nat, chains: seq<seq<nat>>): set<nat>
    requires n <= |f|
  {
    DataClusters(n) - FreeSet(f, n) - Owned(chains)
  }

  /** Every chain is well formed, and no two share a cluster. */
  ghost predicate ChainsOk(f: Fat, n: nat, chains: seq<seq<nat>>) {
    && n <= |f|
    && (forall i :: 0 <= i < |chains| ==> chains[i] == [] || Chain(f, n, chains[i]))
    && (forall i, j :: 0 <= i < j < |chains| ==> Disjoint(chains[i], chains[j]))
  }

  lemma DirectoryChains(d: seq<Sector>, f: Fat, g: Geometry, chains: seq<seq<nat>>)
    requires DirectoryOk(d, f, g, chains) && g.clusters <= |f|
    ensures ChainsOk(f, g.clusters, chains)
  {
    hide EntryAt, Span;
    forall i | 0 <= i < |chains| ensures chains[i] == [] || Chain(f, g.clusters, chains[i]) {
      assert SlotOk(d, f, g, i, chains[i]);
    }
  }

  lemma {:induction false} OwnedHas(chains: seq<seq<nat>>, c: nat)
    ensures c in Owned(chains) <==> exists i :: 0 <= i < |chains| && c in chains[i]
  {
    if chains != [] {
      var k := |chains| - 1;
      OwnedHas(chains[..k], c);
      assert forall i :: 0 <= i < k ==> chains[..k][i] == chains[i];
    }
  }

  lemma {:induction false} OwnedSize(f: Fat, n: nat, chains: seq<seq<nat>>)
    requires ChainsOk(f, n, chains)
    ensures |Owned(chains)| == Total(chains)
  {
    if chains != [] {
      var k := |chains| - 1;
      LastApart(f, n, chains);
      OwnedSize(f, n, chains[..k]);
      hide ChainsOk;
      SeqSetSize(chains[k]);
    }
  }

  lemma LastApart(f: Fat, n: nat, chains: seq<seq<nat>>)
    requires ChainsOk(f, n, chains) && chains != []
    ensures var k := |chains| - 1;
      && ChainsOk(f, n, chains[..k]) && Owned(chains[..k]) !! Elems(chains[k])
      && forall i, j :: 0 <= i < j < |chains[k]| ==> chains[k][i] != chains[k][j]
  {
    hide Owned;
    var k := |chains| - 1;
    forall c | c in Elems(chains[k]) ensures c !in Owned(chains[..k]) {
      OwnedHas(chains[..k], c);
    }
  }

  lemma DataSize(n: nat)
    requires 2 <= n
    ensures |DataClusters(n)| == n - 2
  {
    hide Below;
    assert Below(n) == DataClusters(n) + Below(2);
  }

  lemma {:induction false} FreeSetSize(f: Fat, n: nat)
    requires 2 <= n <= |f|
    ensures |FreeSet(f, n)| == FreeCount(f, 2, n)
  {
    if n > 2 {
      FreeSetSize(f, n - 1);
      if f[n - 1] == FAT_FREE {
        assert FreeSet(f, n) == FreeSet(f, n - 1) + {n - 1};
      } else {
        assert FreeSet(f, n) == FreeSet(f, n - 1);
      }
    } else {
      assert FreeSet(f, n) == {};
    }
  }

  lemma OwnedInUse(f: Fat, n: nat, chains: seq<seq<nat>>, c: nat)
    requires ChainsOk(f, n, chains) && c in Owned(chains)
    ensures 2 <= c < n && f[c] != FAT_FREE
  {
    OwnedHas(chains, c);
    var i :| 0 <= i < |chains| && c in chains[i];
    ChainIsAllocated(f, n, chains[i]);
  }

  /** Every data cluster is free, in exactly one file, or lost. */
  lemma Accounting(f: Fat, n: nat, chains: seq<seq<nat>>)
    requires ChainsOk(f, n, chains) && 2 <= n
    ensures FreeCount(f, 2, n) + Total(chains) + |Lost(f, n, chains)| == n - 2
  {
    hide DataClusters, Chain, Total, FreeCount;
    FreeSetSize(f, n);
    DataSize(n);
    OwnedSize(f, n, chains);
    var a, b, all := FreeSet(f, n), Owned(chains), DataClusters(n);
    forall c | c in b ensures c in all && c !in a {
      OwnedInUse(f, n, chains, c);
    }
    ThreeParts(a, b, all);
  }

  lemma ThreeParts(a: set<nat>, b: set<nat>, all: set<nat>)
    requires a !! b && a <= all && b <= all
    ensures |a| + |b| + |all - a - b| == |all|
  {
    assert all == (a + b) + (all - a - b);
  }

  lemma GrownElems(f: Fat, f': Fat, n: nat, chains: seq<seq<nat>>, idx: nat, ch': seq<nat>, c: nat)
    requires ChainsOk(f, n, chains) && idx < |chains| && Grown(f, f', n, chains[idx], ch')
    ensures c in Elems(ch') ==> 2 <= c < n && f'[c] != FAT_FREE && (c in chains[idx] || f[c] == FAT_FREE)
    ensures c < |f| && c !in Elems(ch') ==> f'[c] == f[c]
  {
    if c in ch' {
      ChainIsAllocated(f', n, ch');
      var k :| 0 <= k < |ch'| && ch'[k] == c;
      if k < |chains[idx]| {
        assert chains[idx][k] == c;
      }
    }
  }

  /** A write strands the chain it built exactly when no entry ends up pointing to it. */
  lemma WriteLoses(f: Fat, f': Fat, n: nat, chains: seq<seq<nat>>, idx: nat, ch': seq<nat>, kept: seq<nat>)
    requires ChainsOk(f, n, chains) && idx < |chains| && Grown(f, f', n, chains[idx], ch')
    requires kept == ch' || (kept == [] && chains[idx] == [])
    ensures Lost(f', n, chains[idx := kept]) == Lost(f, n, chains) + (if kept == [] then Elems(ch') else {})
    ensures Lost(f, n, chains) !! Elems(ch') && |Elems(ch')| == |ch'|
  {
    hide Grown, ChainsOk, Lost;
    GrownSize(f, f', n, chains[idx], ch');
    forall c: nat
      ensures c in Lost(f', n, chains[idx := kept]) <==> c in Lost(f, n, chains) || (kept == [] && c in Elems(ch'))
      ensures !(c in Lost(f, n, chains) && c in Elems(ch'))
    {
      LostAfter(f, f', n, chains, idx, ch', kept, c);
    }
  }

  lemma LostAfter(f: Fat, f': Fat, n: nat, chains: seq<seq<nat>>, idx: nat, ch': seq<nat>, kept: seq<nat>, c: nat)
    requires ChainsOk(f, n, chains) && idx < |chains| && Grown(f, f', n, chains[idx], ch') && n <= |f'| == |f|
    requires kept == ch' || (kept == [] && chains[idx] == [])
    ensures c in Lost(f', n, chains[idx := kept]) <==> c in Lost(f, n, chains) || (kept == [] && c in Elems(ch'))
    ensures !(c in Lost(f, n, chains) && c in Elems(ch'))
  {
    hide Grown, ChainsOk, Owned;
    GrownElems(f, f', n, chains, idx, ch', c);
    OwnedHas(chains, c);
    if c in chains[idx] {
      assert c in Owned(chains);
    }
    if c in Owned(chains) {
      OwnedInUse(f, n, chains, c);
    }
    OwnedAfter(f, f', n, chains, idx, ch', kept, c);
  }

  lemma GrownSize(f: Fat, f': Fat, n: nat, ch: seq<nat>, ch': seq<nat>)
    requires Grown(f, f', n, ch, ch')
    ensures |Elems(ch')| == |ch'| && n <= |f'| == |f|
  {
    SeqSetSize(ch');
  }

  lemma OwnedAfter(f: Fat, f': Fat, n: nat, chains: seq<seq<nat>>, idx: nat, ch': seq<nat>, kept: seq<nat>, c: nat)
    requires ChainsOk(f, n, chains) && idx < |chains| && Grown(f, f', n, chains[idx], ch')
    requires kept == ch' || (kept == [] && chains[idx] == [])
    ensures c in Owned(chains[idx := kept]) <==> c in Owned(chains) || c in kept
  {
    hide Chain, Disjoint;
    var chains' := chains[idx := kept];
    OwnedHas(chains, c);
    OwnedHas(chains', c);
    if c in Owned(chains) {
      var i :| 0 <= i < |chains| && c in chains[i];
      assert c in chains'[i] by {
        if i == idx {
          var k :| 0 <= k < |chains[i]| && chains[i][k] == c;
          assert ch'[k] == c;
        }
      }
    }
    if c in kept {
      assert c in chains'[idx];
    }
  }

  /** Nothing becomes free again. */
  lemma FullStays(f: Fat, f': Fat, n: nat, ch: seq<nat>, ch': seq<nat>)
    requires Grown(f, f', n, ch, ch') && Full(f, n)
    ensures Full(f', n)
  {
    forall c | 2 <= c < n ensures f'[c] != FAT_FREE {
      if c in ch' {
        ChainIsAllocated(f', n, ch');
      }
    }
  }
}
