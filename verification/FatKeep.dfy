/** What allocation for a file, and removal of its clusters, keep of the volume: the table as a set
    of disjoint chains, the count of free clusters, and the beginnings of all chains. */
module FatKeep {
  import opened FatEntry
  import opened FatDisk
  import opened FatChain
  import opened FatVolume
  import opened FatAlloc
  import opened FatRuns

  /** A cluster in use with which a chain begins. */
  ghost predicate Begins(t: seq<nat>, c: nat) {
    Cluster(t, c) && t[c] != 0 && Head(t, c)
  }

  /** From a to a' the volume has stayed good, and chains still begin where they did. */
  ghost predicate Kept(ft: FatType, a: Alloc, a': Alloc) {
    && |a'.t| == |a.t|
    && (Good(ft, a) ==> Good(ft, a') && forall c | Begins(a.t, c) :: Begins(a'.t, c))
  }

  lemma KeptSame(ft: FatType, a: Alloc)
    ensures Kept(ft, a, a)
  {
  }

  lemma KeptTwice(ft: FatType, a: Alloc, b: Alloc, c: Alloc)
    requires Kept(ft, a, b) && Kept(ft, b, c)
    ensures Kept(ft, a, c)
  {
    hide Good, Begins;
  }

  /** In a set of chains nothing links to a free cluster. */
  lemma FreeIsUnlinked(t: seq<nat>, css: seq<seq<nat>>, r: nat, d: nat)
    requires Partition(t, css) && Cluster(t, r) && t[r] == 0 && Cluster(t, d)
    ensures t[d] != r
  {
    if t[d] != 0 {
      var i, k := Place(t, css, d);
      if k < |css[i]| - 1 { ChainInUse(t, css[i], k + 1); }
    }
  }

  /** create_chain for a file, at a cluster in use or for its first one, keeps the volume; a first
      cluster begins a chain. */
  lemma CreatedKept(ft: FatType, a: Alloc, a': Alloc, clst: nat, r: nat, mark: nat)
    requires Created(a, a', clst, r, mark) && mark >= |a.t| >= 3
    requires clst == 0 || (Cluster(a.t, clst) && a.t[clst] != 0)
    ensures Kept(ft, a, a')
    ensures Good(ft, a) && clst == 0 && r > 1 ==> Begins(a'.t, r)
  {
    if Good(ft, a) {
      StepKeepsGood(ft, mark, a, Create(clst, r), a');
      hide TrueCount, HasPartition, NoFree, HasOne, FreeCount;
      forall c | Begins(a.t, c) ensures Begins(a'.t, c) {
        BeginsStill(a, a', clst, r, mark, c);
      }
      if clst == 0 && r > 1 { FirstBegins(a, a', r, mark); }
    }
    hide Created, Good, Begins;
  }

  lemma BeginsStill(a: Alloc, a': Alloc, clst: nat, r: nat, mark: nat, c: nat)
    requires Created(a, a', clst, r, mark) && mark >= |a.t| && Begins(a.t, c)
    ensures Begins(a'.t, c)
  {
  }

  lemma FirstBegins(a: Alloc, a': Alloc, r: nat, mark: nat)
    requires Created(a, a', 0, r, mark) && mark >= |a.t| && r > 1 && HasPartition(a.t)
    ensures Begins(a'.t, r)
  {
    var css :| Partition(a.t, css);
    forall d | 2 <= d < |a.t| ensures a.t[d] != r {
      FreeIsUnlinked(a.t, css, r, d);
    }
  }

  /** From a to a' the volume has stayed good, and chains begin where they did unless they are gone. */
  ghost predicate KeptRest(ft: FatType, a: Alloc, a': Alloc) {
    && |a'.t| == |a.t|
    && (Good(ft, a) ==> Good(ft, a') && forall c: nat | Begins(a.t, c) && c < |a'.t| && a'.t[c] != 0 :: Begins(a'.t, c))
  }

  lemma KeptIsRest(ft: FatType, a: Alloc, a': Alloc)
    requires Kept(ft, a, a')
    ensures KeptRest(ft, a, a')
  {
    hide Good, Begins;
  }

  /** remove_chain at place k of a file's chain keeps the volume, if the file owns the whole chain. */
  lemma FreedKept(ft: FatType, a: Alloc, a': Alloc, cs: seq<nat>, k: nat, res: Result, mark: nat)
    requires Chain(a.t, cs) && k < |cs| && mark >= |a.t| >= 3 && (k == 0 ==> Head(a.t, cs[0]))
    requires Freed(a, a', cs[k], if k == 0 then 0 else cs[k - 1], res, mark)
    ensures KeptRest(ft, a, a')
  {
    var pclst := if k == 0 then 0 else cs[k - 1];
    CutOff(a, a', cs, k, res, mark);
    if Good(ft, a) {
      StepKeepsGood(ft, mark, a, Remove(cs[k], pclst, res), a');
      hide Good, Freed, Removed, MeetsOne;
      forall c: nat | Begins(a.t, c) && c < |a'.t| && a'.t[c] != 0 ensures Begins(a'.t, c) {
        BeginsAfterCut(a.t, a'.t, cs, k, mark, c);
      }
    }
    hide Freed, Removed, MeetsOne, Good, Begins;
  }

  lemma CutOff(a: Alloc, a': Alloc, cs: seq<nat>, k: nat, res: Result, mark: nat)
    requires Chain(a.t, cs) && k < |cs| && mark >= |a.t| >= 3 && (k == 0 ==> Head(a.t, cs[0]))
    requires Freed(a, a', cs[k], if k == 0 then 0 else cs[k - 1], res, mark)
    ensures Proper(a, Remove(cs[k], if k == 0 then 0 else cs[k - 1], res)) && CutTable(a.t, a'.t, cs, k, mark)
  {
    RemoveCuts(a.t, cs, k, mark);
    ChainInUse(a.t, cs, k);
    if k > 0 {
      ChainInUse(a.t, cs, k - 1);
      assert Link(a.t, cs, k - 1);
    }
    hide Removed, MeetsOne, FreeCount;
  }

  lemma BeginsAfterCut(t: seq<nat>, t': seq<nat>, cs: seq<nat>, k: nat, mark: nat, c: nat)
    requires Chain(t, cs) && k < |cs| && mark >= |t| && CutTable(t, t', cs, k, mark)
    requires Begins(t, c) && t'[c] != 0
    ensures Begins(t', c)
  {
  }
}
