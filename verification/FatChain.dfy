/** Cluster chains in a table of entries, and what allocation and removal do to them.  Entry 0
    marks a free cluster, entries from 2 below the table's length link to the next cluster, and
    larger ones end a chain. */
module FatChain {
  predicate Cluster(t: seq<nat>, c: nat) {
    2 <= c < |t|
  }

  /** The number of free clusters below k. */
  function FreeBelow(t: seq<nat>, k: nat): (n: nat)
    requires k <= |t|
    ensures n <= if k < 2 then 0 else k - 2
  {
    if k <= 2 then 0 else FreeBelow(t, k - 1) + if t[k - 1] == 0 then 1 else 0
  }

  function FreeCount(t: seq<nat>): (n: nat)
    ensures n <= if |t| < 2 then 0 else |t| - 2
  {
    FreeBelow(t, |t|)
  }

  lemma {:induction false} FreeBelowUpdate(t: seq<nat>, c: nat, v: nat, k: nat)
    requires Cluster(t, c) && k <= |t|
    ensures FreeBelow(t[c := v], k) ==
            FreeBelow(t, k) - (if c < k && t[c] == 0 then 1 else 0) + if c < k && v == 0 then 1 else 0
  {
    if k > 2 { FreeBelowUpdate(t, c, v, k - 1); }
  }

  lemma FreeUpdate(t: seq<nat>, c: nat, v: nat)
    requires Cluster(t, c)
    ensures FreeCount(t[c := v]) == FreeCount(t) - (if t[c] == 0 then 1 else 0) + if v == 0 then 1 else 0
  {
    FreeBelowUpdate(t, c, v, |t|);
  }

  lemma {:induction false} NoneFree(t: seq<nat>, k: nat)
    requires k <= |t|
    ensures FreeBelow(t, k) == 0 <==> forall c | 2 <= c < k :: t[c] != 0
  {
    if k > 2 { NoneFree(t, k - 1); }
  }

  lemma NotAllFree(t: seq<nat>, c: nat)
    requires Cluster(t, c) && t[c] != 0
    ensures FreeCount(t) < |t| - 2
  {
    FreeUpdate(t, c, 0);
  }

  // ---------------------------------------------------------------- removal

  /** The table after remove_chain has followed and freed the entries from c on. */
  function Removed(t: seq<nat>, c: nat): (r: seq<nat>)
    requires Cluster(t, c)
    ensures |r| == |t|
    decreases |t| - FreeCount(t)
  {
    if t[c] <= 1 then t
    else
      FreeUpdate(t, c, 0); NotAllFree(t, c);
      if t[c] < |t| then Removed(t[c := 0], t[c]) else t[c := 0]
  }

  /** Whether the removal meets an entry 1 on the way, which it reports as an error. */
  predicate MeetsOne(t: seq<nat>, c: nat)
    requires Cluster(t, c)
    decreases |t| - FreeCount(t)
  {
    t[c] == 1 || (1 < t[c] < |t| && (FreeUpdate(t, c, 0); NotAllFree(t, c); MeetsOne(t[c := 0], t[c])))
  }

  /** Removal only frees. */
  lemma {:induction false} RemovedOnlyFrees(t: seq<nat>, c: nat)
    requires Cluster(t, c)
    ensures forall d | 0 <= d < |t| :: Removed(t, c)[d] == t[d] || (d >= 2 && Removed(t, c)[d] == 0)
    ensures FreeCount(Removed(t, c)) >= FreeCount(t)
    decreases |t| - FreeCount(t)
  {
    if t[c] > 1 {
      FreeUpdate(t, c, 0);
      NotAllFree(t, c);
      if t[c] < |t| { RemovedOnlyFrees(t[c := 0], t[c]); }
    }
  }

  // ---------------------------------------------------------------- chains

  /** The cluster at place k links to the next, or ends the chain if it is the last. */
  ghost predicate Link(t: seq<nat>, cs: seq<nat>, k: nat)
    requires k < |cs| && cs[k] < |t|
  {
    if k < |cs| - 1 then t[cs[k]] == cs[k + 1] else t[cs[k]] >= |t|
  }

  /** cs is a chain: every cluster links to the next, and the last one ends it. */
  ghost predicate Chain(t: seq<nat>, cs: seq<nat>) {
    && |cs| > 0
    && (forall k | 0 <= k < |cs| :: 2 <= cs[k] < |t|)
    && (forall k: nat {:trigger Link(t, cs, k)} | k < |cs| :: Link(t, cs, k))
  }

  /** No cluster stands at two places. */
  ghost predicate Unshared(css: seq<seq<nat>>) {
    forall i, j, k, l | 0 <= i < |css| && 0 <= j < |css| && 0 <= k < |css[i]| && 0 <= l < |css[j]|
                        && css[i][k] == css[j][l] ::
      i == j && k == l
  }

  ghost predicate Holds(css: seq<seq<nat>>, c: nat) {
    exists i, k :: 0 <= i < |css| && 0 <= k < |css[i]| && css[i][k] == c
  }

  /** The table is exactly a set of disjoint chains without cycles: every cluster that is not free
      belongs to one of them. */
  ghost predicate Partition(t: seq<nat>, css: seq<seq<nat>>) {
    && (forall i | 0 <= i < |css| :: Chain(t, css[i]))
    && Unshared(css)
    && (forall c | 2 <= c < |t| && t[c] != 0 :: Holds(css, c))
  }

  /** A chain never comes back to a cluster: its clusters are distinct. */
  lemma {:induction false} ChainDistinct(t: seq<nat>, cs: seq<nat>, k: nat, l: nat)
    requires Chain(t, cs) && k < l < |cs|
    ensures cs[k] != cs[l]
    decreases |cs| - l
  {
    assert Link(t, cs, k) && Link(t, cs, l);
    if l < |cs| - 1 { ChainDistinct(t, cs, k + 1, l + 1); }
  }

  /** Changing other clusters leaves a chain a chain. */
  lemma ChainUntouched(t: seq<nat>, t': seq<nat>, cs: seq<nat>)
    requires Chain(t, cs) && |t'| == |t| && forall k | 0 <= k < |cs| :: t'[cs[k]] == t[cs[k]]
    ensures Chain(t', cs)
  {
    forall k: nat | k < |cs| ensures Link(t', cs, k) {
      assert Link(t, cs, k);
    }
  }

  lemma ChainInUse(t: seq<nat>, cs: seq<nat>, k: nat)
    requires Chain(t, cs) && k < |cs|
    ensures 2 <= cs[k] < |t| && t[cs[k]] >= 2
  {
    assert Link(t, cs, k);
  }

  /** Following a chain from any of its clusters frees that cluster and all behind it, no more. */
  lemma {:induction false} RemovedSuffix(t: seq<nat>, cs: seq<nat>, k: nat)
    requires k < |cs| && (forall i | k <= i < |cs| :: 2 <= cs[i] < |t|)
    requires forall i: nat {:trigger Link(t, cs, i)} | k <= i < |cs| :: Link(t, cs, i)
    requires forall i, j | k <= i < j < |cs| :: cs[i] != cs[j]
    ensures !MeetsOne(t, cs[k])
    ensures forall d {:trigger Removed(t, cs[k])[d]} | 0 <= d < |t| ::
              Removed(t, cs[k])[d] == if d in cs[k..] then 0 else t[d]
    decreases |cs| - k
  {
    var t1 := t[cs[k] := 0];
    FreeUpdate(t, cs[k], 0);
    NotAllFree(t, cs[k]);
    assert cs[k..] == [cs[k]] + cs[k + 1..];
    assert Link(t, cs, k);
    if k < |cs| - 1 {
      forall i: nat | k < i < |cs| ensures Link(t1, cs, i) {
        assert Link(t, cs, i);
      }
      RemovedSuffix(t1, cs, k + 1);
    }
  }

  /** remove_chain on a cluster of a chain, with its predecessor if it has one, ends the chain in
      front of the cluster, frees the rest, and keeps every other chain. */
  ghost predicate CutTable(t: seq<nat>, t': seq<nat>, cs: seq<nat>, k: nat, mark: nat)
    requires k < |cs| && forall i | 0 <= i < |cs| :: cs[i] < |t|
  {
    && |t'| == |t|
    && forall d | 0 <= d < |t| :: t'[d] == if d in cs[k..] then 0 else if k > 0 && d == cs[k - 1] then mark else t[d]
  }

  lemma RemoveCuts(t: seq<nat>, cs: seq<nat>, k: nat, mark: nat)
    requires Chain(t, cs) && k < |cs| && mark >= |t|
    ensures var t1 := if k == 0 then t else t[cs[k - 1] := mark];
            Cluster(t1, cs[k]) && !MeetsOne(t1, cs[k]) && CutTable(t, Removed(t1, cs[k]), cs, k, mark)
  {
    forall i: nat, j: nat | i < j < |cs| ensures cs[i] != cs[j] {
      ChainDistinct(t, cs, i, j);
    }
    var t1 := if k == 0 then t else t[cs[k - 1] := mark];
    forall i: nat | k <= i < |cs| ensures Link(t1, cs, i) {
      assert Link(t, cs, i);
    }
    RemovedSuffix(t1, cs, k);
    hide Removed, MeetsOne;
  }

  lemma CutChain(t: seq<nat>, t': seq<nat>, cs: seq<nat>, k: nat, mark: nat)
    requires Chain(t, cs) && 0 < k < |cs| && mark >= |t| && CutTable(t, t', cs, k, mark)
    ensures Chain(t', cs[..k])
  {
    forall i: nat | i < k ensures cs[i] !in cs[k..] {
      forall j: nat | k <= j < |cs| ensures cs[i] != cs[j] {
        ChainDistinct(t, cs, i, j);
      }
    }
    forall i: nat | i < k ensures Link(t', cs[..k], i) {
      assert Link(t, cs, i);
      if i < k - 1 { ChainDistinct(t, cs, i, k - 1); }
    }
  }

  lemma OtherChain(css: seq<seq<nat>>, t: seq<nat>, t': seq<nat>, i: nat, j: nat, k: nat, mark: nat)
    requires Partition(t, css) && i < |css| && j < |css| && i != j && k < |css[i]| && CutTable(t, t', css[i], k, mark)
    ensures Chain(t', css[j])
  {
    assert Chain(t, css[j]);
    forall l | 0 <= l < |css[j]| ensures t'[css[j][l]] == t[css[j][l]] {
      assert css[j][l] !in css[i];
    }
    ChainUntouched(t, t', css[j]);
  }

  /** The chains after chain i has been cut in front of its cluster k. */
  function CutAt(css: seq<seq<nat>>, i: nat, k: nat): seq<seq<nat>>
    requires i < |css| && k <= |css[i]|
  {
    if k == 0 then css[..i] + css[i + 1..] else css[i := css[i][..k]]
  }

  /** remove_chain keeps the table a set of disjoint chains: chain i has become its first k
      clusters, or has gone when k is 0, and the others are the same. */
  lemma CutKeepsPartition(t: seq<nat>, t': seq<nat>, css: seq<seq<nat>>, i: nat, k: nat, mark: nat)
    requires Partition(t, css) && i < |css| && k < |css[i]| && mark >= |t| && CutTable(t, t', css[i], k, mark)
    ensures Partition(t', CutAt(css, i, k))
  {
    var css' := CutAt(css, i, k);
    forall j | 0 <= j < |css'| ensures Chain(t', css'[j]) {
      var j0 := if k == 0 && j >= i then j + 1 else j;
      if j0 == i { CutChain(t, t', css[i], k, mark); } else { OtherChain(css, t, t', i, j0, k, mark); }
    }
    CutUnshared(css, i, k);
    hide Chain, Unshared;
    forall c | 2 <= c < |t| && t'[c] != 0 ensures Holds(css', c) {
      CutHolds(t, t', css, i, k, mark, c);
    }
  }

  lemma CutUnshared(css: seq<seq<nat>>, i: nat, k: nat)
    requires Unshared(css) && i < |css| && k <= |css[i]|
    ensures Unshared(CutAt(css, i, k))
  {
  }

  lemma InSuffix(cs: seq<nat>, k: nat, l: nat)
    requires l < |cs| && k <= |cs|
    ensures k <= l ==> cs[l] in cs[k..]
  {
    if k <= l { assert cs[k..][l - k] == cs[l]; }
  }

  /** What is still in use was in use, and stands in front of the cut if it is in the cut chain. */
  lemma BeforeCut(t: seq<nat>, t': seq<nat>, cs: seq<nat>, k: nat, mark: nat, c: nat)
    requires Chain(t, cs) && k < |cs| && CutTable(t, t', cs, k, mark) && Cluster(t, c) && t'[c] != 0
    ensures t[c] != 0 && forall l: nat | l < |cs| && cs[l] == c :: l < k
  {
    if k > 0 { ChainInUse(t, cs, k - 1); }
    forall l: nat | l < |cs| && cs[l] == c ensures l < k {
      InSuffix(cs, k, l);
    }
  }

  lemma CutHolds(t: seq<nat>, t': seq<nat>, css: seq<seq<nat>>, i: nat, k: nat, mark: nat, c: nat)
    requires Partition(t, css) && i < |css| && k < |css[i]| && mark >= |t| && CutTable(t, t', css[i], k, mark)
    requires Cluster(t, c) && t'[c] != 0
    ensures Holds(CutAt(css, i, k), c)
  {
    BeforeCut(t, t', css[i], k, mark, c);
    var j, l :| 0 <= j < |css| && 0 <= l < |css[j]| && css[j][l] == c;
    hide Partition, Chain, Unshared, CutTable;
    StillHeld(css, i, k, j, l);
  }

  lemma StillHeld(css: seq<seq<nat>>, i: nat, k: nat, j: nat, l: nat)
    requires i < |css| && k <= |css[i]| && j < |css| && l < |css[j]| && (j == i ==> l < k)
    ensures Holds(CutAt(css, i, k), css[j][l])
  {
    assert CutAt(css, i, k)[if k == 0 && j > i then j - 1 else j][l] == css[j][l];
  }

  // ---------------------------------------------------------------- allocation

  /** The table after a free cluster has been marked as an end and linked behind cluster last, or
      behind nothing if last is 0. */
  function Linked(t: seq<nat>, last: nat, ncl: nat, mark: nat): (r: seq<nat>)
    requires Cluster(t, ncl) && (last == 0 || Cluster(t, last))
    ensures |r| == |t|
  {
    if last == 0 then t[ncl := mark] else t[ncl := mark][last := ncl]
  }

  lemma FreeNotHeld(t: seq<nat>, css: seq<seq<nat>>, c: nat)
    requires Partition(t, css) && Cluster(t, c) && t[c] == 0
    ensures !Holds(css, c)
  {
    if Holds(css, c) {
      var i, k :| 0 <= i < |css| && 0 <= k < |css[i]| && css[i][k] == c;
      ChainInUse(t, css[i], k);
    }
  }

  lemma AppendChain(t: seq<nat>, cs: seq<nat>, ncl: nat, mark: nat)
    requires Chain(t, cs) && Cluster(t, ncl) && ncl !in cs && mark >= |t|
    ensures Chain(Linked(t, cs[|cs| - 1], ncl, mark), cs + [ncl])
  {
    var t', cs' := Linked(t, cs[|cs| - 1], ncl, mark), cs + [ncl];
    forall k: nat | k < |cs'| ensures Link(t', cs', k) {
      if k < |cs| { assert Link(t, cs, k); }
      if k < |cs| - 1 { ChainDistinct(t, cs, k, |cs| - 1); }
    }
  }

  /** create_chain on the last cluster of chain i appends one free cluster to it and keeps every
      other chain. */
  lemma AppendKeepsPartition(t: seq<nat>, css: seq<seq<nat>>, i: nat, ncl: nat, mark: nat)
    requires Partition(t, css) && i < |css| && Cluster(t, ncl) && t[ncl] == 0 && mark >= |t|
    ensures |css[i]| > 0 && Cluster(t, css[i][|css[i]| - 1])
    ensures Partition(Linked(t, css[i][|css[i]| - 1], ncl, mark), css[i := css[i] + [ncl]])
  {
    FreeNotHeld(t, css, ncl);
    assert Chain(t, css[i]);
    var last := css[i][|css[i]| - 1];
    var t', css' := Linked(t, last, ncl, mark), css[i := css[i] + [ncl]];
    forall j | 0 <= j < |css| ensures Chain(t', css'[j]) {
      assert ncl !in css[j];
      if j == i { AppendChain(t, css[i], ncl, mark); } else { AppendOther(t, css, i, ncl, mark, j); }
    }
    AppendUnshared(css, i, ncl);
    hide Chain, Unshared;
    forall c | 2 <= c < |t| && t'[c] != 0 ensures Holds(css', c) {
      if c == ncl {
        assert css'[i][|css[i]|] == c;
      } else {
        AppendHolds(t, css, i, ncl, c);
      }
    }
  }

  lemma AppendOther(t: seq<nat>, css: seq<seq<nat>>, i: nat, ncl: nat, mark: nat, j: nat)
    requires Partition(t, css) && i < |css| && j < |css| && j != i && Cluster(t, ncl) && ncl !in css[j]
    requires |css[i]| > 0 && Cluster(t, css[i][|css[i]| - 1])
    ensures Chain(Linked(t, css[i][|css[i]| - 1], ncl, mark), css[j])
  {
    assert Chain(t, css[j]);
    ChainUntouched(t, Linked(t, css[i][|css[i]| - 1], ncl, mark), css[j]);
  }

  lemma AppendUnshared(css: seq<seq<nat>>, i: nat, ncl: nat)
    requires Unshared(css) && i < |css| && !Holds(css, ncl)
    ensures Unshared(css[i := css[i] + [ncl]])
  {
  }

  lemma AppendHolds(t: seq<nat>, css: seq<seq<nat>>, i: nat, ncl: nat, c: nat)
    requires Partition(t, css) && i < |css| && Cluster(t, c) && (t[c] != 0 || c in css[i])
    ensures Holds(css[i := css[i] + [ncl]], c)
  {
    if c in css[i] { var k :| 0 <= k < |css[i]| && css[i][k] == c; ChainInUse(t, css[i], k); }
    var j, l :| 0 <= j < |css| && 0 <= l < |css[j]| && css[j][l] == c;
    assert css[i := css[i] + [ncl]][j][l] == c;
  }

  /** create_chain without a predecessor adds a chain of one free cluster. */
  lemma NewKeepsPartition(t: seq<nat>, css: seq<seq<nat>>, ncl: nat, mark: nat)
    requires Partition(t, css) && Cluster(t, ncl) && t[ncl] == 0 && mark >= |t|
    ensures Partition(Linked(t, 0, ncl, mark), css + [[ncl]])
  {
    FreeNotHeld(t, css, ncl);
    var t', css' := Linked(t, 0, ncl, mark), css + [[ncl]];
    forall j | 0 <= j < |css| ensures Chain(t', css[j]) {
      assert Chain(t, css[j]) && ncl !in css[j];
      ChainUntouched(t, t', css[j]);
    }
    assert css'[|css|] == [ncl];
    assert Link(t', [ncl], 0);
    hide Chain;
    forall c | 2 <= c < |t| && t'[c] != 0 ensures Holds(css', c) {
      if c == ncl {
        assert css'[|css|][0] == c;
      } else {
        var j, l :| 0 <= j < |css| && 0 <= l < |css[j]| && css[j][l] == c;
        assert css'[j][l] == c;
      }
    }
  }
}
