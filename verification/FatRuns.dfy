/** What every run of create_chain, remove_chain and f_getfree keeps: the chains, and the cached
    count of free clusters. */
module FatRuns {
  import opened FatEntry
  import opened FatChain
  import opened FatVolume
  import opened FatAlloc

  datatype Op =
    | Create(clst: nat, r: nat)
    | Remove(clst: nat, pclst: nat, res: Result)
    | Count(res: Result)

  /** One operation as the methods of FatAlloc promise it, without a device error. */
  ghost predicate Step(ft: FatType, mark: nat, a: Alloc, op: Op, a': Alloc) {
    match op
    case Create(clst, r) => Created(a, a', clst, r, mark)
    case Remove(clst, pclst, res) => Freed(a, a', clst, pclst, res, mark)
    case Count(res) =>
      a' == if res != Ok || a.free + 2 <= |a.t| then a else a.(free := Scanned(ft, a.t))
  }

  /** Nothing links to c. */
  ghost predicate Head(t: seq<nat>, c: nat) {
    forall d | 2 <= d < |t| :: t[d] != c
  }

  /** How the file layer calls: it stretches clusters in use, and removes a chain from its first
      cluster, or from the successor of a cluster that it names. */
  ghost predicate Proper(a: Alloc, op: Op) {
    match op
    case Create(clst, _) => clst == 0 || (Cluster(a.t, clst) && a.t[clst] != 0)
    case Remove(clst, pclst, _) =>
      && Cluster(a.t, clst) && a.t[clst] != 0
      && if pclst == 0 then Head(a.t, clst) else Cluster(a.t, pclst) && a.t[pclst] == clst
    case Count(_) => true
  }

  ghost predicate HasPartition(t: seq<nat>) {
    exists css :: Partition(t, css)
  }

  /** The table is a set of disjoint chains, and the count of free clusters unknown or right; the
      reserved entries are in use, as the scan of f_getfree expects. */
  ghost predicate Good(ft: FatType, a: Alloc) {
    && |a.t| >= 3 && HasPartition(a.t) && TrueCount(a)
    && (ft == Fat12 || (a.t[0] != 0 && a.t[1] != 0))
  }

  // ---------------------------------------------------------------- the count

  lemma CreateKeepsCount(a: Alloc, a': Alloc, clst: nat, r: nat, mark: nat)
    requires Created(a, a', clst, r, mark) && TrueCount(a) && mark >= |a.t| >= 3
    ensures TrueCount(a')
  {
    if !BadEnd(a.t, clst) && !Followed(a.t, clst) && r > 1 {
      FreeUpdate(a.t, r, mark);
      if clst != 0 { FreeUpdate(a.t[r := mark], clst, r); }
    }
  }

  /** Removal keeps the count when the previous cluster, which becomes an end, was in use. */
  lemma RemoveKeepsCount(a: Alloc, a': Alloc, clst: nat, pclst: nat, res: Result, mark: nat)
    requires Freed(a, a', clst, pclst, res, mark) && TrueCount(a) && mark >= |a.t| >= 3
    requires pclst != 0 && Cluster(a.t, pclst) ==> a.t[pclst] != 0
    ensures TrueCount(a')
  {
    if pclst != 0 && Cluster(a.t, pclst) { FreeUpdate(a.t, pclst, mark); }
    hide Removed, MeetsOne;
  }

  /** With a right or unknown count and no entry 1, create_chain at the end of a chain, or for a
      new one, finds a free cluster exactly when there is one. */
  lemma SearchComplete(a: Alloc, a': Alloc, clst: nat, r: nat, mark: nat)
    requires Created(a, a', clst, r, mark) && TrueCount(a) && !HasOne(a.t) && |a.t| >= 2
    requires !BadEnd(a.t, clst) && !Followed(a.t, clst)
    ensures r == 0 <==> NoFree(a.t)
    ensures r != 0 ==> Cluster(a.t, r) && a.t[r] == 0
  {
    NoneFree(a.t, |a.t|);
  }

  // ---------------------------------------------------------------- the chains

  lemma PartitionHasNoOne(t: seq<nat>, css: seq<seq<nat>>)
    requires Partition(t, css)
    ensures !HasOne(t)
  {
    forall c | 2 <= c < |t| ensures t[c] != 1 {
      if t[c] != 0 {
        var i, k :| 0 <= i < |css| && 0 <= k < |css[i]| && css[i][k] == c;
        ChainInUse(t, css[i], k);
      }
    }
  }

  lemma Place(t: seq<nat>, css: seq<seq<nat>>, c: nat) returns (i: nat, k: nat)
    requires Partition(t, css) && Cluster(t, c) && t[c] != 0
    ensures i < |css| && k < |css[i]| && css[i][k] == c && Chain(t, css[i]) && Link(t, css[i], k)
  {
    assert Holds(css, c);
    var i0, k0 :| 0 <= i0 < |css| && 0 <= k0 < |css[i0]| && css[i0][k0] == c;
    i, k := i0, k0;
    assert Chain(t, css[i]);
  }

  lemma CreateKeepsChains(a: Alloc, a': Alloc, clst: nat, r: nat, mark: nat)
    requires Created(a, a', clst, r, mark) && HasPartition(a.t) && mark >= |a.t|
    requires clst == 0 || (Cluster(a.t, clst) && a.t[clst] != 0)
    ensures HasPartition(a'.t)
  {
    var css :| Partition(a.t, css);
    if !BadEnd(a.t, clst) && !Followed(a.t, clst) && r > 1 {
      if clst == 0 {
        NewKeepsPartition(a.t, css, r, mark);
      } else {
        var i, k := Place(a.t, css, clst);
        assert k == |css[i]| - 1;
        hide Partition, Chain;
        AppendKeepsPartition(a.t, css, i, r, mark);
      }
    }
  }

  lemma LinkBefore(t: seq<nat>, cs: seq<nat>, k: nat)
    requires Chain(t, cs) && k < |cs|
    ensures k > 0 ==> Cluster(t, cs[k - 1]) && t[cs[k - 1]] == cs[k]
  {
    if k > 0 { assert Link(t, cs, k - 1); }
  }

  /** The cluster to be removed stands behind its named predecessor, or first in its chain. */
  lemma RemovalPlace(t: seq<nat>, css: seq<seq<nat>>, clst: nat, pclst: nat) returns (i: nat, k: nat)
    requires Partition(t, css) && Cluster(t, clst) && t[clst] != 0
    requires if pclst == 0 then Head(t, clst) else Cluster(t, pclst) && t[pclst] == clst
    ensures i < |css| && k < |css[i]| && css[i][k] == clst
    ensures if k == 0 then pclst == 0 else pclst == css[i][k - 1]
  {
    i, k := Place(t, css, clst);
    LinkBefore(t, css[i], k);
    if pclst != 0 {
      var j, l := Place(t, css, pclst);
      assert l < |css[j]| - 1;
      assert css[j][l + 1] == css[i][k];
    }
  }

  lemma RemoveKeepsChains(a: Alloc, a': Alloc, clst: nat, pclst: nat, res: Result, mark: nat)
    requires Freed(a, a', clst, pclst, res, mark) && HasPartition(a.t) && mark >= |a.t|
    requires Proper(a, Remove(clst, pclst, res))
    ensures res == Ok && HasPartition(a'.t)
  {
    var css :| Partition(a.t, css);
    var i, k := RemovalPlace(a.t, css, clst, pclst);
    assert Chain(a.t, css[i]);
    hide Partition, MeetsOne, Removed;
    RemoveCuts(a.t, css[i], k, mark);
    CutKeepsPartition(a.t, a'.t, css, i, k, mark);
  }

  // ---------------------------------------------------------------- runs

  lemma ReservedKept(ft: FatType, mark: nat, a: Alloc, op: Op, a': Alloc)
    requires Step(ft, mark, a, op, a') && |a.t| >= 3
    ensures |a'.t| == |a.t| && a'.t[0] == a.t[0] && a'.t[1] == a.t[1]
  {
    match op {
      case Create(clst, r) =>
      case Remove(clst, pclst, res) =>
        if Cluster(a.t, clst) && (pclst == 0 || Cluster(a.t, pclst)) {
          RemovedOnlyFrees(Ended(a.t, pclst, mark), clst);
        }
        hide Removed, MeetsOne, FreeCount;
      case Count(_) =>
    }
  }

  lemma StepKeepsGood(ft: FatType, mark: nat, a: Alloc, op: Op, a': Alloc)
    requires Step(ft, mark, a, op, a') && Good(ft, a) && Proper(a, op) && mark >= |a.t|
    ensures Good(ft, a') && |a'.t| == |a.t|
  {
    ReservedKept(ft, mark, a, op, a');
    hide HasPartition;
    match op {
      case Create(clst, r) =>
        CreateKeepsCount(a, a', clst, r, mark);
        CreateKeepsChains(a, a', clst, r, mark);
      case Remove(clst, pclst, res) =>
        RemoveKeepsCount(a, a', clst, pclst, res, mark);
        RemoveKeepsChains(a, a', clst, pclst, res, mark);
      case Count(_) =>
        ScanExact(ft, a.t);
    }
    hide Created, Freed, TrueCount, Scanned;
  }

  /** A run: the state before each operation, the last state, and the operations. */
  ghost predicate IsRun(ft: FatType, mark: nat, states: seq<Alloc>, ops: seq<Op>) {
    && |states| == |ops| + 1
    && forall k: nat {:trigger ops[k]} | k < |ops| ::
       Step(ft, mark, states[k], ops[k], states[k + 1]) && Proper(states[k], ops[k])
  }

  /** Every run of proper calls keeps the table a set of disjoint chains without cycles and the
      cached count unknown or equal to the number of free clusters. */
  lemma {:induction false} RunKeepsGood(ft: FatType, mark: nat, states: seq<Alloc>, ops: seq<Op>, k: nat)
    requires IsRun(ft, mark, states, ops) && k <= |ops|
    requires Good(ft, states[0]) && mark >= |states[0].t|
    ensures Good(ft, states[k]) && |states[k].t| == |states[0].t|
  {
    if k > 0 {
      RunKeepsGood(ft, mark, states, ops, k - 1);
      assert Step(ft, mark, states[k - 1], ops[k - 1], states[k]) && Proper(states[k - 1], ops[k - 1]);
      hide Step, Good, Proper;
      StepKeepsGood(ft, mark, states[k - 1], ops[k - 1], states[k]);
    }
  }

  /** In every state that a run reaches, a request for a cluster fails exactly when none is free. */
  lemma RunsFindFree(ft: FatType, mark: nat, states: seq<Alloc>, ops: seq<Op>, k: nat)
    requires IsRun(ft, mark, states, ops) && k < |ops| && ops[k].Create?
    requires Good(ft, states[0]) && mark >= |states[0].t|
    requires !Followed(states[k].t, ops[k].clst)
    ensures ops[k].r == 0 <==> NoFree(states[k].t)
    ensures ops[k].r != 0 ==> Cluster(states[k].t, ops[k].r) && states[k].t[ops[k].r] == 0
  {
    RunKeepsGood(ft, mark, states, ops, k);
    var a := states[k];
    assert Step(ft, mark, a, ops[k], states[k + 1]) && Proper(a, ops[k]);
    var css :| Partition(a.t, css);
    PartitionHasNoOne(a.t, css);
    hide Partition;
    assert ops[k].clst != 0 ==> a.t[ops[k].clst] != 1;
    SearchComplete(a, states[k + 1], ops[k].clst, ops[k].r, mark);
  }
}
