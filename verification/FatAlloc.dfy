/** Allocating and freeing clusters (create_chain, remove_chain and f_getfree in ff.c). */
module FatAlloc {
  import opened FatEntry
  import opened FatDisk
  import opened FatChain
  import opened FatVolume

  /** The value that the end mark has in the table. */
  function Mark(g: Geometry): nat {
    Cut(g.fatType, END_MARK)
  }

  lemma MarkEnds(g: Geometry)
    requires GeometryOk(g)
    ensures g.nFatent <= Mark(g) < Modulus(g.fatType) && Mark(g) == Modulus(g.fatType) - 1
  {
  }

  ghost predicate NoFree(t: seq<nat>) {
    forall c | 2 <= c < |t| :: t[c] != 0
  }

  /** Some entry has the value 1, which no valid table contains. */
  ghost predicate HasOne(t: seq<nat>) {
    exists c :: 2 <= c < |t| && t[c] == 1
  }

  /** The table and the two counters that allocation depends on. */
  datatype Alloc = Alloc(t: seq<nat>, free: nat, last: nat)

  ghost function AllocOf(v: Volume): Alloc
    requires v.Valid()
    reads v, v.win
  {
    Alloc(v.Fat(), v.freeClst, v.lastClst)
  }

  /** The cached count of free clusters is unknown or right. */
  ghost predicate TrueCount(a: Alloc) {
    a.free > |a.t| - 2 || a.free == FreeCount(a.t)
  }

  /** create_chain has an error to report about its argument. */
  predicate BadEnd(t: seq<nat>, clst: nat) {
    clst != 0 && (!Cluster(t, clst) || t[clst] < 2)
  }

  /** The argument is followed by another cluster already. */
  predicate Followed(t: seq<nat>, clst: nat) {
    clst != 0 && Cluster(t, clst) && 2 <= t[clst] < |t|
  }

  /** None of the clusters from lo up to hi is free. */
  ghost predicate Taken(t: seq<nat>, lo: nat, hi: nat) {
    forall c | lo <= c < hi && c < |t| :: t[c] != 0
  }

  /** The first free cluster behind place scl, cyclically. */
  ghost predicate FirstBehind(t: seq<nat>, scl: nat, r: nat) {
    && 2 <= r < |t| && t[r] == 0
    && if r > scl then Taken(t, scl + 1, r) else Taken(t, scl + 1, |t|) && Taken(t, 2, r)
  }

  /** Which free cluster create_chain(clst) takes: the one right behind clst if that is free, or else the
      first behind the cluster allocated last. */
  ghost predicate Chosen(a: Alloc, clst: nat, r: nat) {
    var n := |a.t|;
    var next := if clst + 1 < n then clst + 1 else 2;
    if clst != 0 && 2 <= next < n && a.t[next] == 0 then r == next
    else FirstBehind(a.t, if 2 <= a.last < n then a.last else if clst != 0 then clst else 1, r)
  }

  /** What create_chain(clst) returns and leaves, without a device error. */
  ghost predicate Created(a: Alloc, a': Alloc, clst: nat, r: nat, mark: nat) {
    if BadEnd(a.t, clst) then r == 1 && a' == a
    else if Followed(a.t, clst) then r == a.t[clst] && a' == a
    else if r == 0 then a' == a && (a.free == 0 || NoFree(a.t))
    else if r == 1 then a' == a && HasOne(a.t)
    else
      && Cluster(a.t, r) && a.t[r] == 0 && Chosen(a, clst, r)
      && a'.t == FatChain.Linked(a.t, clst, r, mark)
      && a.free != 0 && a'.free == (if a.free <= |a.t| - 2 then a.free - 1 else a.free)
      && a'.last == r
  }

  /** The volume still holds table t and, outside the second FAT, contents d. */
  ghost predicate Holding(v: Volume, t: seq<nat>, d: Disk)
    reads v, v.win
  {
    v.Valid() && v.Fat() == t && |t| == v.g.nFatent && SameContents(v.g, d, v.Logical())
  }

  lemma HoldingMeans(v: Volume, t: seq<nat>, d: Disk)
    requires Holding(v, t, d)
    ensures v.Valid() && v.Fat() == t && |t| == v.g.nFatent && 3 <= v.g.nFatent < DISK_ERROR
    ensures SameContents(v.g, d, v.Logical()) && OnlyFat(v.g, d, v.Logical())
  {
  }

  lemma NowHolding(v: Volume)
    requires v.Valid()
    ensures Holding(v, v.Fat(), v.Logical())
  {
    SameAsItself(v.g, v.Logical());
  }

  lemma EntriesSmall(v: Volume, c: nat)
    requires v.Valid() && c < v.g.nFatent
    ensures v.Fat()[c] < DISK_ERROR && v.g.nFatent < DISK_ERROR
  {
  }

  /** get_fat of a cluster, for a caller that follows a table. */
  method Peek(v: Volume, c: nat, ghost t: seq<nat>, ghost d: Disk) returns (val: nat)
    requires Holding(v, t, d) && 2 <= c < v.g.nFatent
    modifies v`disk, v`winsect, v`wflag, v`faulty, v.win
    ensures Holding(v, t, d)
    ensures old(v.faulty) ==> v.faulty
    ensures c < |t| && (val == t[c] || val == DISK_ERROR) && (val == DISK_ERROR ==> v.faulty)
  {
    ghost var d1 := v.Logical();
    EntriesSmall(v, c);
    val := v.GetFat(c);
    hide SameContents;
    SameTwice(v.g, d, d1, v.Logical());
  }

  lemma TakenMore(t: seq<nat>, lo: nat, hi: nat)
    requires Taken(t, lo, hi) && hi < |t| && t[hi] != 0
    ensures Taken(t, lo, hi + 1)
  {
  }

  lemma TakenNone(t: seq<nat>, lo: nat)
    ensures Taken(t, lo, lo)
  {
  }

  lemma AllTaken(t: seq<nat>, scl: nat)
    requires 1 <= scl && Taken(t, scl + 1, |t|) && Taken(t, 2, scl + 1)
    ensures NoFree(t)
  {
  }

  lemma FirstIs(t: seq<nat>, scl: nat, r: nat)
    requires 2 <= r < |t| && t[r] == 0
    requires if r > scl then Taken(t, scl + 1, r) else Taken(t, scl + 1, |t|) && Taken(t, 2, r)
    ensures FirstBehind(t, scl, r)
  {
  }

  lemma OneSeen(t: seq<nat>, c: nat)
    requires 2 <= c < |t|
    ensures t[c] == 1 ==> HasOne(t)
  {
  }

  /** The cyclic search for a free cluster behind scl. */
  method FindFree(v: Volume, scl: nat, ghost t: seq<nat>, ghost d: Disk) returns (ncl: nat)
    requires Holding(v, t, d) && 1 <= scl < v.g.nFatent
    modifies v`disk, v`winsect, v`wflag, v`faulty, v.win
    ensures Holding(v, t, d)
    ensures old(v.faulty) ==> v.faulty
    ensures ncl == 0 ==> NoFree(t)
    ensures ncl == 1 ==> HasOne(t)
    ensures ncl == DISK_ERROR ==> v.faulty
    ensures ncl != 0 && ncl != 1 && ncl != DISK_ERROR ==> 2 <= ncl < |t| && FirstBehind(t, scl, ncl)
  {
    hide *;
    HoldingMeans(v, t, d);
    var n := v.g.nFatent;
    ghost var wrapped := false;
    TakenNone(t, scl + 1);
    ncl := scl;
    while true
      invariant Holding(v, t, d) && (old(v.faulty) ==> v.faulty)
      invariant if wrapped then 2 <= ncl < scl else scl <= ncl < n
      invariant if wrapped then Taken(t, scl + 1, n) && Taken(t, 2, ncl + 1) else Taken(t, scl + 1, ncl + 1)
      decreases !wrapped, n - ncl
    {
      ncl := ncl + 1;
      if ncl >= n {
        ncl := 2;
        wrapped := true;
        TakenNone(t, 2);
        if ncl > scl { AllTaken(t, scl); return 0; }
      }
      var cs := Peek(v, ncl, t, d);
      if cs == 0 { FirstIs(t, scl, ncl); return; }
      if cs == 1 || cs == DISK_ERROR { OneSeen(t, ncl); return cs; }
      TakenMore(t, if wrapped then 2 else scl + 1, ncl);
      if ncl == scl { AllTaken(t, scl); return 0; }
    }
  }

  /** The probe of the cluster right behind the end of a chain; 0 if it is not free. */
  method ProbeNext(v: Volume, clst: nat, ghost t: seq<nat>, ghost d: Disk) returns (ncl: nat)
    requires Holding(v, t, d) && 2 <= clst < v.g.nFatent
    modifies v`disk, v`winsect, v`wflag, v`faulty, v.win
    ensures Holding(v, t, d)
    ensures old(v.faulty) ==> v.faulty
    ensures ncl == 1 ==> HasOne(t)
    ensures ncl == DISK_ERROR ==> v.faulty
    ensures var next := if clst + 1 < v.g.nFatent then clst + 1 else 2;
            (ncl != 0 && ncl != 1 && ncl != DISK_ERROR ==> next < |t| && t[next] == 0 && ncl == next)
            && (ncl == 0 ==> next < |t| && t[next] != 0)
  {
    hide *;
    HoldingMeans(v, t, d);
    ncl := clst + 1;
    if ncl >= v.g.nFatent { ncl := 2; }
    var cs := Peek(v, ncl, t, d);
    if cs == 1 || cs == DISK_ERROR { OneSeen(t, ncl); return cs; }
    if cs != 0 { ncl := 0; }
  }

  lemma ChosenIs(a: Alloc, clst: nat)
    ensures forall r :: Chosen(a, clst, r) <==>
              var next := if clst + 1 < |a.t| then clst + 1 else 2;
              if clst != 0 && 2 <= next < |a.t| && a.t[next] == 0 then r == next
              else FirstBehind(a.t, if 2 <= a.last < |a.t| then a.last else if clst != 0 then clst else 1, r)
  {
  }

  lemma FirstIsFree(a: Alloc, clst: nat, r: nat)
    requires Chosen(a, clst, r)
    ensures 2 <= r < |a.t| && a.t[r] == 0
  {
  }

  /** The choice of a cluster behind clst, or for a new chain if clst is 0. */
  method ChooseFree(v: Volume, clst: nat, ghost t: seq<nat>, ghost d: Disk) returns (ncl: nat)
    requires Holding(v, t, d) && (clst == 0 || 2 <= clst < v.g.nFatent)
    modifies v`disk, v`winsect, v`wflag, v`faulty, v.win
    ensures Holding(v, t, d)
    ensures old(v.faulty) ==> v.faulty
    ensures ncl == 0 ==> NoFree(t)
    ensures ncl == 1 ==> HasOne(t)
    ensures ncl == DISK_ERROR ==> v.faulty
    ensures ncl != 0 && ncl != 1 && ncl != DISK_ERROR ==>
              2 <= ncl < |t| && Chosen(Alloc(t, v.freeClst, v.lastClst), clst, ncl)
  {
    ChosenIs(Alloc(t, v.freeClst, v.lastClst), clst);
    hide *;
    HoldingMeans(v, t, d);
    var scl;
    if clst == 0 {
      scl := v.lastClst;
      if scl == 0 || scl >= v.g.nFatent { scl := 1; }
    } else {
      scl := clst;
    }
    ncl := 0;
    if scl == clst {
      ncl := ProbeNext(v, clst, t, d);
      if ncl == 1 || ncl == DISK_ERROR { return; }
      if ncl == 0 {
        var cs := v.lastClst;
        if cs >= 2 && cs < v.g.nFatent { scl := cs; }
      }
    }
    if ncl == 0 { ncl := FindFree(v, scl, t, d); }
  }

  /** Marks ncl as an end and links it behind clst if that is not 0. */
  method LinkNew(v: Volume, clst: nat, ncl: nat) returns (res: Result)
    requires v.Valid() && Cluster(v.Fat(), ncl) && (clst == 0 || Cluster(v.Fat(), clst))
    modifies v`disk, v`winsect, v`wflag, v`faulty, v.win
    ensures v.Valid() && OnlyFat(v.g, old(v.Logical()), v.Logical())
    ensures old(v.faulty) ==> v.faulty
    ensures res == Ok || (res == DiskError && v.faulty)
    ensures res == Ok ==> v.Fat() == FatChain.Linked(old(v.Fat()), clst, ncl, Mark(v.g))
  {
    ghost var t, d := v.Fat(), v.Logical();
    SmallCluster(v, ncl);
    LinkedIs(t, clst, ncl, Mark(v.g));
    hide *;
    res := v.PutFat(ncl, END_MARK);
    ghost var d1 := v.Logical();
    if res != Ok || clst == 0 { MarkIs(v.g); return; }
    MarkIs(v.g);
    res := v.PutFat(clst, ncl);
    OnlyFatTwice(v.g, d, d1, v.Logical());
  }

  lemma SmallCluster(v: Volume, c: nat)
    requires v.Valid() && c < v.g.nFatent
    ensures Cut(v.g.fatType, c) == c && |v.Fat()| == v.g.nFatent
  {
  }

  lemma MarkIs(g: Geometry)
    ensures Mark(g) == Cut(g.fatType, END_MARK)
  {
  }

  lemma LinkedIs(t: seq<nat>, clst: nat, ncl: nat, mark: nat)
    requires Cluster(t, ncl) && (clst == 0 || Cluster(t, clst))
    ensures 2 <= ncl < |t| && (clst == 0 || 2 <= clst < |t|)
    ensures FatChain.Linked(t, clst, ncl, mark) == if clst == 0 then t[ncl := mark] else t[ncl := mark][clst := ncl]
  {
  }

  /** What the entry of the supposed end of a chain says. */
  method CheckEnd(v: Volume, clst: nat, ghost t: seq<nat>, ghost d: Disk) returns (cs: nat)
    requires Holding(v, t, d) && clst != 0
    modifies v`disk, v`winsect, v`wflag, v`faulty, v.win
    ensures Holding(v, t, d)
    ensures old(v.faulty) ==> v.faulty
    ensures cs == DISK_ERROR ==> v.faulty
    ensures cs < 2 ==> BadEnd(t, clst)
    ensures 2 <= cs < v.g.nFatent ==> Followed(t, clst) && cs == t[clst]
    ensures v.g.nFatent <= cs && cs != DISK_ERROR ==> 2 <= clst < v.g.nFatent && !BadEnd(t, clst) && !Followed(t, clst)
  {
    hide *;
    HoldingMeans(v, t, d);
    EndCases(t, clst);
    ghost var d1 := v.Logical();
    cs := v.GetFat(clst);
    SameTwice(v.g, d, d1, v.Logical());
    if 2 <= clst < v.g.nFatent { EntriesSmall(v, clst); }
    HoldingNow(v, t, d);
  }

  lemma HoldingNow(v: Volume, t: seq<nat>, d: Disk)
    requires v.Valid() && v.Fat() == t && SameContents(v.g, d, v.Logical())
    ensures Holding(v, t, d)
  {
  }

  lemma EndCases(t: seq<nat>, clst: nat)
    requires clst != 0
    ensures clst < 2 || clst >= |t| ==> BadEnd(t, clst) && !Followed(t, clst)
    ensures 2 <= clst < |t| ==> (BadEnd(t, clst) <==> t[clst] < 2) && (Followed(t, clst) <==> 2 <= t[clst] < |t|)
  {
  }

  /** The results of create_chain that leave everything as it was. */
  lemma CreatedNothing(v: Volume, a: Alloc, clst: nat, r: nat, mark: nat)
    requires v.Valid() && a == Alloc(v.Fat(), v.freeClst, v.lastClst)
    requires if BadEnd(a.t, clst) then r == 1 else if Followed(a.t, clst) then r == a.t[clst]
             else (r == 0 && (a.free == 0 || NoFree(a.t))) || (r == 1 && HasOne(a.t))
    ensures Created(a, AllocOf(v), clst, r, mark)
  {
  }

  lemma CreatedNew(v: Volume, a: Alloc, clst: nat, r: nat, mark: nat)
    requires v.Valid() && !BadEnd(a.t, clst) && !Followed(a.t, clst) && 2 <= r < |a.t| && a.t[r] == 0 && a.free != 0
    requires v.Fat() == FatChain.Linked(a.t, clst, r, mark) && v.lastClst == r
    requires v.freeClst == if a.free <= |a.t| - 2 then a.free - 1 else a.free
    requires Chosen(a, clst, r)
    ensures Created(a, AllocOf(v), clst, r, mark)
  {
  }

  lemma AllocIs(v: Volume)
    requires v.Valid()
    ensures AllocOf(v) == Alloc(v.Fat(), v.freeClst, v.lastClst)
  {
  }

  /** create_chain */
  method CreateChain(v: Volume, clst: nat) returns (ncl: nat)
    requires v.Valid()
    modifies v, v.win
    ensures v.Valid() && OnlyFat(v.g, old(v.Logical()), v.Logical())
    ensures old(v.fsiFlag) || v.freeClst != old(v.freeClst) || v.lastClst != old(v.lastClst) ==> v.fsiFlag
    ensures old(v.faulty) ==> v.faulty
    ensures ncl == DISK_ERROR ==> v.faulty
    ensures !v.faulty ==> Created(old(AllocOf(v)), AllocOf(v), clst, ncl, Mark(v.g))
  {
    ghost var a, d, mark := AllocOf(v), v.Logical(), Mark(v.g);
    NowHolding(v);
    EntriesSmall(v, 2);
    AllocIs(v);
    NewEnd(a.t);
    hide *;
    if clst != 0 {
      var cs := CheckEnd(v, clst, a.t, d);
      HoldingMeans(v, a.t, d);
      if cs < 2 { CreatedNothing(v, a, clst, 1, mark); return 1; }
      if cs == DISK_ERROR { return cs; }
      if cs < v.g.nFatent { CreatedNothing(v, a, clst, cs, mark); return cs; }
    }
    HoldingMeans(v, a.t, d);
    if v.freeClst == 0 { CreatedNothing(v, a, clst, 0, mark); return 0; }
    ncl := ChooseFree(v, clst, a.t, d);
    HoldingMeans(v, a.t, d);
    if ncl == 0 || ncl == 1 || ncl == DISK_ERROR {
      if ncl != DISK_ERROR { CreatedNothing(v, a, clst, ncl, mark); }
      return;
    }
    ncl := LinkAndCount(v, clst, ncl, a, d);
  }

  lemma NewEnd(t: seq<nat>)
    ensures !BadEnd(t, 0) && !Followed(t, 0)
  {
  }

  /** The end of create_chain, once a cluster has been found. */
  method LinkAndCount(v: Volume, clst: nat, found: nat, ghost a: Alloc, ghost d: Disk) returns (ncl: nat)
    requires v.Valid() && a == Alloc(v.Fat(), v.freeClst, v.lastClst) && |a.t| == v.g.nFatent
    requires OnlyFat(v.g, d, v.Logical())
    requires !BadEnd(a.t, clst) && !Followed(a.t, clst) && 2 <= found < |a.t| && a.t[found] == 0 && a.free != 0
    requires Chosen(a, clst, found)
    requires clst == 0 || 2 <= clst < |a.t|
    modifies v, v.win
    ensures v.Valid() && OnlyFat(v.g, d, v.Logical())
    ensures old(v.fsiFlag) || v.freeClst != old(v.freeClst) || v.lastClst != old(v.lastClst) ==> v.fsiFlag
    ensures old(v.faulty) ==> v.faulty
    ensures ncl == DISK_ERROR ==> v.faulty
    ensures !v.faulty ==> Created(a, AllocOf(v), clst, ncl, Mark(v.g))
  {
    EntriesSmall(v, 2);
    ClusterIs(a.t, found);
    ClusterIs(a.t, clst);
    ghost var d1 := v.Logical();
    hide *;
    ncl := found;
    var res := LinkNew(v, clst, ncl);
    OnlyFatTwice(v.g, d, d1, v.Logical());
    if res == Ok {
      Counted(v, ncl);
      CreatedNew(v, a, clst, ncl, Mark(v.g));
    } else {
      // both clusters are in range, so put_fat can only have met a device error
      ncl := DISK_ERROR;
    }
  }

  /** Bookkeeping after an allocation. */
  method Counted(v: Volume, ncl: nat)
    requires v.Valid() && v.freeClst != 0
    modifies v`lastClst, v`freeClst, v`fsiFlag
    ensures v.Valid() && v.Fat() == old(v.Fat()) && v.Logical() == old(v.Logical())
    ensures old(v.fsiFlag) || v.freeClst != old(v.freeClst) || v.lastClst != old(v.lastClst) ==> v.fsiFlag
    ensures v.lastClst == ncl
    ensures v.freeClst == if old(v.freeClst) <= v.g.nFatent - 2 then old(v.freeClst) - 1 else old(v.freeClst)
  {
    v.lastClst := ncl;
    if v.freeClst <= v.g.nFatent - 2 { v.freeClst := v.freeClst - 1; }
    v.fsiFlag := true;
  }

  lemma ClusterIs(t: seq<nat>, c: nat)
    ensures Cluster(t, c) <==> 2 <= c < |t|
  {
  }

  // ---------------------------------------------------------------- remove_chain

  /** The cached count after k clusters have been freed one by one. */
  function CountUp(free: nat, n: nat, k: nat): nat {
    if free + 2 >= n then free else if free + k + 2 >= n then n - 2 else free + k
  }

  /** The table in which remove_chain starts to free, with the previous cluster as a new end. */
  function Ended(t: seq<nat>, pclst: nat, mark: nat): seq<nat> {
    if pclst != 0 && Cluster(t, pclst) then t[pclst := mark] else t
  }

  /** What remove_chain(clst, pclst) returns and leaves, without a device error. */
  ghost predicate Freed(a: Alloc, a': Alloc, clst: nat, pclst: nat, res: Result, mark: nat) {
    if !Cluster(a.t, clst) || (pclst != 0 && !Cluster(a.t, pclst)) then res == IntError && a' == a
    else
      var t1 := Ended(a.t, pclst, mark);
      && |t1| == |a.t| && a'.t == Removed(t1, clst)
      && res == (if MeetsOne(t1, clst) then IntError else Ok)
      && FreeCount(a'.t) >= FreeCount(t1)
      && a'.free == CountUp(a.free, |a.t|, FreeCount(a'.t) - FreeCount(t1))
      && a'.last == a.last
  }

  /** What is still to be done after some rounds of the loop in remove_chain: table t is being freed
      from cluster c on, t1 was the table at the beginning and free1 the count. */
  ghost predicate Freeing(t1: seq<nat>, clst: nat, free1: nat, t: seq<nat>, c: nat, free: nat) {
    && |t| == |t1| && Cluster(t1, clst) && Cluster(t, c)
    && Removed(t, c) == Removed(t1, clst) && (MeetsOne(t, c) <==> MeetsOne(t1, clst))
    && FreeCount(t) >= FreeCount(t1) && free == CountUp(free1, |t1|, FreeCount(t) - FreeCount(t1))
  }

  /** The loop has ended with table t. */
  ghost predicate FreedAll(t1: seq<nat>, clst: nat, free1: nat, t: seq<nat>, free: nat, res: Result) {
    && |t| == |t1| && Cluster(t1, clst) && t == Removed(t1, clst)
    && res == (if MeetsOne(t1, clst) then IntError else Ok)
    && FreeCount(t) >= FreeCount(t1) && free == CountUp(free1, |t1|, FreeCount(t) - FreeCount(t1))
  }

  lemma FreeingStarts(t: seq<nat>, clst: nat, free: nat)
    requires 2 <= clst < |t|
    ensures Freeing(t, clst, free, t, clst, free)
  {
  }

  /** One round frees a cluster in use, so the number of free clusters grows. */
  lemma FreeingStep(t1: seq<nat>, clst: nat, free1: nat, t: seq<nat>, c: nat, free: nat)
    requires Freeing(t1, clst, free1, t, c, free) && t[c] > 1
    ensures FreeCount(t) < FreeCount(t[c := 0]) < |t|
    ensures var free' := if free + 2 < |t| then free + 1 else free;
            if t[c] < |t| then Freeing(t1, clst, free1, t[c := 0], t[c], free')
            else FreedAll(t1, clst, free1, t[c := 0], free', Ok)
  {
    FreeUpdate(t, c, 0);
    NotAllFree(t, c);
  }

  lemma FreeingStops(t1: seq<nat>, clst: nat, free1: nat, t: seq<nat>, c: nat, free: nat)
    requires Freeing(t1, clst, free1, t, c, free) && t[c] <= 1
    ensures FreedAll(t1, clst, free1, t, free, if t[c] == 1 then IntError else Ok)
  {
  }

  lemma FreeingMeans(t1: seq<nat>, clst: nat, free1: nat, t: seq<nat>, c: nat, free: nat)
    requires Freeing(t1, clst, free1, t, c, free)
    ensures |t| == |t1| && 2 <= c < |t| && FreeCount(t) <= |t|
  {
  }

  lemma FreedIs(v: Volume, a: Alloc, clst: nat, pclst: nat, res: Result, mark: nat)
    requires v.Valid() && 2 <= clst < |a.t| && (pclst == 0 || 2 <= pclst < |a.t|)
    requires FreedAll(Ended(a.t, pclst, mark), clst, a.free, v.Fat(), v.freeClst, res) && v.lastClst == a.last
    ensures Freed(a, AllocOf(v), clst, pclst, res, mark)
  {
  }

  lemma FreedNothing(v: Volume, a: Alloc, clst: nat, pclst: nat, mark: nat)
    requires v.Valid() && a == Alloc(v.Fat(), v.freeClst, v.lastClst)
    requires !(2 <= clst < |a.t|) || (pclst != 0 && !(2 <= pclst < |a.t|))
    ensures Freed(a, AllocOf(v), clst, pclst, IntError, mark)
  {
  }

  /** One round of the loop in remove_chain: frees c and gives its successor, 0 at a free cluster. */
  method FreeOne(v: Volume, c: nat) returns (res: Result, nxt: nat)
    requires v.Valid() && 2 <= c < v.g.nFatent
    modifies v, v.win
    ensures v.Valid() && OnlyFat(v.g, old(v.Logical()), v.Logical()) && v.lastClst == old(v.lastClst)
    ensures old(v.fsiFlag) || v.freeClst != old(v.freeClst) || v.lastClst != old(v.lastClst) ==> v.fsiFlag
    ensures old(v.faulty) ==> v.faulty
    ensures |old(v.Fat())| == v.g.nFatent
    ensures res == DiskError ==> v.faulty
    ensures res != DiskError ==> nxt == old(v.Fat())[c] && res == if nxt == 1 then IntError else Ok
    ensures res == DiskError || nxt <= 1 ==> v.freeClst == old(v.freeClst)
    ensures res != DiskError && nxt <= 1 ==> v.Fat() == old(v.Fat())
    ensures res != DiskError && nxt > 1 ==> v.Fat() == old(v.Fat())[c := 0]
    ensures res != DiskError && nxt > 1 ==>
              v.freeClst == if old(v.freeClst) + 2 < v.g.nFatent then old(v.freeClst) + 1 else old(v.freeClst)
  {
    ghost var d := v.Logical();
    EntriesSmall(v, c);
    CutZero(v.g);
    hide *;
    res := Ok;
    nxt := v.GetFat(c);
    ghost var d1 := v.Logical();
    SameIsOnlyFat(v.g, d, d1);
    if nxt == 0 { return; }
    if nxt == 1 { res := IntError; return; }
    if nxt == DISK_ERROR { res := DiskError; return; }
    res := v.PutFat(c, 0);
    OnlyFatTwice(v.g, d, d1, v.Logical());
    if res != Ok { return; }
    if v.freeClst + 2 < v.g.nFatent { CountFreed(v); }
  }

  lemma CutZero(g: Geometry)
    ensures Cut(g.fatType, 0) == 0
  {
  }

  method CountFreed(v: Volume)
    requires v.Valid()
    modifies v`freeClst, v`fsiFlag
    ensures v.Valid() && v.Fat() == old(v.Fat()) && v.Logical() == old(v.Logical()) && v.freeClst == old(v.freeClst) + 1
    ensures old(v.fsiFlag) || v.freeClst != old(v.freeClst) || v.lastClst != old(v.lastClst) ==> v.fsiFlag
  {
    v.freeClst := v.freeClst + 1;
    v.fsiFlag := true;
  }

  /** The loop of remove_chain.  It ends on every table, even one with cycles or shared tails,
      because every round but the last makes the number of free clusters grow. */
  method FreeAll(v: Volume, clst: nat, ghost t1: seq<nat>, ghost d: Disk) returns (res: Result)
    requires v.Valid() && v.Fat() == t1 && OnlyFat(v.g, d, v.Logical()) && 2 <= clst < v.g.nFatent
    modifies v, v.win
    ensures v.Valid() && OnlyFat(v.g, d, v.Logical()) && v.lastClst == old(v.lastClst)
    ensures old(v.fsiFlag) || v.freeClst != old(v.freeClst) || v.lastClst != old(v.lastClst) ==> v.fsiFlag
    ensures old(v.faulty) ==> v.faulty
    ensures res == DiskError ==> v.faulty
    ensures res != DiskError ==> FreedAll(t1, clst, old(v.freeClst), v.Fat(), v.freeClst, res)
  {
    ghost var free1 := v.freeClst;
    EntriesSmall(v, 2);
    var c := clst;
    hide *;
    FreeingStarts(t1, clst, free1);
    FreeingMeans(t1, clst, free1, t1, clst, free1);
    while true
      invariant v.Valid() && OnlyFat(v.g, d, v.Logical()) && v.lastClst == old(v.lastClst)
      invariant old(v.fsiFlag) || v.freeClst != old(v.freeClst) ==> v.fsiFlag
      invariant (old(v.faulty) ==> v.faulty)
      invariant 2 <= c < v.g.nFatent && |v.Fat()| == v.g.nFatent
      invariant Freeing(t1, clst, free1, v.Fat(), c, v.freeClst)
      decreases v.g.nFatent - FreeCount(v.Fat())
    {
      ghost var t, free, d1 := v.Fat(), v.freeClst, v.Logical();
      FreeingMeans(t1, clst, free1, t, c, free);
      var nxt;
      res, nxt := FreeOne(v, c);
      OnlyFatTwice(v.g, d, d1, v.Logical());
      if res == DiskError { return; }
      if nxt <= 1 { FreeingStops(t1, clst, free1, t, c, free); return; }
      FreeingStep(t1, clst, free1, t, c, free);
      c := nxt;
      if c >= v.g.nFatent { return; }
    }
  }

  /** remove_chain */
  method RemoveChain(v: Volume, clst: nat, pclst: nat) returns (res: Result)
    requires v.Valid()
    modifies v, v.win
    ensures v.Valid() && OnlyFat(v.g, old(v.Logical()), v.Logical())
    ensures old(v.fsiFlag) || v.freeClst != old(v.freeClst) || v.lastClst != old(v.lastClst) ==> v.fsiFlag
    ensures old(v.faulty) ==> v.faulty
    ensures res == DiskError ==> v.faulty
    ensures !v.faulty ==> Freed(old(AllocOf(v)), AllocOf(v), clst, pclst, res, Mark(v.g))
  {
    ghost var a, d, mark := AllocOf(v), v.Logical(), Mark(v.g);
    AllocIs(v);
    EntriesSmall(v, 2);
    EndedIs(a.t, pclst, mark);
    MarkIs(v.g);
    v.NothingStored();
    hide *;
    res := IntError;
    if clst < 2 || clst >= v.g.nFatent { FreedNothing(v, a, clst, pclst, mark); return; }
    if pclst != 0 {
      res := v.PutFat(pclst, END_MARK);
      if res == IntError { FreedNothing(v, a, clst, pclst, mark); }
      if res != Ok { return; }
    }
    res := FreeAll(v, clst, Ended(a.t, pclst, mark), d);
    if res != DiskError { FreedIs(v, a, clst, pclst, res, mark); }
  }

  lemma EndedIs(t: seq<nat>, pclst: nat, mark: nat)
    ensures Ended(t, pclst, mark) == if pclst != 0 && 2 <= pclst < |t| then t[pclst := mark] else t
  {
  }

  // ---------------------------------------------------------------- f_getfree

  /** The number of zero entries below k, entries 0 and 1 included. */
  function ZerosBelow(t: seq<nat>, k: nat): nat
    requires k <= |t|
  {
    if k == 0 then 0 else ZerosBelow(t, k - 1) + if t[k - 1] == 0 then 1 else 0
  }

  /** What f_getfree counts; on FAT16 and FAT32 it also looks at the reserved entries 0 and 1. */
  function Scanned(ft: FatType, t: seq<nat>): nat {
    if ft == Fat12 then FreeCount(t) else ZerosBelow(t, |t|)
  }

  lemma {:induction false} ZerosAreFree(t: seq<nat>, k: nat)
    requires 2 <= k <= |t|
    ensures ZerosBelow(t, k) == FreeBelow(t, k) + (if t[0] == 0 then 1 else 0) + if t[1] == 0 then 1 else 0
  {
    if k == 2 {
      assert ZerosBelow(t, 1) == if t[0] == 0 then 1 else 0;
    } else {
      ZerosAreFree(t, k - 1);
    }
  }

  /** The scan of f_getfree finds the number of free clusters exactly when the volume is FAT12 or
      neither of the reserved entries is zero. */
  lemma ScanExact(ft: FatType, t: seq<nat>)
    requires |t| >= 2
    ensures Scanned(ft, t) == FreeCount(t) <==> ft == Fat12 || (t[0] != 0 && t[1] != 0)
  {
    ZerosAreFree(t, |t|);
  }

  /** The scan of a FAT12 table. */
  method ScanFat12(v: Volume, ghost t: seq<nat>, ghost d: Disk) returns (res: Result, nfree: nat)
    requires Holding(v, t, d)
    modifies v`disk, v`winsect, v`wflag, v`faulty, v.win
    ensures Holding(v, t, d) && (old(v.faulty) ==> v.faulty)
    ensures res == DiskError ==> v.faulty
    ensures res == IntError ==> HasOne(t)
    ensures res == Ok ==> nfree == FreeCount(t)
  {
    hide *;
    HoldingMeans(v, t, d);
    CountStarts(t);
    res, nfree := Ok, 0;
    var clst := 2;
    while clst < v.g.nFatent
      invariant Holding(v, t, d) && (old(v.faulty) ==> v.faulty)
      invariant 2 <= clst <= |t| && CountedTo(t, clst, nfree)
    {
      var stat := Peek(v, clst, t, d);
      OneSeen(t, clst);
      if stat == DISK_ERROR { return DiskError, 0; }
      if stat == 1 { return IntError, 0; }
      CountMore(t, clst, nfree);
      if stat == 0 { nfree := nfree + 1; }
      clst := clst + 1;
    }
    CountedAll(t, nfree);
  }

  /** n of the clusters below k are free. */
  ghost predicate CountedTo(t: seq<nat>, k: nat, n: nat) {
    k <= |t| && n == FreeBelow(t, k)
  }

  lemma CountStarts(t: seq<nat>)
    requires 2 <= |t|
    ensures CountedTo(t, 2, 0)
  {
  }

  lemma CountMore(t: seq<nat>, k: nat, n: nat)
    requires CountedTo(t, k, n) && 2 <= k < |t|
    ensures CountedTo(t, k + 1, if t[k] == 0 then n + 1 else n)
  {
  }

  lemma CountedAll(t: seq<nat>, n: nat)
    requires CountedTo(t, |t|, n)
    ensures n == FreeCount(t)
  {
  }

  ghost predicate ZerosTo(t: seq<nat>, k: nat, n: nat) {
    k <= |t| && n == ZerosBelow(t, k)
  }

  lemma ZerosStart(t: seq<nat>)
    ensures ZerosTo(t, 0, 0)
  {
  }

  lemma ZerosMore(t: seq<nat>, k: nat, n: nat)
    requires ZerosTo(t, k, n) && k < |t|
    ensures ZerosTo(t, k + 1, if t[k] == 0 then n + 1 else n)
  {
  }

  lemma ZerosAll(t: seq<nat>, n: nat)
    requires ZerosTo(t, |t|, n)
    ensures n == ZerosBelow(t, |t|)
  {
  }

  /** Where the scan stands: entry e is about to be read, at byte bc of the table, and the window
      shows its sector unless it is the first of a sector. */
  ghost predicate ScanAt(v: Volume, e: nat, bc: nat)
    requires v.Valid()
    reads v, v.win
  {
    v.g.fatType != Fat12 && bc == Offset(v.g.fatType, e) && (e < v.g.nFatent ==> Ofs(bc) == 0 || v.Shows(bc))
  }

  lemma ScanStarts(v: Volume)
    requires v.Valid() && v.g.fatType != Fat12
    ensures ScanAt(v, 0, 0) && Ofs(0) == 0
  {
  }

  /** Reads entry e of the window and moves on; the window moves at the beginning of a sector. */
  method ScanEntry(v: Volume, e: nat, bc: nat, ghost t: seq<nat>, ghost d: Disk) returns (res: Result, zero: bool)
    requires Holding(v, t, d) && e < v.g.nFatent && ScanAt(v, e, bc)
    modifies v`disk, v`winsect, v`wflag, v`faulty, v.win
    ensures Holding(v, t, d) && (old(v.faulty) ==> v.faulty)
    ensures res == Ok || (res == DiskError && v.faulty)
    ensures res == Ok ==> e < |t| && (zero <==> t[e] == 0) && ScanAt(v, e + 1, bc + Width(v.g.fatType))
  {
    v.EntryIs(e);
    EntryPlace(v.g.fatType, v.Bytes(), e);
    ScanNext(v.g, e);
    ghost var b := v.Bytes();
    assert |t| == v.g.nFatent && v.Fat() == t && (v.g.fatType == Fat16 || v.g.fatType == Fat32);
    assert bc == Offset(v.g.fatType, e) && (Ofs(bc) == 0 || v.Shows(bc)) && |b| == SECTOR * v.g.fsize;
    HoldingContents(v, t, d);
    ghost var d1 := v.Logical();
    hide *;
    res, zero := Ok, false;
    if Ofs(bc) == 0 {
      res := v.MoveToByte(bc);
      SameTwice(v.g, d, d1, v.Logical());
      HoldingNow(v, t, d);
      if res != Ok { return; }
    }
    assert v.Bytes() == b;
    var w := v.win[..];
    if v.g.fatType == Fat16 {
      v.ShownWord(bc, b, w);
      zero := Word(w, Ofs(bc)) == 0;
    } else {
      v.ShownDword(bc, b, w);
      zero := Low28(Dword(w, Ofs(bc))) == 0;
    }
    ScanMoves(v, e, bc);
  }

  lemma HoldingContents(v: Volume, t: seq<nat>, d: Disk)
    requires Holding(v, t, d)
    ensures SameContents(v.g, d, v.Logical())
  {
  }

  lemma ScanNext(g: Geometry, e: nat)
    requires GeometryOk(g) && e < g.nFatent && g.fatType != Fat12
    ensures Offset(g.fatType, e + 1) == Offset(g.fatType, e) + Width(g.fatType) && 2 <= Width(g.fatType) <= 4
  {
  }

  lemma ScanMoves(v: Volume, e: nat, bc: nat)
    requires v.Valid() && e < v.g.nFatent && v.g.fatType != Fat12 && bc == Offset(v.g.fatType, e) && v.Shows(bc)
    ensures ScanAt(v, e + 1, bc + Width(v.g.fatType))
  {
    ScanNext(v.g, e);
    if e + 1 < v.g.nFatent {
      EntryFits(v.g, e + 1);
      NextInSector(bc, Width(v.g.fatType));
    }
  }

  lemma NextInSector(j: nat, w: nat)
    requires 0 < w <= 4
    ensures Ofs(j + w) == 0 || Ofs(j + w) < w || Sec(j + w) == Sec(j)
  {
  }

  /** The scan of a FAT16 or FAT32 table. */
  method ScanFat(v: Volume, ghost t: seq<nat>, ghost d: Disk) returns (res: Result, nfree: nat)
    requires Holding(v, t, d) && v.g.fatType != Fat12
    modifies v`disk, v`winsect, v`wflag, v`faulty, v.win
    ensures Holding(v, t, d) && (old(v.faulty) ==> v.faulty)
    ensures res == Ok || (res == DiskError && v.faulty)
    ensures res == Ok ==> nfree == ZerosBelow(t, |t|)
  {
    hide *;
    HoldingMeans(v, t, d);
    ScanStarts(v);
    ZerosStart(t);
    res, nfree := Ok, 0;
    var e, bc := 0, 0;
    var width := Width(v.g.fatType);
    while e < v.g.nFatent
      invariant Holding(v, t, d) && v.Valid() && (old(v.faulty) ==> v.faulty)
      invariant e <= |t| && ZerosTo(t, e, nfree) && ScanAt(v, e, bc)
    {
      var zero;
      res, zero := ScanEntry(v, e, bc, t, d);
      HoldingMeans(v, t, d);
      if res != Ok { return; }
      ZerosMore(t, e, nfree);
      if zero { nfree := nfree + 1; }
      e, bc := e + 1, bc + width;
    }
    ZerosAll(t, nfree);
    res := Ok;
  }

  /** f_getfree, on a mounted volume */
  method GetFree(v: Volume) returns (res: Result, nclst: nat)
    requires v.Valid()
    modifies v, v.win
    ensures v.Valid() && SameContents(v.g, old(v.Logical()), v.Logical())
    ensures old(v.fsiFlag) || v.freeClst != old(v.freeClst) || v.lastClst != old(v.lastClst) ==> v.fsiFlag
    ensures old(v.faulty) ==> v.faulty
    ensures res == DiskError ==> v.faulty
    ensures res == IntError ==> HasOne(v.Fat())
    ensures AllocOf(v) == old(AllocOf(v)).(free := v.freeClst)
    ensures res != Ok ==> v.freeClst == old(v.freeClst)
    ensures res == Ok ==> nclst == v.freeClst
    ensures res == Ok ==>
              v.freeClst == if old(v.freeClst) + 2 <= v.g.nFatent then old(v.freeClst)
                            else Scanned(v.g.fatType, v.Fat())
  {
    ghost var t, d := v.Fat(), v.Logical();
    NowHolding(v);
    EntriesSmall(v, 2);
    res, nclst := Ok, 0;
    AllocIs(v);
    hide *;
    if v.freeClst <= v.g.nFatent - 2 { return Ok, v.freeClst; }
    var nfree;
    if v.g.fatType == Fat12 { res, nfree := ScanFat12(v, t, d); } else { res, nfree := ScanFat(v, t, d); }
    HoldingMeans(v, t, d);
    HoldingContents(v, t, d);
    ScannedIs(v.g.fatType, t);
    if res == Ok {
      nclst := nfree;
      SetFree(v, nfree);
    }
    AllocIs(v);
  }

  method SetFree(v: Volume, nfree: nat)
    requires v.Valid()
    modifies v`freeClst, v`fsiFlag
    ensures v.Valid() && v.Fat() == old(v.Fat()) && v.Logical() == old(v.Logical()) && v.freeClst == nfree
    ensures old(v.fsiFlag) || v.freeClst != old(v.freeClst) || v.lastClst != old(v.lastClst) ==> v.fsiFlag
  {
    v.freeClst := nfree;
    v.fsiFlag := true;
  }

  lemma ScannedIs(ft: FatType, t: seq<nat>)
    ensures Scanned(ft, t) == if ft == Fat12 then FreeCount(t) else ZerosBelow(t, |t|)
  {
  }
}
