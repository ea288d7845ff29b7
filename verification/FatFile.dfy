/** Open files (FIL in ff.c): following and stretching the cluster chain in f_lseek, f_read,
    f_write, f_truncate and an appending f_open. */
module FatFile {
  import opened FatEntry
  import opened FatDisk
  import opened FatChain
  import opened FatVolume
  import opened FatAlloc
  import opened FatKeep
  import opened FatPosition
  import FatRuns

  /** From a0 to a the file's chain has grown from cs0 to cs, which begins at sclust, and the volume
      has kept what it was; a first cluster begins a chain. */
  ghost predicate Stretched(ft: FatType, a0: Alloc, a: Alloc, cs0: seq<nat>, cs: seq<nat>, sclust: nat) {
    && Grown(a0.t, a.t, cs0, cs) && (HasOne(a.t) ==> HasOne(a0.t)) && Kept(ft, a0, a)
    && (FatRuns.Good(ft, a0) && cs0 == [] && sclust != 0 ==> Begins(a.t, sclust))
  }

  /** The volume after the file's chain has grown from cs0 in state a0 to cs. */
  ghost predicate Open(v: Volume, a0: Alloc, cs0: seq<nat>, cs: seq<nat>, sclust: nat)
    reads v, v.win
  {
    v.Valid() && (!v.faulty ==>
      IsChain(v.Fat(), cs, sclust) && Stretched(v.g.fatType, a0, AllocOf(v), cs0, cs, sclust))
  }

  lemma OpenStarts(v: Volume, cs: seq<nat>, sclust: nat)
    requires v.Valid() && (!v.faulty ==> IsChain(v.Fat(), cs, sclust))
    ensures Open(v, AllocOf(v), cs, cs, sclust) && 0 < ClusterBytes(v.g) && 3 <= v.g.nFatent < DISK_ERROR
  {
    NotGrown(v.Fat(), cs);
    KeptSame(v.g.fatType, AllocOf(v));
    hide Grown, Kept, HasOne;
  }

  /** The result of a step to the next cluster: place k of the grown chain, or 0 if the volume is
      full and the chain as it was.  The chain grows by one cluster, and only at its end. */
  ghost predicate Stepped(t0: seq<nat>, cs: seq<nat>, cs': seq<nat>, k: nat, r: nat) {
    && cs <= cs' && (cs' != cs ==> k == |cs| && |cs'| == |cs| + 1)
    && (r == 0 ==> cs' == cs && k == |cs|)
    && (r == 1 ==> cs' == cs && HasOne(t0))
    && (r > 1 ==> k < |cs'| && cs'[k] == r)
  }

  lemma AtEnd(t: seq<nat>, cs: seq<nat>, k: nat)
    requires Chain(t, cs) && k < |cs|
    ensures !BadEnd(t, cs[k]) && cs[k] != 0
    ensures Followed(t, cs[k]) <==> k + 1 < |cs|
    ensures k + 1 < |cs| ==> t[cs[k]] == cs[k + 1]
  {
    assert Link(t, cs, k);
  }

  /** What create_chain promises, seen from the chain: clst is its place k - 1, or 0 for k = 0. */
  lemma CreatedSteps(a: Alloc, a': Alloc, cs: seq<nat>, k: nat, clst: nat, r: nat, mark: nat) returns (cs': seq<nat>)
    requires Created(a, a', clst, r, mark) && mark >= |a.t| >= 3
    requires if k == 0 then clst == 0 && cs == [] else Chain(a.t, cs) && k <= |cs| && clst == cs[k - 1]
    ensures Stepped(a.t, cs, cs', k, r) && Grown(a.t, a'.t, cs, cs') && |a'.t| == |a.t|
    ensures cs' == [] || Chain(a'.t, cs')
    ensures HasOne(a'.t) ==> HasOne(a.t)
    ensures r < |a.t| && (r == 0 ==> a' == a && (a.free == 0 || NoFree(a.t)))
    ensures k == 0 && r <= 1 ==> cs' == []
    ensures k > 0 ==> cs'[0] == cs[0]
  {
    NotGrown(a.t, cs);
    cs' := cs;
    if k > 0 { AtEnd(a.t, cs, k - 1); }
    if !Followed(a.t, clst) && r > 1 {
      assert k == |cs|;
      GrowByOne(a.t, cs, r, mark);
      cs' := cs + [r];
    }
    hide Chain, Grown;
  }

  lemma OpenGrown(v: Volume, a0: Alloc, cs0: seq<nat>, a1: Alloc, cs1: seq<nat>, first1: nat, cs: seq<nat>, sclust: nat)
    requires v.Valid() && Stretched(v.g.fatType, a0, a1, cs0, cs1, first1) && IsChain(v.Fat(), cs, sclust)
    requires Grown(a1.t, v.Fat(), cs1, cs) && (HasOne(v.Fat()) ==> HasOne(a1.t)) && Kept(v.g.fatType, a1, AllocOf(v))
    requires if first1 != 0 then sclust == first1
             else cs1 == [] && (FatRuns.Good(v.g.fatType, a1) && sclust != 0 ==> Begins(v.Fat(), sclust))
    ensures Open(v, a0, cs0, cs, sclust)
  {
    GrownTwice(a0.t, a1.t, v.Fat(), cs0, cs1, cs);
    KeptTwice(v.g.fatType, a0, a1, AllocOf(v));
    hide Grown, HasOne, IsChain, FatRuns.Good, Begins;
  }

  lemma OpenMeans(v: Volume, a0: Alloc, cs0: seq<nat>, cs: seq<nat>, sclust: nat)
    requires Open(v, a0, cs0, cs, sclust)
    ensures v.Valid() && |v.Fat()| == v.g.nFatent && 3 <= v.g.nFatent < DISK_ERROR && v.g.nFatent <= Mark(v.g)
    ensures !v.faulty ==> IsChain(v.Fat(), cs, sclust) && Stretched(v.g.fatType, a0, AllocOf(v), cs0, cs, sclust)
    ensures !v.faulty ==> Grown(a0.t, v.Fat(), cs0, cs) && (HasOne(v.Fat()) ==> HasOne(a0.t))
  {
    MarkEnds(v.g);
  }

  lemma FaultyOpen(v: Volume, a0: Alloc, cs0: seq<nat>, cs: seq<nat>, sclust: nat)
    requires v.Valid() && v.faulty
    ensures Open(v, a0, cs0, cs, sclust)
  {
  }

  lemma ChainFrom(t: seq<nat>, cs: seq<nat>, sclust: nat)
    requires IsChain(t, cs, sclust)
    ensures sclust != 0 ==> Chain(t, cs) && cs[0] == sclust
    ensures sclust == 0 ==> cs == []
  {
  }

  lemma IsChainFrom(t: seq<nat>, cs: seq<nat>, sclust: nat)
    requires (sclust == 0 && cs == []) || (sclust != 0 && Chain(t, cs) && cs[0] == sclust)
    ensures IsChain(t, cs, sclust)
  {
  }

  /** create_chain from place k - 1 of the file's chain, or for its first cluster when k is 0. */
  method Stretch(v: Volume, clst: nat, sclust: nat, ghost k: nat, ghost a0: Alloc,
                 ghost cs0: seq<nat>, ghost cs: seq<nat>)
    returns (r: nat, ghost cs': seq<nat>)
    requires Open(v, a0, cs0, cs, sclust)
    requires !v.faulty ==> if k == 0 then clst == 0 == sclust else k <= |cs| && clst == cs[k - 1] && sclust != 0
    modifies v, v.win
    ensures Open(v, a0, cs0, cs', if k == 0 && 1 < r then r else sclust)
    ensures old(v.faulty) ==> v.faulty
    ensures r == DISK_ERROR ==> v.faulty
    ensures !v.faulty ==> Stepped(a0.t, cs, cs', k, r) && r < v.g.nFatent
    ensures !v.faulty && r == 0 ==> v.freeClst == 0 || NoFree(v.Fat())
  {
    hide *;
    OpenMeans(v, a0, cs0, cs, sclust);
    ghost var a := AllocOf(v);
    AllocIs(v);
    ghost var t := v.Fat();
    r := CreateChain(v, clst);
    cs' := cs;
    AllocIs(v);
    if v.faulty {
      FaultyOpen(v, a0, cs0, cs', if k == 0 && 1 < r then r else sclust);
    } else {
      ChainFrom(t, cs, sclust);
      cs' := CreatedSteps(a, AllocOf(v), cs, k, clst, r, Mark(v.g));
      SteppedEnd(a.t, a0.t, cs, cs', k, r);
      IsChainFrom(v.Fat(), cs', if k == 0 && 1 < r then r else sclust);
      if k > 0 { InUseAt(t, cs, k - 1); }
      CreatedKept(v.g.fatType, a, AllocOf(v), clst, r, Mark(v.g));
      OpenGrown(v, a0, cs0, a, cs, sclust, cs', if k == 0 && 1 < r then r else sclust);
    }
  }

  lemma InUseAt(t: seq<nat>, cs: seq<nat>, k: nat)
    requires Chain(t, cs) && k < |cs|
    ensures Cluster(t, cs[k]) && t[cs[k]] != 0
  {
    ChainInUse(t, cs, k);
  }

  lemma SteppedEnd(t: seq<nat>, t0: seq<nat>, cs: seq<nat>, cs': seq<nat>, k: nat, r: nat)
    requires Stepped(t, cs, cs', k, r) && (HasOne(t) ==> HasOne(t0))
    ensures Stepped(t0, cs, cs', k, r)
    ensures r <= 1 ==> cs' == cs
    ensures k == 0 && cs == [] && r > 1 ==> cs' != [] && cs'[0] == r
  {
  }

  lemma LinkedPlace(t: seq<nat>, cs: seq<nat>, sclust: nat, k: nat)
    requires IsChain(t, cs, sclust) && sclust != 0 && 0 < k <= |cs|
    ensures 2 <= cs[k - 1] < |t|
    ensures if k < |cs| then t[cs[k - 1]] == cs[k] && 2 <= cs[k] < |t| else t[cs[k - 1]] >= |t|
  {
    assert Link(t, cs, k - 1);
  }

  lemma OpenSame(v: Volume, a0: Alloc, cs0: seq<nat>, a1: Alloc, cs: seq<nat>, sclust: nat)
    requires v.Valid() && AllocOf(v) == a1
    requires !v.faulty ==> IsChain(a1.t, cs, sclust) && Stretched(v.g.fatType, a0, a1, cs0, cs, sclust)
    ensures Open(v, a0, cs0, cs, sclust)
  {
    hide Stretched, IsChain;
  }

  /** get_fat from place k - 1 of the file's chain. */
  method Follow(v: Volume, clst: nat, sclust: nat, ghost k: nat, ghost a0: Alloc, ghost cs0: seq<nat>,
                ghost cs: seq<nat>)
    returns (r: nat)
    requires Open(v, a0, cs0, cs, sclust)
    requires !v.faulty ==> sclust != 0 && 0 < k <= |cs| && clst == cs[k - 1]
    modifies v, v.win
    ensures Open(v, a0, cs0, cs, sclust) && old(v.Valid()) && v.Valid() && v.Fat() == old(v.Fat())
    ensures AllocOf(v) == old(AllocOf(v))
    ensures old(v.faulty) ==> v.faulty
    ensures r == DISK_ERROR ==> v.faulty
    ensures !v.faulty ==> 0 < k <= |cs| && if k < |cs| then r == cs[k] && 2 <= r < v.g.nFatent else r >= v.g.nFatent
  {
    hide *;
    OpenMeans(v, a0, cs0, cs, sclust);
    if !v.faulty { LinkedPlace(v.Fat(), cs, sclust, k); EntriesSmall(v, clst); }
    ghost var a1 := AllocOf(v);
    AllocIs(v);
    r := v.GetFat(clst);
    AllocIs(v);
    OpenSame(v, a0, cs0, a1, cs, sclust);
  }

  /** The step to the next cluster in f_lseek: it stretches the chain of a writable file. */
  method NextCluster(v: Volume, write: bool, clst: nat, sclust: nat, ghost k: nat,
                     ghost a0: Alloc, ghost cs0: seq<nat>, ghost cs: seq<nat>)
    returns (r: nat, ghost cs': seq<nat>)
    requires Open(v, a0, cs0, cs, sclust)
    requires !v.faulty ==> sclust != 0 && 0 < k <= |cs| && clst == cs[k - 1]
    modifies v, v.win
    ensures Open(v, a0, cs0, cs', sclust)
    ensures old(v.faulty) ==> v.faulty
    ensures r == DISK_ERROR ==> v.faulty
    ensures !write ==> cs' == cs
    ensures !v.faulty ==> cs <= cs' && (2 <= r < v.g.nFatent ==> k < |cs'| && cs'[k] == r)
    ensures !v.faulty ==> cs' == cs || (k == |cs| && |cs'| == |cs| + 1)
    ensures !v.faulty && r == 0 ==> write && cs' == cs && k == |cs| && (v.freeClst == 0 || NoFree(v.Fat()))
    ensures !v.faulty && (if write then !HasOne(a0.t) else k < |cs|) ==> r == 0 || 2 <= r < v.g.nFatent
  {
    if write {
      r, cs' := Stretch(v, clst, sclust, k, a0, cs0, cs);
      hide Open, Grown, IsChain, HasOne, NoFree;
    } else {
      r := Follow(v, clst, sclust, k, a0, cs0, cs);
      cs' := cs;
      hide Open, Grown, IsChain, HasOne, NoFree;
    }
  }

  /** Position and cluster of a file stand at the byte before pos. */
  ghost predicate Reached(b: Positive, cs: seq<nat>, pos: nat, clust: nat) {
    0 < pos <= Start(b, |cs|) && At(b, cs, pos, clust)
  }

  lemma ReachedAt(b: nat, cs: seq<nat>, k: nat, pos: nat)
    requires 0 < b && k < |cs| && Start(b, k) < pos <= Start(b, k) + b
    ensures Reached(b, cs, pos, cs[k])
  {
    IndexIs(b, pos, k);
    StartNext(b, k);
    StartOrder(b, k + 1, |cs|);
  }

  /** The cluster following loop of f_lseek, from position pos0 at the beginning of place k0 of the
      chain to ofs0 bytes further on. */
  method SeekOn(v: Volume, write: bool, clst0: nat, pos0: nat, ofs0: nat, sclust: nat,
                ghost k0: nat, ghost a0: Alloc, ghost cs0: seq<nat>, ghost cs1: seq<nat>)
    returns (res: Result, pos: nat, clust: nat, ghost cs: seq<nat>)
    requires Open(v, a0, cs0, cs1, sclust) && GeometryOk(v.g) && 0 < ofs0
    requires !v.faulty ==> sclust != 0 && k0 < |cs1| && clst0 == cs1[k0] && pos0 == Start(ClusterBytes(v.g), k0)
    modifies v, v.win
    ensures Open(v, a0, cs0, cs, sclust)
    ensures old(v.faulty) ==> v.faulty
    ensures res == DiskError ==> v.faulty
    ensures !v.faulty ==> cs1 <= cs && (!write ==> cs == cs1)
    ensures !v.faulty && res == Ok ==> Reached(ClusterBytes(v.g), cs, pos, clust) && pos <= pos0 + ofs0
    ensures !v.faulty && res == Ok ==> Tight(ClusterBytes(v.g), cs1, cs, pos)
    ensures !v.faulty && res == Ok && pos < pos0 + ofs0 ==>
              write && pos == Start(ClusterBytes(v.g), |cs|) && (v.freeClst == 0 || NoFree(v.Fat()))
    ensures !v.faulty && (if write then !HasOne(a0.t) else pos0 + ofs0 <= Start(ClusterBytes(v.g), |cs1|)) ==> res == Ok
  {
    hide *;
    var b := ClusterBytes(v.g);
    ghost var k: nat := k0;
    var ofs: nat := ofs0;
    res, pos, clust, cs := Ok, pos0, clst0, cs1;
    while ofs > b
      invariant Open(v, a0, cs0, cs, sclust) && (old(v.faulty) ==> v.faulty) && 0 < ofs && pos + ofs == pos0 + ofs0
      invariant !v.faulty ==> sclust != 0 && cs1 <= cs && k < |cs| && clust == cs[k] && pos == Start(b, k)
      invariant !v.faulty && !write ==> cs == cs1
      invariant !v.faulty ==> |cs| == |cs1| || |cs| == k + 1
    {
      ofs, pos := ofs - b, pos + b;
      OpenMeans(v, a0, cs0, cs, sclust);
      StartNext(b, k);
      NextInside(b, cs1, k, pos0 + ofs0);
      var r;
      r, cs := NextCluster(v, write, clust, sclust, k + 1, a0, cs0, cs);
      if r == 0 && write {
        // disk full: the file ends with its last cluster
        if !v.faulty { ReachedAt(b, cs, k, pos); TightIs(b, cs1, cs, k, pos); }
        return;
      }
      if r == DISK_ERROR { res := DiskError; return; }
      if r <= 1 || r >= v.g.nFatent { res := IntError; return; }
      clust, k := r, k + 1;
    }
    pos := pos + ofs;
    if !v.faulty {
      OpenMeans(v, a0, cs0, cs, sclust);
      ReachedAt(b, cs, k, pos);
      ClusterOf(v.g, v.Fat(), cs, sclust, k);
      TightIs(b, cs1, cs, k, pos);
    }
    if !OnSector(ofs) && ClusterSector(v.g, clust) == 0 { res := IntError; }
  }

  lemma TightIs(b: nat, cs0: seq<nat>, cs: seq<nat>, k: nat, pos: nat)
    requires (|cs| == |cs0| || |cs| == k + 1) && Start(b, k) < pos
    ensures Tight(b, cs0, cs, pos)
  {
  }

  /** If the target lies behind place k and within the chain, the chain has a place k + 1. */
  lemma NextInside(b: nat, cs: seq<nat>, k: nat, target: nat)
    ensures Start(b, k) + b < target <= Start(b, |cs|) ==> k + 1 < |cs|
  {
    StartOrder(b, |cs|, k + 1);
    StartNext(b, k);
  }

  /** clst2sect finds the clusters of a chain. */
  lemma ClusterOf(g: Geometry, t: seq<nat>, cs: seq<nat>, sclust: nat, k: nat)
    requires GeometryOk(g) && |t| == g.nFatent && IsChain(t, cs, sclust) && sclust != 0 && k < |cs|
    ensures ClusterSector(g, cs[k]) > 0
  {
  }

  /** What holds between the rounds of f_read and f_write. */
  ghost predicate Cached(v: Volume, a0: Alloc, cs0: seq<nat>, cs: seq<nat>, sclust: nat, fptr: nat, clust: nat)
    requires GeometryOk(v.g)
    reads v, v.win
  {
    Open(v, a0, cs0, cs, sclust) && (!v.faulty ==> At(ClusterBytes(v.g), cs, fptr, clust))
  }

  /** The cluster that a round needs: place k of the chain, which the cache holds already unless
      the position is at the beginning of a cluster, when it holds place k - 1. */
  lemma CachedCluster(g: Geometry, cs: seq<nat>, fptr: nat, clust: nat)
    requires GeometryOk(g) && At(ClusterBytes(g), cs, fptr, clust)
    ensures var k := Place(ClusterBytes(g), fptr);
            if OnCluster(g.csize, fptr)
            then fptr == Start(ClusterBytes(g), k) && (fptr == 0 <==> k == 0)
                 && (k > 0 ==> k <= |cs| && clust == cs[k - 1])
            else k < |cs| && clust == cs[k]
  {
    var b := ClusterBytes(g);
    ChunkFits(g.csize, fptr, 1);
    PlaceBounds(b, fptr);
    StartNext(b, 0);
    StartOrder(b, 1, Place(b, fptr));
    if fptr > 0 { CachedPlace(b, fptr); }
    hide Start, Place, Index, OnCluster, Chunk;
  }

  /** After a round the cluster used is the one that holds the byte before the new position. */
  lemma CachedAfter(g: Geometry, cs: seq<nat>, fptr: nat, clust: nat, left: nat)
    requires GeometryOk(g) && 0 < left
    requires var k := Place(ClusterBytes(g), fptr); k < |cs| && clust == cs[k]
    ensures var n := Chunk(g.csize, fptr, left);
            0 < n <= left && At(ClusterBytes(g), cs, fptr + n, clust) && fptr + n <= Start(ClusterBytes(g), |cs|)
  {
    var b := ClusterBytes(g);
    ChunkFits(g.csize, fptr, left);
    ReachedAt(b, cs, Place(b, fptr), fptr + Chunk(g.csize, fptr, left));
    hide Start, Place, Index, OnCluster, Chunk, At;
    assert Reached(b, cs, fptr + Chunk(g.csize, fptr, left), clust);
  }

  lemma ChunkPositive(g: Geometry, fptr: nat, left: nat)
    requires GeometryOk(g) && 0 < left
    ensures 0 < g.csize && 0 < Chunk(g.csize, fptr, left) <= left
  {
    ChunkFits(g.csize, fptr, left);
  }

  lemma PlaceInside(b: nat, cs: seq<nat>, fptr: nat)
    requires 0 < b
    ensures fptr < Start(b, |cs|) ==> Place(b, fptr) < |cs|
  {
    PlaceBounds(b, fptr);
    StartOrder(b, |cs|, Place(b, fptr));
  }

  /** The start of a round of f_read: the cluster of position fptr. */
  method ReadCluster(v: Volume, fptr: nat, clust: nat, sclust: nat, ghost a0: Alloc,
                     ghost cs: seq<nat>) returns (res: Result, clst: nat)
    requires GeometryOk(v.g) && Cached(v, a0, cs, cs, sclust, fptr, clust)
    requires !v.faulty ==> fptr < Start(ClusterBytes(v.g), |cs|)
    modifies v, v.win
    ensures Open(v, a0, cs, cs, sclust) && old(v.Valid()) && v.Valid() && v.Fat() == old(v.Fat())
    ensures AllocOf(v) == old(AllocOf(v))
    ensures old(v.faulty) ==> v.faulty
    ensures res == DiskError ==> v.faulty
    ensures !v.faulty ==>
              res == Ok && Place(ClusterBytes(v.g), fptr) < |cs| && clst == cs[Place(ClusterBytes(v.g), fptr)]
  {
    ghost var k := Place(ClusterBytes(v.g), fptr);
    CsizePositive(v.g);
    OpenMeans(v, a0, cs, cs, sclust);
    if !v.faulty {
      CachedCluster(v.g, cs, fptr, clust);
      PlaceInside(ClusterBytes(v.g), cs, fptr);
      ChainFrom(v.Fat(), cs, sclust);
    }
    hide *;
    res, clst := Ok, clust;
    if OnCluster(v.g.csize, fptr) {
      if !v.faulty { FirstCluster(v.Fat(), cs, sclust); }
      if fptr == 0 { clst := sclust; } else { clst := Follow(v, clust, sclust, k, a0, cs, cs); }
      if clst < 2 { res := IntError; return; }
      if clst == DISK_ERROR { res := DiskError; return; }
    }
    OpenMeans(v, a0, cs, cs, sclust);
    if !v.faulty { FirstCluster(v.Fat(), cs, sclust); ClusterOf(v.g, v.Fat(), cs, sclust, k); }
    if ClusterSector(v.g, clst) == 0 { res := IntError; }
  }

  lemma CsizePositive(g: Geometry)
    requires GeometryOk(g)
    ensures 0 < g.csize && 0 < ClusterBytes(g)
  {
  }

  lemma FirstCluster(t: seq<nat>, cs: seq<nat>, sclust: nat)
    requires IsChain(t, cs, sclust)
    ensures sclust == 0 <==> cs == []
    ensures sclust != 0 ==> cs[0] == sclust && 2 <= sclust < |t|
  {
  }

  /** The start of a round of f_write: the cluster of position fptr, stretching the chain at its
      end; `full` if the volume has no cluster left. */
  method WriteCluster(v: Volume, fptr: nat, clust: nat, sclust: nat, ghost a0: Alloc,
                      ghost cs0: seq<nat>, ghost cs: seq<nat>)
    returns (res: Result, full: bool, clst: nat, first: nat, ghost cs': seq<nat>)
    requires GeometryOk(v.g) && Cached(v, a0, cs0, cs, sclust, fptr, clust)
    modifies v, v.win
    ensures Open(v, a0, cs0, cs', first)
    ensures old(v.faulty) ==> v.faulty
    ensures res == DiskError ==> v.faulty
    ensures !v.faulty ==> cs <= cs' && (cs' == cs || (|cs'| == |cs| + 1 && fptr == Start(ClusterBytes(v.g), |cs|)))
    ensures !v.faulty && res == Ok && !full ==>
              Place(ClusterBytes(v.g), fptr) < |cs'| && clst == cs'[Place(ClusterBytes(v.g), fptr)]
    ensures !v.faulty && res == Ok && full ==>
              cs' == cs && first == sclust && clst == clust && fptr == Start(ClusterBytes(v.g), |cs|)
              && (v.freeClst == 0 || NoFree(v.Fat()))
    ensures !v.faulty && !HasOne(a0.t) ==> res == Ok
  {
    ghost var k := Place(ClusterBytes(v.g), fptr);
    CsizePositive(v.g);
    OpenMeans(v, a0, cs0, cs, sclust);
    if !v.faulty {
      CachedCluster(v.g, cs, fptr, clust);
      ChainFrom(v.Fat(), cs, sclust);
      FirstCluster(v.Fat(), cs, sclust);
    }
    hide *;
    res, full, clst, first, cs' := Ok, false, clust, sclust, cs;
    if OnCluster(v.g.csize, fptr) {
      if fptr == 0 {
        clst := sclust;
        if clst == 0 { clst, cs' := Stretch(v, 0, sclust, 0, a0, cs0, cs); }
      } else {
        clst, cs' := Stretch(v, clust, sclust, k, a0, cs0, cs);
      }
      SteppedMeans(a0.t, cs, cs', k, clst);
      if clst == 0 { full := true; clst := clust; return; }
      if clst == 1 { res := IntError; return; }
      if clst == DISK_ERROR { res := DiskError; return; }
      if first == 0 { first := clst; }
    }
    OpenMeans(v, a0, cs0, cs', first);
    if !v.faulty { ClusterOf(v.g, v.Fat(), cs', first, k); }
    if ClusterSector(v.g, clst) == 0 { res := IntError; }
  }

  lemma SteppedMeans(t0: seq<nat>, cs: seq<nat>, cs': seq<nat>, k: nat, r: nat)
    ensures Stepped(t0, cs, cs', k, r) ==>
              && cs <= cs' && (cs' != cs ==> k == |cs| && |cs'| == |cs| + 1) && (r == 0 ==> cs' == cs && k == |cs|)
              && (r == 1 ==> HasOne(t0)) && (r > 1 ==> k < |cs'| && cs'[k] == r)
  {
  }

  ghost predicate SoundFile(v: Volume, cs: seq<nat>, f: Cursor)
    requires GeometryOk(v.g)
    reads v, v.win
  {
    v.Valid() && (!v.faulty ==> Sound(v.Fat(), ClusterBytes(v.g), cs, f))
  }

  lemma SoundMeans(v: Volume, cs: seq<nat>, f: Cursor)
    requires GeometryOk(v.g) && SoundFile(v, cs, f)
    ensures v.Valid() && 0 < ClusterBytes(v.g) && Open(v, AllocOf(v), cs, cs, f.sclust)
    ensures Cached(v, AllocOf(v), cs, cs, f.sclust, f.fptr, f.clust)
    ensures !v.faulty ==> f.fptr <= f.objsize <= Start(ClusterBytes(v.g), |cs|) && (f.sclust == 0 <==> cs == [])
    ensures !v.faulty ==> At(ClusterBytes(v.g), cs, f.fptr, f.clust) && (cs != [] ==> cs[0] == f.sclust)
  {
    OpenStarts(v, cs, f.sclust);
  }

  lemma SoundAgain(v: Volume, a0: Alloc, cs0: seq<nat>, cs: seq<nat>, f: Cursor)
    requires GeometryOk(v.g) && Open(v, a0, cs0, cs, f.sclust)
    requires !v.faulty ==>
               f.fptr <= f.objsize <= Start(ClusterBytes(v.g), |cs|) && At(ClusterBytes(v.g), cs, f.fptr, f.clust)
    ensures SoundFile(v, cs, f)
    ensures !v.faulty ==> Grown(a0.t, v.Fat(), cs0, cs) && Stretched(v.g.fatType, a0, AllocOf(v), cs0, cs, f.sclust)
  {
  }

  lemma LongerStart(b: nat, cs: seq<nat>, cs': seq<nat>)
    requires cs <= cs'
    ensures Start(b, |cs|) <= Start(b, |cs'|)
  {
    StartOrder(b, |cs|, |cs'|);
  }

  function Larger(x: nat, y: nat): nat {
    if x > y then x else y
  }

  /** Where f_lseek should end: a file opened for reading is not extended. */
  function SeekGoal(write: bool, objsize: nat, target: nat): nat {
    if target > objsize && !write then objsize else target
  }

  /** f_lseek from cursor f: where the cluster following loop starts, at the current cluster if the
      goal is in it or behind it, else at the first one, which may have to be allocated. */
  method SeekStart(v: Volume, f: Cursor, goal: nat, ghost a0: Alloc, ghost cs0: seq<nat>)
    returns (res: Result, pos: nat, clst: nat, first: nat, ghost k: nat, ghost cs: seq<nat>)
    requires GeometryOk(v.g) && Open(v, a0, cs0, cs0, f.sclust) && 0 < goal
    requires !v.faulty ==> At(ClusterBytes(v.g), cs0, f.fptr, f.clust)
    modifies v, v.win
    ensures Open(v, a0, cs0, cs, first)
    ensures old(v.faulty) ==> v.faulty
    ensures res == DiskError ==> v.faulty
    ensures pos < goal
    ensures !v.faulty ==> cs0 <= cs && (cs == cs0 || (cs0 == [] && |cs| == 1)) && (f.sclust != 0 ==> cs == cs0)
    ensures !v.faulty && res == Ok && clst != 0 ==>
              first != 0 && k < |cs| && clst == cs[k] && pos == Start(ClusterBytes(v.g), k)
    ensures !v.faulty && res == Ok && clst == 0 ==>
              first == 0 && pos == 0 && cs == cs0 == [] && (v.freeClst == 0 || NoFree(v.Fat()))
    ensures !v.faulty && !HasOne(a0.t) ==> res == Ok
    ensures !v.faulty && f.sclust != 0 ==> res == Ok && clst != 0
  {
    CsizePositive(v.g);
    var b := ClusterBytes(v.g);
    OpenMeans(v, a0, cs0, cs0, f.sclust);
    if !v.faulty { FirstCluster(v.Fat(), cs0, f.sclust); ChainFrom(v.Fat(), cs0, f.sclust); }
    if f.fptr > 0 { ResumeFrom(b, cs0, f, goal, v.Fat(), v.faulty); }
    StartNext(b, 0);
    hide *;
    res, pos, clst, first, k, cs := Ok, 0, 0, f.sclust, 0, cs0;
    if f.fptr > 0 && Index(b, goal) >= Index(b, f.fptr) {
      k := Index(b, f.fptr);
      pos := Start(b, Index(b, f.fptr));
      clst := f.clust;
      if !v.faulty { InChain(v.Fat(), cs0, f.sclust, k); }
    } else {
      clst := f.sclust;
      if clst == 0 {
        clst, cs := Stretch(v, 0, 0, 0, a0, cs0, cs0);
        SteppedMeans(a0.t, cs0, cs, 0, clst);
        if clst == 1 { res := IntError; return; }
        if clst == DISK_ERROR { res := DiskError; return; }
        first := clst;
      }
    }
  }

  lemma InChain(t: seq<nat>, cs: seq<nat>, sclust: nat, k: nat)
    requires IsChain(t, cs, sclust) && k < |cs|
    ensures sclust != 0 && cs[k] >= 2
  {
  }

  lemma ResumeFrom(b: nat, cs: seq<nat>, f: Cursor, goal: nat, t: seq<nat>, faulty: bool)
    requires 0 < b && 0 < f.fptr && 0 < goal && (!faulty ==> At(b, cs, f.fptr, f.clust))
    ensures Index(b, goal) >= Index(b, f.fptr) ==> Start(b, Index(b, f.fptr)) < goal
    ensures !faulty ==> Index(b, f.fptr) < |cs| && f.clust == cs[Index(b, f.fptr)]
  {
    IndexBounds(b, goal);
    StartOrder(b, Index(b, f.fptr), Index(b, goal));
  }

  lemma TightSame(b: nat, cs0: seq<nat>, cs: seq<nat>, pos: nat)
    requires cs == cs0
    ensures Tight(b, cs0, cs, pos)
  {
  }

  lemma TightFirst(b: nat, cs0: seq<nat>, cs1: seq<nat>, cs: seq<nat>, pos: nat)
    requires Tight(b, cs1, cs, pos) && (cs1 == cs0 || (cs0 == [] && |cs1| == 1)) && cs1 <= cs && 0 < pos
    ensures Tight(b, cs0, cs, pos)
  {
    StartNext(b, 0);
  }

  lemma GoalMeans(write: bool, objsize: nat, target: nat)
    ensures SeekGoal(write, objsize, target) == if target > objsize && !write then objsize else target
  {
  }

  lemma LargerMeans(x: nat, y: nat)
    ensures Larger(x, y) >= x && Larger(x, y) >= y && (Larger(x, y) == x || Larger(x, y) == y)
  {
  }

  lemma AtZero(b: nat, cs: seq<nat>, clust: nat)
    requires 0 < b
    ensures At(b, cs, 0, clust)
  {
  }

  lemma ReachedMeans(b: nat, cs: seq<nat>, pos: nat, clust: nat)
    requires 0 < b && Reached(b, cs, pos, clust)
    ensures 0 < pos <= Start(b, |cs|) && At(b, cs, pos, clust)
  {
  }

  /** f_lseek */
  method SeekTo(v: Volume, write: bool, f: Cursor, target: nat, ghost cs0: seq<nat>) returns (res: Result, f': Cursor,
                ghost cs: seq<nat>)
    requires GeometryOk(v.g) && SoundFile(v, cs0, f)
    modifies v, v.win
    ensures v.Valid()
    ensures old(v.faulty) ==> v.faulty
    ensures res == DiskError ==> v.faulty
    ensures res == Ok ==> SoundFile(v, cs, f') && f'.fptr <= f'.objsize
    ensures res == Ok && !v.faulty ==> Grown(old(v.Fat()), v.Fat(), cs0, cs) && (!write ==> cs == cs0)
    ensures res == Ok && !v.faulty ==>
              && Stretched(v.g.fatType, old(AllocOf(v)), AllocOf(v), cs0, cs, f'.sclust)
              && Tight(ClusterBytes(v.g), cs0, cs, f'.fptr)
    ensures res == Ok && !v.faulty ==>
              var goal := SeekGoal(write, f.objsize, target);
              && f'.fptr <= goal && f'.objsize == Larger(f.objsize, f'.fptr)
              && (f'.fptr < goal ==>
                    write && f'.fptr == Start(ClusterBytes(v.g), |cs|) && (v.freeClst == 0 || NoFree(v.Fat())))
    ensures !v.faulty && (!write || !HasOne(old(v.Fat()))) ==> res == Ok
  {
    ghost var a0 := AllocOf(v);
    var goal := SeekGoal(write, f.objsize, target);
    SoundMeans(v, cs0, f);
    GoalMeans(write, f.objsize, target);
    StartNext(ClusterBytes(v.g), 0);
    AllocIs(v);
    hide *;
    OpenMeans(v, a0, cs0, cs0, f.sclust);
    TightSame(ClusterBytes(v.g), cs0, cs0, 0);
    res, cs := Ok, cs0;
    var pos, clust, first := 0, f.clust, f.sclust;
    if goal > 0 {
      var start, clst;
      ghost var k;
      res, start, clst, first, k, cs := SeekStart(v, f, goal, a0, cs0);
      OpenMeans(v, a0, cs0, cs, first);
      if res != Ok { f' := f; return; }
      clust := clst;
      if clst != 0 {
        ghost var cs1 := cs;
        res, pos, clust, cs := SeekOn(v, write, clst, start, goal - start, first, k, a0, cs0, cs1);
        OpenMeans(v, a0, cs0, cs, first);
        if res != Ok { f' := f; return; }
        if !v.faulty {
          LongerStart(ClusterBytes(v.g), cs0, cs);
          ReachedMeans(ClusterBytes(v.g), cs, pos, clust);
          TightFirst(ClusterBytes(v.g), cs0, cs1, cs, pos);
        }
      } else if !v.faulty {
        TightSame(ClusterBytes(v.g), cs0, cs, 0);
      }
    }
    LargerMeans(f.objsize, pos);
    AtZero(ClusterBytes(v.g), cs, clust);
    f' := Cursor(first, Larger(f.objsize, pos), pos, clust);
    SoundAgain(v, a0, cs0, cs, f');
  }

  /** A transfer of file data, which touches no table and may fail. */
  method Transfer(v: Volume) returns (ok: bool)
    requires v.Valid()
    modifies v`faulty
    ensures v.Valid() && v.Fat() == old(v.Fat()) && v.Logical() == old(v.Logical()) && AllocOf(v) == old(AllocOf(v))
    ensures old(v.faulty) ==> v.faulty
    ensures !ok ==> v.faulty
  {
    ok := *;
    if !ok { v.faulty := true; }
  }

  /** What holds between the rounds of f_write. */
  ghost predicate InFile(v: Volume, a0: Alloc, cs0: seq<nat>, cs: seq<nat>, f: Cursor)
    requires GeometryOk(v.g)
    reads v, v.win
  {
    Cached(v, a0, cs0, cs, f.sclust, f.fptr, f.clust)
    && (!v.faulty ==> f.fptr <= f.objsize <= Start(ClusterBytes(v.g), |cs|))
  }

  lemma InFileMeans(v: Volume, a0: Alloc, cs0: seq<nat>, cs: seq<nat>, f: Cursor)
    requires GeometryOk(v.g) && InFile(v, a0, cs0, cs, f)
    ensures Cached(v, a0, cs0, cs, f.sclust, f.fptr, f.clust) && Open(v, a0, cs0, cs, f.sclust)
    ensures v.Valid() && 0 < ClusterBytes(v.g)
    ensures !v.faulty ==>
              f.fptr <= f.objsize <= Start(ClusterBytes(v.g), |cs|) && At(ClusterBytes(v.g), cs, f.fptr, f.clust)
  {
  }

  lemma InFileIs(v: Volume, a0: Alloc, cs0: seq<nat>, cs: seq<nat>, f: Cursor)
    requires GeometryOk(v.g) && Open(v, a0, cs0, cs, f.sclust)
    requires !v.faulty ==>
               f.fptr <= f.objsize <= Start(ClusterBytes(v.g), |cs|) && At(ClusterBytes(v.g), cs, f.fptr, f.clust)
    ensures InFile(v, a0, cs0, cs, f) && SoundFile(v, cs, f)
    ensures !v.faulty ==> Grown(a0.t, v.Fat(), cs0, cs) && Stretched(v.g.fatType, a0, AllocOf(v), cs0, cs, f.sclust)
  {
    SoundAgain(v, a0, cs0, cs, f);
  }

  lemma AtLonger(b: nat, cs: seq<nat>, cs': seq<nat>, fptr: nat, clust: nat)
    requires 0 < b && At(b, cs, fptr, clust) && cs <= cs'
    ensures At(b, cs', fptr, clust) && Start(b, |cs|) <= Start(b, |cs'|)
  {
    StartOrder(b, |cs|, |cs'|);
  }

  lemma TightAfter(b: nat, cs: seq<nat>, cs': seq<nat>, fptr: nat, pos: nat)
    requires cs' == cs || (|cs'| == |cs| + 1 && fptr == Start(b, |cs|))
    requires fptr < pos
    ensures Tight(b, cs, cs', pos)
  {
  }

  lemma TightTwice(b: nat, cs0: seq<nat>, cs1: seq<nat>, cs: seq<nat>, pos1: nat, pos: nat)
    requires Tight(b, cs0, cs1, pos1) && Tight(b, cs1, cs, pos) && pos1 <= pos
    ensures Tight(b, cs0, cs, pos)
  {
  }

  /** One round of f_write. */
  method WriteRound(v: Volume, f: Cursor, left: nat, ghost a0: Alloc, ghost cs0: seq<nat>, ghost cs: seq<nat>)
    returns (res: Result, full: bool, f': Cursor, ghost cs': seq<nat>)
    requires GeometryOk(v.g) && InFile(v, a0, cs0, cs, f) && 0 < left
    modifies v, v.win
    ensures InFile(v, a0, cs0, cs', f')
    ensures old(v.faulty) ==> v.faulty
    ensures res == DiskError ==> v.faulty
    ensures res != Ok || full ==> f'.fptr == f.fptr && f'.objsize == f.objsize
    ensures res == Ok && !full ==> f.fptr < f'.fptr <= f.fptr + left && f'.objsize == Larger(f.objsize, f'.fptr)
    ensures !v.faulty && res == Ok && full ==>
              cs' == cs && f'.fptr == Start(ClusterBytes(v.g), |cs'|) && (v.freeClst == 0 || NoFree(v.Fat()))
    ensures !v.faulty && res == Ok && !full ==> Tight(ClusterBytes(v.g), cs, cs', f'.fptr)
    ensures !v.faulty && !HasOne(a0.t) ==> res == Ok
  {
    hide *;
    InFileMeans(v, a0, cs0, cs, f);
    var clst, first;
    res, full, clst, first, cs' := WriteCluster(v, f.fptr, f.clust, f.sclust, a0, cs0, cs);
    OpenMeans(v, a0, cs0, cs', first);
    if !v.faulty { AtLonger(ClusterBytes(v.g), cs, cs', f.fptr, f.clust); }
    f' := Cursor(first, f.objsize, f.fptr, f.clust);
    if res != Ok || full { InFileIs(v, a0, cs0, cs', f'); return; }
    ghost var a1 := AllocOf(v);
    AllocIs(v);
    var ok := Transfer(v);
    OpenSame(v, a0, cs0, a1, cs', first);
    if !ok { res := DiskError; InFileIs(v, a0, cs0, cs', f'); return; }
    ChunkPositive(v.g, f.fptr, left);
    var n := Chunk(v.g.csize, f.fptr, left);
    if !v.faulty {
      CachedAfter(v.g, cs', f.fptr, clst, left);
      TightAfter(ClusterBytes(v.g), cs, cs', f.fptr, f.fptr + n);
    }
    LargerMeans(f.objsize, f.fptr + n);
    f' := Cursor(first, Larger(f.objsize, f.fptr + n), f.fptr + n, clst);
    InFileIs(v, a0, cs0, cs', f');
  }

  /** One round of f_read. */
  method ReadRound(v: Volume, f: Cursor, left: nat, ghost a0: Alloc, ghost cs: seq<nat>)
    returns (res: Result, f': Cursor)
    requires GeometryOk(v.g) && InFile(v, a0, cs, cs, f) && 0 < left && f.fptr + left <= f.objsize
    modifies v, v.win
    ensures InFile(v, a0, cs, cs, f') && old(v.Valid()) && v.Valid() && v.Fat() == old(v.Fat())
    ensures AllocOf(v) == old(AllocOf(v))
    ensures old(v.faulty) ==> v.faulty
    ensures res == DiskError ==> v.faulty
    ensures f'.objsize == f.objsize && f'.sclust == f.sclust
    ensures f.fptr <= f'.fptr <= f.fptr + left && (res == Ok ==> f.fptr < f'.fptr)
    ensures !v.faulty ==> res == Ok
  {
    hide *;
    InFileMeans(v, a0, cs, cs, f);
    var clst;
    res, clst := ReadCluster(v, f.fptr, f.clust, f.sclust, a0, cs);
    OpenMeans(v, a0, cs, cs, f.sclust);
    f' := f;
    if res != Ok { InFileIs(v, a0, cs, cs, f'); return; }
    ghost var a1 := AllocOf(v);
    AllocIs(v);
    var ok := Transfer(v);
    OpenSame(v, a0, cs, a1, cs, f.sclust);
    if !ok { res := DiskError; InFileIs(v, a0, cs, cs, f'); return; }
    ChunkPositive(v.g, f.fptr, left);
    var n := Chunk(v.g.csize, f.fptr, left);
    if !v.faulty { CachedAfter(v.g, cs, f.fptr, clst, left); }
    f' := Cursor(f.sclust, f.objsize, f.fptr + n, clst);
    InFileIs(v, a0, cs, cs, f');
  }

  /** The rounds of f_read: btr bytes from the cursor on. */
  method ReadOn(v: Volume, f: Cursor, btr: nat, ghost cs: seq<nat>) returns (res: Result, f': Cursor)
    requires GeometryOk(v.g) && SoundFile(v, cs, f) && f.fptr + btr <= f.objsize
    modifies v, v.win
    ensures SoundFile(v, cs, f') && old(v.Valid()) && v.Valid() && v.Fat() == old(v.Fat())
    ensures AllocOf(v) == old(AllocOf(v))
    ensures old(v.faulty) ==> v.faulty
    ensures res == DiskError ==> v.faulty
    ensures f'.objsize == f.objsize && f'.sclust == f.sclust
    ensures f.fptr <= f'.fptr <= f.fptr + btr && (res == Ok ==> f'.fptr == f.fptr + btr)
    ensures !v.faulty ==> res == Ok
  {
    ghost var a0 := AllocOf(v);
    SoundMeans(v, cs, f);
    hide *;
    InFileIs(v, a0, cs, cs, f);
    var left: nat := btr;
    res, f' := Ok, f;
    while left > 0
      invariant InFile(v, a0, cs, cs, f') && SoundFile(v, cs, f') && (old(v.faulty) ==> v.faulty)
      invariant v.Valid() && AllocOf(v) == a0 && v.Fat() == a0.t && f.fptr <= f'.fptr
      invariant res == Ok && f'.objsize == f.objsize && f'.sclust == f.sclust && f'.fptr + left == f.fptr + btr
    {
      var was := f';
      res, f' := ReadRound(v, f', left, a0, cs);
      InFileMeans(v, a0, cs, cs, f');
      InFileIs(v, a0, cs, cs, f');
      if res != Ok { return; }
      left := left - (f'.fptr - was.fptr);
    }
  }

  lemma LargerTwice(x: nat, y: nat, z: nat)
    ensures y <= z ==> Larger(Larger(x, y), z) == Larger(x, z)
    ensures y <= x ==> Larger(x, y) == x
  {
  }

  /** The rounds of f_write: up to `btw` bytes, fewer if the volume is full. */
  method WriteOn(v: Volume, f: Cursor, btw: nat, ghost cs0: seq<nat>)
    returns (res: Result, f': Cursor, ghost cs: seq<nat>)
    requires GeometryOk(v.g) && SoundFile(v, cs0, f) && f.fptr <= f.objsize
    modifies v, v.win
    ensures v.Valid() && old(v.Valid())
    ensures old(v.faulty) ==> v.faulty
    ensures res == DiskError ==> v.faulty
    ensures SoundFile(v, cs, f')
    ensures !v.faulty ==> Grown(old(v.Fat()), v.Fat(), cs0, cs)
    ensures !v.faulty ==> Stretched(v.g.fatType, old(AllocOf(v)), AllocOf(v), cs0, cs, f'.sclust)
    ensures !v.faulty && res == Ok ==> Tight(ClusterBytes(v.g), cs0, cs, f'.fptr)
    ensures f.fptr <= f'.fptr <= f.fptr + btw && f'.objsize == Larger(f.objsize, f'.fptr)
    ensures !v.faulty && res == Ok && f'.fptr < f.fptr + btw ==>
              f'.fptr == Start(ClusterBytes(v.g), |cs|) && (v.freeClst == 0 || NoFree(v.Fat()))
    ensures !v.faulty && !HasOne(old(v.Fat())) ==> res == Ok
  {
    ghost var a0 := AllocOf(v);
    SoundMeans(v, cs0, f);
    AllocIs(v);
    hide *;
    InFileIs(v, a0, cs0, cs0, f);
    TightSame(ClusterBytes(v.g), cs0, cs0, f.fptr);
    var left: nat, full := btw, false;
    res, f', cs := Ok, f, cs0;
    LargerTwice(f.objsize, f.fptr, f.fptr);
    while left > 0 && !full
      invariant v.Valid() && InFile(v, a0, cs0, cs, f') && SoundFile(v, cs, f') && (old(v.faulty) ==> v.faulty)
      invariant !v.faulty ==>
                  Grown(a0.t, v.Fat(), cs0, cs) && Stretched(v.g.fatType, a0, AllocOf(v), cs0, cs, f'.sclust)
      invariant !v.faulty ==> Tight(ClusterBytes(v.g), cs0, cs, f'.fptr)
      invariant res == Ok && f'.fptr + left == f.fptr + btw && f'.objsize == Larger(f.objsize, f'.fptr)
      invariant !v.faulty && full ==> f'.fptr == Start(ClusterBytes(v.g), |cs|) && (v.freeClst == 0 || NoFree(v.Fat()))
      decreases left, !full
    {
      var was := f';
      ghost var cs1 := cs;
      res, full, f', cs := WriteRound(v, f', left, a0, cs0, cs);
      InFileMeans(v, a0, cs0, cs, f');
      InFileIs(v, a0, cs0, cs, f');
      if res != Ok { return; }
      LargerTwice(f.objsize, was.fptr, f'.fptr);
      if !v.faulty && !full { TightTwice(ClusterBytes(v.g), cs0, cs1, cs, was.fptr, f'.fptr); }
      left := left - (f'.fptr - was.fptr);
    }
  }

  /** The seek to the end in f_open, for FA_OPEN_APPEND. */
  method SeekEnd(v: Volume, f: Cursor, ghost cs: seq<nat>) returns (res: Result, f': Cursor)
    requires GeometryOk(v.g) && SoundFile(v, cs, f)
    modifies v, v.win
    ensures old(v.faulty) ==> v.faulty
    ensures res == DiskError ==> v.faulty
    ensures SoundFile(v, cs, f') && old(v.Valid()) && v.Valid() && AllocOf(v) == old(AllocOf(v))
    ensures f'.sclust == f.sclust && f'.objsize == f.objsize && (f'.fptr == f.fptr || f'.fptr == f.objsize)
    ensures !v.faulty ==> res == Ok && (f.objsize > 0 ==> f'.fptr == f.objsize)
  {
    ghost var a0 := AllocOf(v);
    SoundMeans(v, cs, f);
    StartNext(ClusterBytes(v.g), 0);
    hide *;
    InFileIs(v, a0, cs, cs, f);
    res, f' := Ok, f;
    if f.objsize == 0 { return; }
    var clst, ofs;
    ghost var k;
    res, clst, ofs, k := FollowToEnd(v, f, a0, cs);
    if res != Ok { StillSound(v, a0, cs, f); return; }
    f' := Cursor(f.sclust, f.objsize, f.objsize, clst);
    if !v.faulty { ReachedMeans(ClusterBytes(v.g), cs, f.objsize, clst); }
    InFileIs(v, a0, cs, cs, f');
    if !OnSector(ofs) && ClusterSector(v.g, clst) == 0 { res := IntError; }
  }

  /** The loop of the seek to the end: to the cluster of the last byte. */
  method FollowToEnd(v: Volume, f: Cursor, ghost a0: Alloc, ghost cs: seq<nat>)
    returns (res: Result, clst: nat, ofs: nat,
                     ghost k: nat)
    requires GeometryOk(v.g) && InFile(v, a0, cs, cs, f) && 0 < f.objsize
    modifies v, v.win
    ensures Open(v, a0, cs, cs, f.sclust)
    ensures old(v.faulty) ==> v.faulty
    ensures res == DiskError ==> v.faulty
    ensures !v.faulty ==> res == Ok && Reached(ClusterBytes(v.g), cs, f.objsize, clst) && ClusterSector(v.g, clst) > 0
    ensures !v.faulty ==> f.objsize <= Start(ClusterBytes(v.g), |cs|)
    ensures old(v.Valid()) && v.Valid() && AllocOf(v) == old(AllocOf(v))
    ensures res != Ok ==> v.faulty
  {
    hide *;
    InFileMeans(v, a0, cs, cs, f);
    OpenMeans(v, a0, cs, cs, f.sclust);
    var b := ClusterBytes(v.g);
    StartNext(b, 0);
    if !v.faulty { FirstCluster(v.Fat(), cs, f.sclust); }
    res, ofs, clst, k := Ok, f.objsize, f.sclust, 0;
    while ofs > b
      invariant Open(v, a0, cs, cs, f.sclust) && (old(v.faulty) ==> v.faulty) && 0 < ofs && res == Ok
      invariant v.Valid() && AllocOf(v) == old(AllocOf(v))
      invariant !v.faulty ==>
                  f.sclust != 0 && k < |cs| && clst == cs[k] && Start(b, k) + ofs == f.objsize <= Start(b, |cs|)
    {
      StartNext(b, k);
      NextInside(b, cs, k, f.objsize);
      clst := Follow(v, clst, f.sclust, k + 1, a0, cs, cs);
      OpenMeans(v, a0, cs, cs, f.sclust);
      if clst <= 1 { res := IntError; return; }
      if clst == DISK_ERROR { res := DiskError; return; }
      ofs, k := ofs - b, k + 1;
    }
    OpenMeans(v, a0, cs, cs, f.sclust);
    if !v.faulty { ReachedAt(b, cs, k, f.objsize); ClusterOf(v.g, v.Fat(), cs, f.sclust, k); }
  }

  lemma StillSound(v: Volume, a0: Alloc, cs: seq<nat>, f: Cursor)
    requires GeometryOk(v.g) && v.Valid() && v.faulty
    ensures SoundFile(v, cs, f)
  {
  }

  /** From table t to t' chain cs has been cut to its first k clusters: the others are free, and all
      chains apart from it are as before. */
  ghost predicate CutTo(t: seq<nat>, t': seq<nat>, cs: seq<nat>, k: nat) {
    && |t'| == |t| && k <= |cs|
    && (forall l | k <= l < |cs| :: 2 <= cs[l] < |t'| && t'[cs[l]] == 0)
    && (k > 0 ==> Chain(t', cs[..k]))
    && forall ds | Chain(t, ds) && Disjoint(ds, cs) :: Chain(t', ds)
  }

  lemma WholeCut(t: seq<nat>, cs: seq<nat>)
    requires cs == [] || Chain(t, cs)
    ensures CutTo(t, t, cs, |cs|)
  {
    assert cs[..|cs|] == cs;
  }

  lemma CutByRemoval(a: Alloc, a': Alloc, cs: seq<nat>, k: nat, res: Result, mark: nat)
    requires Chain(a.t, cs) && k < |cs| && mark >= |a.t|
    requires Freed(a, a', cs[k], if k == 0 then 0 else cs[k - 1], res, mark)
    ensures res == Ok && CutTo(a.t, a'.t, cs, k)
  {
    var pclst := if k == 0 then 0 else cs[k - 1];
    if k > 0 { ChainInUse(a.t, cs, k - 1); }
    ChainInUse(a.t, cs, k);
    RemoveCuts(a.t, cs, k, mark);
    assert CutTable(a.t, a'.t, cs, k, mark);
    hide Freed, Removed, MeetsOne;
    if k > 0 { CutChain(a.t, a'.t, cs, k, mark); }
    forall l: nat | k <= l < |cs| ensures 2 <= cs[l] < |a'.t| && a'.t[cs[l]] == 0 {
      ChainInUse(a.t, cs, l);
      InSuffix(cs, k, l);
    }
    hide Chain;
    forall ds | Chain(a.t, ds) && Disjoint(ds, cs) ensures Chain(a'.t, ds) {
      ApartFromCut(a.t, a'.t, cs, k, mark, ds);
    }
  }

  lemma ApartFromCut(t: seq<nat>, t': seq<nat>, cs: seq<nat>, k: nat, mark: nat, ds: seq<nat>)
    requires k < |cs| && (forall i | 0 <= i < |cs| :: cs[i] < |t|) && CutTable(t, t', cs, k, mark)
    requires Chain(t, ds) && Disjoint(ds, cs)
    ensures Chain(t', ds)
  {
    forall i | 0 <= i < |ds| ensures t'[ds[i]] == t[ds[i]] {
      assert ds[i] !in cs[k..];
    }
    ChainUntouched(t, t', ds);
  }

  /** The number of clusters that p bytes need. */
  function Clusters(b: Positive, p: nat): nat {
    (p + b - 1) / b
  }

  lemma ClustersIs(b: nat, p: nat)
    requires 0 < b
    ensures Clusters(b, p) == if p == 0 then 0 else Index(b, p) + 1
  {
    if p == 0 {
      StartNext(b, 0);
      PlaceIs(b, b - 1, 0);
    } else {
      IndexBounds(b, p);
      StartNext(b, Index(b, p));
      PlaceIs(b, p + b - 1, Index(b, p) + 1);
    }
  }

  /** A file after its chain has been cut behind its position. */
  lemma CutSound(t: seq<nat>, t': seq<nat>, b: nat, cs: seq<nat>, f: Cursor)
    requires 0 < b && Sound(t, b, cs, f) && 0 < f.fptr && Index(b, f.fptr) < |cs|
    requires CutTo(t, t', cs, Index(b, f.fptr) + 1)
    ensures Sound(t', b, cs[..Index(b, f.fptr) + 1], Cursor(f.sclust, f.fptr, f.fptr, f.clust))
  {
    IndexBounds(b, f.fptr);
    StartNext(b, Index(b, f.fptr));
  }

  lemma CutAllSound(t: seq<nat>, b: nat, clust: nat)
    requires 0 < b
    ensures Sound(t, b, [], Cursor(0, 0, 0, clust))
  {
  }

  lemma SoundFacts(t: seq<nat>, b: nat, cs: seq<nat>, f: Cursor)
    requires 0 < b && Sound(t, b, cs, f)
    ensures IsChain(t, cs, f.sclust) && f.fptr <= f.objsize <= Start(b, |cs|)
    ensures f.fptr > 0 ==> Index(b, f.fptr) < |cs| && f.clust == cs[Index(b, f.fptr)]
    ensures f.objsize > 0 ==> f.sclust != 0 && Chain(t, cs) && cs[0] == f.sclust
  {
    StartNext(b, 0);
  }

  lemma SoundIs(v: Volume, cs: seq<nat>, f: Cursor)
    requires GeometryOk(v.g) && v.Valid()
    ensures (v.faulty || Sound(v.Fat(), ClusterBytes(v.g), cs, f)) <==> SoundFile(v, cs, f)
  {
  }

  /** remove_chain at place k of a chain. */
  method CutChainAt(v: Volume, clst: nat, pclst: nat, ghost cs: seq<nat>, ghost k: nat) returns (res: Result)
    requires v.Valid()
    requires !v.faulty ==> Chain(v.Fat(), cs) && k < |cs| && clst == cs[k] && pclst == if k == 0 then 0 else cs[k - 1]
    modifies v, v.win
    ensures v.Valid()
    ensures old(v.faulty) ==> v.faulty
    ensures res == DiskError ==> v.faulty
    ensures !v.faulty ==> res == Ok && CutTo(old(v.Fat()), v.Fat(), cs, k)
    ensures !v.faulty && (k == 0 ==> FatRuns.Head(old(v.Fat()), cs[0])) ==>
              KeptRest(v.g.fatType, old(AllocOf(v)), AllocOf(v))
  {
    ghost var a, mark := AllocOf(v), Mark(v.g);
    MarkEnds(v.g);
    AllocIs(v);
    assert |a.t| == v.g.nFatent >= 3;
    hide *;
    res := RemoveChain(v, clst, pclst);
    AllocIs(v);
    if !v.faulty {
      CutByRemoval(a, AllocOf(v), cs, k, res, mark);
      if k == 0 ==> FatRuns.Head(a.t, cs[0]) { FreedKept(v.g.fatType, a, AllocOf(v), cs, k, res, mark); }
    }
  }

  /** Removes what follows the current cluster, place k - 1 of the chain. */
  method CutBehind(v: Volume, f: Cursor, ghost cs0: seq<nat>, ghost k: nat) returns (res: Result)
    requires v.Valid() && (!v.faulty ==> IsChain(v.Fat(), cs0, f.sclust))
    requires !v.faulty ==> f.sclust != 0 && 0 < k <= |cs0| && f.clust == cs0[k - 1]
    modifies v, v.win
    ensures v.Valid()
    ensures old(v.faulty) ==> v.faulty
    ensures res == DiskError ==> v.faulty
    ensures !v.faulty ==> res == Ok && CutTo(old(v.Fat()), v.Fat(), cs0, k)
    ensures !v.faulty ==> KeptRest(v.g.fatType, old(AllocOf(v)), AllocOf(v))
  {
    hide *;
    ghost var a0 := AllocOf(v);
    AllocIs(v);
    OpenStarts(v, cs0, f.sclust);
    OpenMeans(v, a0, cs0, cs0, f.sclust);
    var ncl := Follow(v, f.clust, f.sclust, k, a0, cs0, cs0);
    OpenMeans(v, a0, cs0, cs0, f.sclust);
    if !v.faulty {
      ChainFrom(a0.t, cs0, f.sclust);
      WholeCut(a0.t, cs0);
      KeptSame(v.g.fatType, a0);
      KeptIsRest(v.g.fatType, a0, a0);
    }
    res := Ok;
    if ncl == DISK_ERROR { res := DiskError; }
    if ncl == 1 { res := IntError; }
    if res == Ok && ncl < v.g.nFatent { res := CutChainAt(v, ncl, f.clust, cs0, k); }
  }

  /** f_truncate, for a position in front of the end */
  method TruncateTo(v: Volume, f: Cursor, ghost cs0: seq<nat>) returns (res: Result, f': Cursor, ghost cs: seq<nat>)
    requires GeometryOk(v.g) && SoundFile(v, cs0, f) && f.fptr < f.objsize
    modifies v, v.win
    ensures v.Valid()
    ensures old(v.faulty) ==> v.faulty
    ensures res == DiskError ==> v.faulty
    ensures f'.fptr == f'.objsize == f.fptr
    ensures SoundFile(v, cs, f')
    ensures !v.faulty ==> res == Ok && cs <= cs0 && |cs| == Clusters(ClusterBytes(v.g), f.fptr)
    ensures !v.faulty ==> CutTo(old(v.Fat()), v.Fat(), cs0, |cs|) && cs0 != []
    ensures !v.faulty && FatRuns.Head(old(v.Fat()), cs0[0]) ==> KeptRest(v.g.fatType, old(AllocOf(v)), AllocOf(v))
  {
    ghost var t0, b := v.Fat(), ClusterBytes(v.g);
    CsizePositive(v.g);
    SoundIs(v, cs0, f);
    SoundMeans(v, cs0, f);
    ghost var was := v.faulty;
    if !was { SoundFacts(t0, b, cs0, f); WholeCut(t0, cs0); }
    ClustersIs(b, f.fptr);
    ghost var k := if f.fptr == 0 then 0 else Index(b, f.fptr) + 1;
    hide *;
    res, cs := Ok, if was then cs0 else cs0[..k];
    if f.fptr == 0 {
      res := CutChainAt(v, f.sclust, 0, cs0, 0);
      f' := Cursor(0, 0, 0, f.clust);
      if !v.faulty { CutAllSound(v.Fat(), b, f.clust); }
    } else {
      f' := Cursor(f.sclust, f.fptr, f.fptr, f.clust);
      res := CutBehind(v, f, cs0, k);
      if !v.faulty { CutSound(t0, v.Fat(), b, cs0, f); }
    }
    SoundIs(v, cs, f');
  }

  lemma ClustersFit(b: nat, p: nat, n: nat)
    requires 0 < b
    ensures Clusters(b, p) <= n <==> p <= Start(b, n)
  {
    ClustersIs(b, p);
    if p > 0 {
      IndexBounds(b, p);
      StartNext(b, Index(b, p));
      StartOrder(b, n, Index(b, p));
      StartOrder(b, Index(b, p) + 1, n);
    }
    hide Clusters, Start, Index;
  }

  /** A chain of exactly the clusters that the size needs is still one after it has grown for
      position pos. */
  lemma ExactGrown(b: nat, cs0: seq<nat>, cs: seq<nat>, size: nat, pos: nat)
    requires 0 < b && |cs0| == Clusters(b, size) && |cs0| <= |cs|
    requires Tight(b, cs0, cs, pos) && Larger(size, pos) <= Start(b, |cs|)
    ensures |cs| == Clusters(b, Larger(size, pos))
  {
    ClustersFit(b, size, |cs0|);
    ClustersFit(b, Larger(size, pos), |cs|);
    if |cs| == |cs0| {
      if |cs| > 0 { ClustersFit(b, size, |cs| - 1); ClustersFit(b, Larger(size, pos), |cs| - 1); }
    } else {
      ClustersFit(b, pos, |cs| - 1);
      ClustersFit(b, Larger(size, pos), |cs| - 1);
    }
    hide Clusters, Start;
  }

  /** A file whose chain has a cluster that its size does not need. */
  lemma UnneededCluster(b: nat) returns (t: seq<nat>, cs: seq<nat>, f: Cursor)
    requires 0 < b
    ensures Sound(t, b, cs, f) && f.fptr == f.objsize == 0 && cs != [] && |cs| != Clusters(b, 0)
  {
    t, cs, f := [0, 0, 3], [2], Cursor(2, 0, 0, 0);
    assert Link(t, cs, 0);
    ClustersIs(b, 0);
  }

  /** The first cluster of a file, if it has one, begins a chain. */
  ghost predicate Owned(t: seq<nat>, sclust: nat) {
    sclust != 0 ==> Begins(t, sclust)
  }

  /** The file still owns its chain after it has grown. */
  lemma OwnedGrown(ft: FatType, a0: Alloc, a: Alloc, cs0: seq<nat>, cs: seq<nat>, first: nat, sclust: nat)
    requires Stretched(ft, a0, a, cs0, cs, sclust) && IsChain(a0.t, cs0, first) && IsChain(a.t, cs, sclust)
    requires FatRuns.Good(ft, a0) && Owned(a0.t, first)
    ensures FatRuns.Good(ft, a) && Owned(a.t, sclust)
  {
    if first != 0 { assert cs0[0] == cs[0] == first == sclust; }
    hide FatRuns.Good, Begins, HasOne;
  }

  /** Another file of the volume is as sound as before, and still apart. */
  lemma BesideGrown(ft: FatType, a0: Alloc, a: Alloc, b: nat, cs0: seq<nat>, cs: seq<nat>, sclust: nat, ds: seq<nat>,
                    f: Cursor)
    requires 0 < b && Stretched(ft, a0, a, cs0, cs, sclust) && Sound(a0.t, b, ds, f) && Disjoint(ds, cs0)
    ensures Sound(a.t, b, ds, f) && Disjoint(ds, cs)
    ensures FatRuns.Good(ft, a0) && Owned(a0.t, f.sclust) ==> Owned(a.t, f.sclust)
  {
    hide Chain, FatRuns.Good, Begins, HasOne, At;
  }

  lemma BesideCut(ft: FatType, a0: Alloc, a: Alloc, b: nat, cs0: seq<nat>, k: nat, ds: seq<nat>, f: Cursor)
    requires 0 < b && CutTo(a0.t, a.t, cs0, k) && Sound(a0.t, b, ds, f) && Disjoint(ds, cs0)
    ensures Sound(a.t, b, ds, f) && Disjoint(ds, cs0[..k])
    ensures KeptRest(ft, a0, a) && FatRuns.Good(ft, a0) && Owned(a0.t, f.sclust) ==> Owned(a.t, f.sclust)
  {
    if f.sclust != 0 {
      assert Chain(a.t, ds);
      InUseAt(a.t, ds, 0);
    }
    hide Chain, FatRuns.Good, Begins, At;
  }

  lemma OwnedCut(ft: FatType, a0: Alloc, a: Alloc, cs0: seq<nat>, k: nat, sclust: nat)
    requires KeptRest(ft, a0, a) && CutTo(a0.t, a.t, cs0, k) && IsChain(a0.t, cs0, sclust)
    requires FatRuns.Good(ft, a0) && Owned(a0.t, sclust)
    ensures FatRuns.Good(ft, a) && Owned(a.t, if k == 0 then 0 else sclust)
  {
    if k > 0 {
      assert cs0[..k][0] == sclust;
      InUseAt(a.t, cs0[..k], 0);
    }
    hide FatRuns.Good, Begins, Chain;
  }

  /** The bytes that f_write may write without the position leaving 32 bits. */
  function WriteLimit(fptr: nat, btw: nat): (n: nat)
    ensures n <= btw
  {
    if fptr + btw < 0x1_0000_0000 then btw else if fptr < 0xFFFF_FFFF then 0xFFFF_FFFF - fptr else 0
  }

  lemma LimitMeans(fptr: nat, btw: nat)
    ensures var n := WriteLimit(fptr, btw);
            && n <= btw && (fptr <= 0xFFFF_FFFF ==> fptr + n <= 0xFFFF_FFFF)
            && (n < btw ==> fptr + btw > 0xFFFF_FFFF && fptr + n >= 0xFFFF_FFFF)
  {
  }

  /** What a file keeps while its chain grows. */
  lemma AfterGrowth(v: Volume, a0: Alloc, cs0: seq<nat>, f0: Cursor, cs: seq<nat>, f: Cursor)
    requires GeometryOk(v.g) && SoundFile(v, cs, f) && !v.faulty
    requires IsChain(a0.t, cs0, f0.sclust) && Stretched(v.g.fatType, a0, AllocOf(v), cs0, cs, f.sclust)
    ensures FatRuns.Good(v.g.fatType, a0) && Owned(a0.t, f0.sclust) ==>
              FatRuns.Good(v.g.fatType, AllocOf(v)) && Owned(AllocOf(v).t, f.sclust)
    ensures (Tight(ClusterBytes(v.g), cs0, cs, f.fptr) && f.objsize == Larger(f0.objsize, f.fptr)
             && |cs0| == Clusters(ClusterBytes(v.g), f0.objsize)) ==> |cs| == Clusters(ClusterBytes(v.g), f.objsize)
  {
    var b := ClusterBytes(v.g);
    assert cs0 <= cs && f.objsize <= Start(b, |cs|) && IsChain(AllocOf(v).t, cs, f.sclust);
    hide Stretched, IsChain, FatRuns.Good, Owned, SoundFile, Sound, Clusters, Tight, Larger;
    if FatRuns.Good(v.g.fatType, a0) && Owned(a0.t, f0.sclust) {
      OwnedGrown(v.g.fatType, a0, AllocOf(v), cs0, cs, f0.sclust, f.sclust);
    }
    if Tight(b, cs0, cs, f.fptr) && f.objsize == Larger(f0.objsize, f.fptr) && |cs0| == Clusters(b, f0.objsize) {
      ExactGrown(b, cs0, cs, f0.objsize, f.fptr);
    }
  }

  /** What a file keeps when its chain is cut. */
  lemma AfterCut(v: Volume, a0: Alloc, cs0: seq<nat>, f0: Cursor, cs: seq<nat>, f: Cursor)
    requires GeometryOk(v.g) && SoundFile(v, cs, f) && !v.faulty && cs0 != [] && cs <= cs0
    requires IsChain(a0.t, cs0, f0.sclust) && CutTo(a0.t, AllocOf(v).t, cs0, |cs|)
    requires FatRuns.Head(a0.t, cs0[0]) ==> KeptRest(v.g.fatType, a0, AllocOf(v))
    ensures FatRuns.Good(v.g.fatType, a0) && Owned(a0.t, f0.sclust) ==>
              && FatRuns.Good(v.g.fatType, AllocOf(v)) && Owned(AllocOf(v).t, f.sclust)
              && KeptRest(v.g.fatType, a0, AllocOf(v))
  {
    assert cs0[0] == f0.sclust && IsChain(AllocOf(v).t, cs, f.sclust) && cs == cs0[..|cs|];
    assert f.sclust == if |cs| == 0 then 0 else f0.sclust;
    hide FatRuns.Good, KeptRest, SoundFile, Sound, CutTo, IsChain;
    if FatRuns.Good(v.g.fatType, a0) && Owned(a0.t, f0.sclust) {
      OwnedCut(v.g.fatType, a0, AllocOf(v), cs0, |cs|, f0.sclust);
    }
  }

  /** An open file. */
  class File {
    const v: Volume
    const canRead: bool
    const canWrite: bool
    var sclust: nat
    var objsize: nat
    var fptr: nat
    var clust: nat
    /** The error that closed the file to further use. */
    var err: Result
    /** The chain of the file. */
    ghost var chain: seq<nat>

    ghost function Cur(): Cursor
      reads this
    {
      Cursor(sclust, objsize, fptr, clust)
    }

    /** As long as the file and the device have had no error: the file's chain begins at sclust and
        is long enough for its size, the position lies within the size, and the cached cluster is
        the one that holds the byte before the position. */
    ghost predicate Valid()
      reads this, v, v.win
    {
      v.Valid() && GeometryOk(v.g) && fptr <= objsize && (err == Ok ==> SoundFile(v, chain, Cur()))
    }

    /** The chain has exactly the clusters that the size needs. */
    ghost predicate Exact()
      requires GeometryOk(v.g)
      reads this
    {
      |chain| == Clusters(ClusterBytes(v.g), objsize)
    }

    /** The volume is a set of disjoint chains with a right or unknown count of free clusters, and
        the file owns its chain from the first cluster on. */
    ghost predicate Sane()
      requires v.Valid()
      reads this, v, v.win
    {
      FatRuns.Good(v.g.fatType, AllocOf(v)) && Owned(v.Fat(), sclust)
    }

    lemma FileMeans()
      requires Valid()
      ensures v.Valid() && GeometryOk(v.g) && 0 < ClusterBytes(v.g) && fptr <= objsize
      ensures err == Ok ==> SoundFile(v, chain, Cursor(sclust, objsize, fptr, clust))
    {
    }

    lemma FileStarts()
      requires Valid() && err == Ok && !v.faulty
      ensures v.Valid() && GeometryOk(v.g) && IsChain(AllocOf(v).t, chain, sclust)
      ensures objsize <= Start(ClusterBytes(v.g), |chain|)
      ensures Sane() <==> FatRuns.Good(v.g.fatType, AllocOf(v)) && Owned(AllocOf(v).t, sclust)
      ensures Exact() <==> |chain| == Clusters(ClusterBytes(v.g), objsize)
    {
    }

    lemma FileNow()
      requires v.Valid() && GeometryOk(v.g)
      ensures Sane() <==> FatRuns.Good(v.g.fatType, AllocOf(v)) && Owned(AllocOf(v).t, sclust)
      ensures Exact() <==> |chain| == Clusters(ClusterBytes(v.g), objsize)
    {
    }

    lemma FileIs()
      requires v.Valid() && fptr <= objsize && GeometryOk(v.g)
      requires err == Ok ==> SoundFile(v, chain, Cursor(sclust, objsize, fptr, clust))
      ensures Valid()
    {
    }

    method Set(f: Cursor, ghost cs: seq<nat>)
      modifies this
      ensures sclust == f.sclust && objsize == f.objsize && fptr == f.fptr && clust == f.clust && chain == cs
      ensures err == old(err)
    {
      sclust, objsize, fptr, clust, chain := f.sclust, f.objsize, f.fptr, f.clust, cs;
    }

    /** f_open of a file whose directory entry gives its first cluster and size. */
    constructor (v: Volume, canRead: bool, canWrite: bool, append: bool, first: nat, size: nat, ghost cs: seq<nat>)
      requires v.Valid() && GeometryOk(v.g) && SoundFile(v, cs, Cursor(first, size, 0, 0))
      modifies v, v.win
      ensures Valid() && this.v == v && this.canRead == canRead && this.canWrite == canWrite
      ensures old(v.faulty) ==> v.faulty
      ensures !v.faulty ==> err == Ok && chain == cs && sclust == first && objsize == size
      ensures !v.faulty ==> fptr == if append then size else 0
      ensures !v.faulty ==> v.Valid() && AllocOf(v) == old(AllocOf(v))
      ensures !append ==> unchanged(v, v.win)
    {
      this.v, this.canRead, this.canWrite := v, canRead, canWrite;
      var res, f := Ok, Cursor(first, size, 0, 0);
      if append { res, f := SeekEnd(v, f, cs); }
      sclust, objsize, fptr, clust := f.sclust, f.objsize, f.fptr, f.clust;
      err, chain := res, cs;
      new;
      hide SoundFile, Sound;
    }

    /** f_lseek */
    method Seek(target: nat) returns (res: Result)
      requires Valid()
      modifies this, v, v.win
      ensures Valid() && res == err && (old(err) != Ok ==> unchanged(this, v, v.win))
      ensures old(v.faulty) ==> v.faulty
      ensures old(err) == Ok && !v.faulty && (!canWrite || !HasOne(old(v.Fat()))) ==> err == Ok
      ensures err == Ok && !v.faulty ==> Stretched(v.g.fatType, old(AllocOf(v)), AllocOf(v), old(chain), chain, sclust)
      ensures err == Ok && !v.faulty && old(Sane()) ==> Sane()
      ensures err == Ok && !v.faulty && old(Exact()) ==> Exact()
      ensures err == Ok && !v.faulty ==>
                var goal := SeekGoal(canWrite, old(objsize), target);
                && fptr <= goal && objsize == Larger(old(objsize), fptr)
                && (fptr < goal ==>
                      canWrite && fptr == Start(ClusterBytes(v.g), |chain|) && (v.freeClst == 0 || NoFree(v.Fat())))
      ensures err == Ok && !v.faulty && !canWrite ==>
                objsize == old(objsize) && fptr == if target <= old(objsize) then target else old(objsize)
      ensures err == Ok && !v.faulty && canWrite && fptr != target ==>
                fptr < target && (v.freeClst == 0 || NoFree(v.Fat()))
    {
      GoalMeans(canWrite, objsize, target);
      hide *;
      FileMeans();
      if err != Ok { return err; }
      var f := Cursor(sclust, objsize, fptr, clust);
      ghost var cs, a0, was := chain, AllocOf(v), f;
      if !v.faulty { FileStarts(); }
      ghost var size := objsize;
      res, f, cs := SeekTo(v, canWrite, f, target, chain);
      if res == Ok {
        if !v.faulty { AfterGrowth(v, a0, chain, was, cs, f); }
        Set(f, cs);
        LargerMeans(size, fptr);
      }
      err := res;
      if !v.faulty { FileNow(); }
      FileIs();
    }

    /** f_read, apart from the data */
    method Read(count: nat) returns (res: Result, br: nat)
      requires Valid()
      modifies this, v, v.win
      ensures Valid() && (old(v.faulty) ==> v.faulty)
      ensures old(err) != Ok ==> res == old(err) && unchanged(this, v, v.win)
      ensures old(err) == Ok && !canRead ==> res == Denied && unchanged(this, v, v.win)
      ensures old(err) == Ok && canRead && !v.faulty ==>
                res == err == Ok && chain == old(chain) && AllocOf(v) == old(AllocOf(v))
      ensures old(err) == Ok && canRead && !v.faulty ==>
                && br == (if old(fptr) + count <= old(objsize) then count else old(objsize) - old(fptr))
                && fptr == old(fptr) + br && objsize == old(objsize)
    {
      hide *;
      FileMeans();
      br := 0;
      if err != Ok { return err, 0; }
      if !canRead { return Denied, 0; }
      var f := Cursor(sclust, objsize, fptr, clust);
      br := if count > objsize - fptr then objsize - fptr else count;
      res, f := ReadOn(v, f, br, chain);
      Set(f, chain);
      err := res;
      FileIs();
    }

    /** f_write, apart from the data */
    method Write(count: nat) returns (res: Result, bw: nat)
      requires Valid()
      modifies this, v, v.win
      ensures Valid() && (old(v.faulty) ==> v.faulty)
      ensures old(err) != Ok ==> res == old(err) && unchanged(this, v, v.win)
      ensures old(err) == Ok && !canWrite ==> res == Denied && unchanged(this, v, v.win)
      ensures old(err) == Ok && canWrite && !v.faulty && !HasOne(old(v.Fat())) ==> res == Ok
      ensures old(err) == Ok && canWrite && !v.faulty ==>
                res == err && Stretched(v.g.fatType, old(AllocOf(v)), AllocOf(v), old(chain), chain, sclust)
      ensures old(err) == Ok && canWrite && !v.faulty && old(Sane()) ==> Sane()
      ensures old(err) == Ok && canWrite && !v.faulty && res == Ok && old(Exact()) ==> Exact()
      ensures fptr == old(fptr) + bw && objsize == Larger(old(objsize), fptr) && bw <= WriteLimit(old(fptr), count)
      ensures old(err) == Ok && canWrite && !v.faulty && res == Ok && bw < WriteLimit(old(fptr), count) ==>
                fptr == Start(ClusterBytes(v.g), |chain|) && (v.freeClst == 0 || NoFree(v.Fat()))
      ensures bw <= count && (old(fptr) <= 0xFFFF_FFFF ==> fptr <= 0xFFFF_FFFF)
      ensures old(err) == Ok && canWrite && !v.faulty && res == Ok && bw < count ==>
                (v.freeClst == 0 || NoFree(v.Fat())) || (old(fptr) + count > 0xFFFF_FFFF && fptr >= 0xFFFF_FFFF)
    {
      LimitMeans(fptr, count);
      hide *;
      FileMeans();
      LargerTwice(objsize, fptr, fptr);
      bw := 0;
      if err != Ok { return err, 0; }
      if !canWrite { return Denied, 0; }
      var f := Cursor(sclust, objsize, fptr, clust);
      ghost var cs, a0, was := chain, AllocOf(v), f;
      if !v.faulty { FileStarts(); }
      res, f, cs := WriteOn(v, f, WriteLimit(fptr, count), chain);
      bw := f.fptr - fptr;
      LargerMeans(objsize, f.fptr);
      if !v.faulty { AfterGrowth(v, a0, chain, was, cs, f); }
      Set(f, cs);
      err := res;
      if !v.faulty { FileNow(); }
      FileIs();
    }

    /** f_truncate, apart from the data */
    method Truncate() returns (res: Result)
      requires Valid()
      modifies this, v, v.win
      ensures Valid() && (old(v.faulty) ==> v.faulty)
      ensures old(err) != Ok ==> res == old(err) && unchanged(this, v, v.win)
      ensures old(err) == Ok && !canWrite ==> res == Denied && unchanged(this, v, v.win)
      ensures fptr == old(fptr)
      ensures old(err) == Ok && canWrite && old(fptr) == old(objsize) ==> res == Ok && unchanged(this, v, v.win)
      ensures old(err) == Ok && canWrite && old(fptr) < old(objsize) ==> res == err && objsize == fptr
      ensures old(err) == Ok && canWrite && old(fptr) < old(objsize) && !v.faulty ==>
                && res == Ok && |chain| == Clusters(ClusterBytes(v.g), fptr) && chain <= old(chain)
                && CutTo(old(v.Fat()), v.Fat(), old(chain), |chain|)
      ensures old(err) == Ok && canWrite && !v.faulty && old(Sane()) ==>
                Sane() && KeptRest(v.g.fatType, old(AllocOf(v)), AllocOf(v))
      ensures old(err) == Ok && canWrite && !v.faulty ==>
                (|chain| == Clusters(ClusterBytes(v.g), fptr) <==> old(fptr) < old(objsize) || old(Exact()))
    {
      hide *;
      FileMeans();
      if err != Ok { return err; }
      if !canWrite { return Denied; }
      if !v.faulty { FileStarts(); }
      ghost var a0 := AllocOf(v);
      if fptr >= objsize {
        KeptSame(v.g.fatType, a0);
        KeptIsRest(v.g.fatType, a0, a0);
        return Ok;
      }
      var f := Cursor(sclust, objsize, fptr, clust);
      ghost var cs, was := chain, f;
      AllocIs(v);
      res, f, cs := TruncateTo(v, f, chain);
      AllocIs(v);
      if !v.faulty { AfterCut(v, a0, chain, was, cs, f); }
      Set(f, cs);
      err := res;
      if !v.faulty { FileNow(); }
      FileIs();
    }
  }

  /** Opening a file of size 0 that has clusters, and truncating it at once, leaves it all of them. */
  method TruncateUnneeded(v: Volume, first: nat, ghost cs: seq<nat>) returns (f: File, res: Result)
    requires v.Valid() && GeometryOk(v.g) && !v.faulty && IsChain(v.Fat(), cs, first) && cs != []
    modifies v, v.win
    ensures res == Ok && unchanged(v, v.win) && f.Valid() && f.v == v
    ensures f.chain == cs && f.objsize == 0 && |f.chain| != Clusters(ClusterBytes(v.g), 0)
  {
    f := new File(v, true, true, false, first, 0, cs);
    res := f.Truncate();
    ClustersIs(ClusterBytes(v.g), 0);
  }

  // ---------------------------------------------------------------- two files open at once

  /** Two files of one volume, without an error so far, that share no cluster. */
  ghost predicate Apart(f: File, o: File)
    reads f, o, f.v, f.v.win
  {
    f != o && f.v == o.v && f.err == o.err == Ok && f.v.Valid() && (!f.v.faulty ==> Disjoint(o.chain, f.chain))
  }

  function CursorOf(o: File): Cursor
    reads o
  {
    Cursor(o.sclust, o.objsize, o.fptr, o.clust)
  }

  lemma OtherStarts(f: File, o: File)
    requires f.Valid() && o.Valid() && Apart(f, o)
    ensures f != o && f.v == o.v && f.err == o.err == Ok && f.v.Valid() && GeometryOk(f.v.g) && o.fptr <= o.objsize
    ensures CursorOf(o).sclust == o.sclust && f.fptr <= f.objsize
    ensures !f.v.faulty ==>
              Sound(AllocOf(f.v).t, ClusterBytes(f.v.g), o.chain, CursorOf(o)) && Disjoint(o.chain, f.chain)
    ensures f.Sane() <==> FatRuns.Good(f.v.g.fatType, AllocOf(f.v)) && Owned(AllocOf(f.v).t, f.sclust)
    ensures o.Sane() <==> FatRuns.Good(f.v.g.fatType, AllocOf(f.v)) && Owned(AllocOf(f.v).t, o.sclust)
  {
  }

  lemma OtherStill(f: File, o: File)
    requires f != o && f.v == o.v && f.err == o.err == Ok && f.v.Valid() && GeometryOk(f.v.g) && o.fptr <= o.objsize
    requires !f.v.faulty ==>
               Sound(AllocOf(f.v).t, ClusterBytes(f.v.g), o.chain, CursorOf(o)) && Disjoint(o.chain, f.chain)
    ensures o.Valid() && Apart(f, o)
    ensures f.Sane() <==> FatRuns.Good(f.v.g.fatType, AllocOf(f.v)) && Owned(AllocOf(f.v).t, f.sclust)
    ensures o.Sane() <==> FatRuns.Good(f.v.g.fatType, AllocOf(f.v)) && Owned(AllocOf(f.v).t, o.sclust)
  {
  }

  /** f_lseek of f leaves another open file o valid and apart, and both sane. */
  method SeekBeside(f: File, o: File, target: nat) returns (res: Result)
    requires f.Valid() && o.Valid() && Apart(f, o)
    modifies f, f.v, f.v.win
    ensures f.Valid() && (f.err == Ok ==> o.Valid() && Apart(f, o))
    ensures f.err == Ok && !f.v.faulty && old(f.Sane()) && old(o.Sane()) ==> o.v.Valid() && f.Sane() && o.Sane()
  {
    hide *;
    OtherStarts(f, o);
    ghost var a0, cs0, c, ft, b := AllocOf(f.v), f.chain, CursorOf(o), f.v.g.fatType, ClusterBytes(f.v.g);
    res := f.Seek(target);
    f.FileMeans();
    if f.err == Ok {
      if !f.v.faulty { BesideGrown(ft, a0, AllocOf(f.v), b, cs0, f.chain, f.sclust, o.chain, c); }
      OtherStill(f, o);
    }
  }

  /** So does f_write. */
  method WriteBeside(f: File, o: File, count: nat) returns (res: Result, bw: nat)
    requires f.Valid() && o.Valid() && Apart(f, o)
    modifies f, f.v, f.v.win
    ensures f.Valid() && (f.err == Ok ==> o.Valid() && Apart(f, o))
    ensures f.err == Ok && !f.v.faulty && old(f.Sane()) && old(o.Sane()) ==> o.v.Valid() && f.Sane() && o.Sane()
  {
    hide *;
    OtherStarts(f, o);
    ghost var a0, cs0, c, ft, b := AllocOf(f.v), f.chain, CursorOf(o), f.v.g.fatType, ClusterBytes(f.v.g);
    res, bw := f.Write(count);
    f.FileMeans();
    if f.err == Ok {
      if f.canWrite && !f.v.faulty { BesideGrown(ft, a0, AllocOf(f.v), b, cs0, f.chain, f.sclust, o.chain, c); }
      OtherStill(f, o);
    }
  }

  /** And f_truncate. */
  method TruncateBeside(f: File, o: File) returns (res: Result)
    requires f.Valid() && o.Valid() && Apart(f, o)
    modifies f, f.v, f.v.win
    ensures f.Valid() && (f.err == Ok ==> o.Valid() && Apart(f, o))
    ensures f.err == Ok && !f.v.faulty && old(f.Sane()) && old(o.Sane()) ==> o.v.Valid() && f.Sane() && o.Sane()
  {
    hide *;
    OtherStarts(f, o);
    ghost var a0, cs0, c, ft, b := AllocOf(f.v), f.chain, CursorOf(o), f.v.g.fatType, ClusterBytes(f.v.g);
    ghost var short := f.fptr < f.objsize;
    AllocIs(f.v);
    res := f.Truncate();
    f.FileMeans();
    AllocIs(f.v);
    if f.err == Ok {
      if f.canWrite && short && !f.v.faulty {
        assert cs0[..|f.chain|] == f.chain;
        BesideCut(ft, a0, AllocOf(f.v), b, cs0, |f.chain|, o.chain, c);
      }
      OtherStill(f, o);
    }
  }
}
