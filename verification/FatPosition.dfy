/** File positions in bytes and clusters, and how the chain of an open file may change. */
module FatPosition {
  import opened FatEntry
  import opened FatDisk
  import opened FatChain
  import opened FatVolume
  import opened FatAlloc

  type Positive = n: nat | 0 < n witness 1

  /** The bytes of a cluster. */
  function ClusterBytes(g: Geometry): Positive
    requires GeometryOk(g)
  {
    g.csize * SECTOR
  }

  /** The byte at which place k of a chain begins. */
  function Start(b: nat, k: nat): nat {
    k * b
  }

  /** The place in the chain of the cluster that holds the byte before position p. */
  function Index(b: Positive, p: nat): nat
    requires 0 < p
  {
    (p - 1) / b
  }

  lemma StartNext(b: nat, k: nat)
    ensures Start(b, 0) == 0 && Start(b, k + 1) == Start(b, k) + b
  {
  }

  lemma StartOrder(b: nat, k: nat, l: nat)
    ensures k <= l ==> Start(b, k) <= Start(b, l)
    ensures k < l ==> Start(b, k) + b <= Start(b, l)
  {
    if k < l {
      var m := l - k;
      assert l * b == k * b + m * b;
      assert m * b >= b by { assert m * b == b + (m - 1) * b; }
    }
  }

  lemma IndexBounds(b: nat, p: nat)
    requires 0 < b && 0 < p
    ensures Start(b, Index(b, p)) < p <= Start(b, Index(b, p)) + b
  {
    var q := (p - 1) / b;
    assert q * b <= p - 1 < q * b + b;
  }

  lemma IndexIs(b: nat, p: nat, k: nat)
    requires 0 < b && Start(b, k) < p <= Start(b, k) + b
    ensures Index(b, p) == k
  {
    IndexBounds(b, p);
    var q := Index(b, p);
    StartOrder(b, q, k);
    StartOrder(b, k, q);
    hide Start, Index;
  }

  // ---------------------------------------------------------------- an open file

  /** The first cluster, size, position and current cluster of a file. */
  datatype Cursor = Cursor(sclust: nat, objsize: nat, fptr: nat, clust: nat)

  /** cs is the chain that begins at sclust. */
  ghost predicate IsChain(t: seq<nat>, cs: seq<nat>, sclust: nat) {
    if sclust == 0 then cs == [] else Chain(t, cs) && cs[0] == sclust
  }

  /** Whenever the position is not zero, the cached cluster is the one that holds the byte before it. */
  predicate At(b: Positive, cs: seq<nat>, fptr: nat, clust: nat) {
    fptr > 0 ==> Index(b, fptr) < |cs| && clust == cs[Index(b, fptr)]
  }

  /** The file's chain, its size within the chain, its position within the size, and the cache. */
  ghost predicate Sound(t: seq<nat>, b: Positive, cs: seq<nat>, f: Cursor) {
    IsChain(t, cs, f.sclust) && f.fptr <= f.objsize <= Start(b, |cs|) && At(b, cs, f.fptr, f.clust)
  }

  ghost predicate Disjoint(ds: seq<nat>, cs: seq<nat>) {
    forall i, j | 0 <= i < |ds| && 0 <= j < |cs| :: ds[i] != cs[j]
  }

  /** From table t to t' the file's chain has grown from cs to cs', over free clusters only: every
      chain apart from it is still one, still apart from it. */
  ghost predicate Grown(t: seq<nat>, t': seq<nat>, cs: seq<nat>, cs': seq<nat>) {
    && |t'| == |t| && cs <= cs'
    && forall ds | Chain(t, ds) && Disjoint(ds, cs) :: Chain(t', ds) && Disjoint(ds, cs')
  }

  lemma NotGrown(t: seq<nat>, cs: seq<nat>)
    ensures Grown(t, t, cs, cs)
  {
  }

  lemma GrownTwice(t: seq<nat>, t1: seq<nat>, t2: seq<nat>, cs: seq<nat>, cs1: seq<nat>, cs2: seq<nat>)
    requires Grown(t, t1, cs, cs1) && Grown(t1, t2, cs1, cs2)
    ensures Grown(t, t2, cs, cs2)
  {
    hide Chain, Disjoint;
    assert cs <= cs1 <= cs2;
  }

  /** Whether a chain can grow: create_chain at its last cluster, or for an empty chain, makes it
      one free cluster longer. */
  lemma GrowByOne(t: seq<nat>, cs: seq<nat>, ncl: nat, mark: nat)
    requires cs == [] || Chain(t, cs)
    requires Cluster(t, ncl) && t[ncl] == 0 && mark >= |t|
    ensures cs != [] ==> Cluster(t, cs[|cs| - 1])
    ensures var last := if cs == [] then 0 else cs[|cs| - 1]; var t' := FatChain.Linked(t, last, ncl, mark);
            Chain(t', cs + [ncl]) && Grown(t, t', cs, cs + [ncl])
  {
    var last := if cs == [] then 0 else cs[|cs| - 1];
    FreeNotIn(t, cs, ncl);
    var t' := FatChain.Linked(t, last, ncl, mark);
    if cs == [] { assert Link(t', [ncl], 0); assert cs + [ncl] == [ncl]; } else { AppendChain(t, cs, ncl, mark); }
    hide Chain;
    forall ds | Chain(t, ds) && Disjoint(ds, cs) ensures Chain(t', ds) && Disjoint(ds, cs + [ncl]) {
      FreeNotIn(t, ds, ncl);
      LastNotIn(ds, cs);
      ChainUntouched(t, t', ds);
    }
  }

  /** Of a chain that has grown from cs0 to cs, position pos needs the last cluster. */
  predicate Tight(b: nat, cs0: seq<nat>, cs: seq<nat>, pos: nat) {
    |cs| == |cs0| || (0 < |cs| && Start(b, |cs| - 1) < pos)
  }

  lemma LastNotIn(ds: seq<nat>, cs: seq<nat>)
    requires Disjoint(ds, cs)
    ensures cs != [] ==> cs[|cs| - 1] !in ds
  {
  }

  lemma FreeNotIn(t: seq<nat>, cs: seq<nat>, c: nat)
    requires (cs == [] || Chain(t, cs)) && Cluster(t, c) && t[c] == 0
    ensures c !in cs
  {
    if c in cs {
      var k :| 0 <= k < |cs| && cs[k] == c;
      ChainInUse(t, cs, k);
    }
  }

  // ---------------------------------------------------------------- sectors and clusters

  /** The place in the chain of the cluster that holds the byte at position p. */
  function Place(b: Positive, p: nat): nat {
    p / b
  }

  /** The sector of the cluster that position p is in. */
  function SectorInCluster(csize: Positive, p: nat): (s: nat)
    ensures s < csize
  {
    p / SECTOR % csize
  }

  function OnSector(p: nat): bool {
    p % SECTOR == 0
  }

  function OnCluster(csize: Positive, p: nat): bool {
    OnSector(p) && SectorInCluster(csize, p) == 0
  }

  /** How many bytes one round of f_read or f_write transfers: whole sectors up to the end of the
      cluster, or else up to the end of the sector. */
  function Chunk(csize: Positive, p: nat, left: nat): nat {
    var csect, cc := SectorInCluster(csize, p), left / SECTOR;
    if OnSector(p) && cc > 0 then SECTOR * (if csect + cc > csize then csize - csect else cc)
    else if SECTOR - p % SECTOR > left then left else SECTOR - p % SECTOR
  }

  lemma PlaceBounds(b: nat, p: nat)
    requires 0 < b
    ensures Start(b, Place(b, p)) <= p < Start(b, Place(b, p)) + b
  {
    var q := p / b;
    assert q * b <= p < q * b + b;
  }

  lemma PlaceIs(b: nat, p: nat, k: nat)
    requires 0 < b && Start(b, k) <= p < Start(b, k) + b
    ensures Place(b, p) == k
  {
    PlaceBounds(b, p);
    var q := Place(b, p);
    StartOrder(b, q, k);
    StartOrder(b, k, q);
    hide Start, Place;
  }

  /** Position p from its cluster, its sector in the cluster and its byte in the sector. */
  lemma PlaceParts(csize: nat, p: nat)
    requires 0 < csize
    ensures p == Start(csize * SECTOR, Place(csize * SECTOR, p)) + SectorInCluster(csize, p) * SECTOR + p % SECTOR
  {
    var q := p / SECTOR;
    var k, c := q / csize, q % csize;
    assert q == k * csize + c;
    assert k * (csize * SECTOR) == (k * csize) * SECTOR;
    assert p == Start(csize * SECTOR, k) + c * SECTOR + p % SECTOR;
    PlaceIs(csize * SECTOR, p, k);
  }

  /** One round makes progress and stays in the cluster of its position. */
  lemma ChunkFits(csize: nat, p: nat, left: nat)
    requires 0 < csize && 0 < left
    ensures var b := csize * SECTOR; var n := Chunk(csize, p, left);
            0 < n <= left && Start(b, Place(b, p)) < p + n <= Start(b, Place(b, p)) + b
    ensures OnCluster(csize, p) <==> p == Start(csize * SECTOR, Place(csize * SECTOR, p))
  {
    PlaceParts(csize, p);
    var r, c, l := p % SECTOR, SectorInCluster(csize, p), left / SECTOR;
    assert left == l * SECTOR + left % SECTOR;
    hide Start, Place, SectorInCluster;
  }

  /** A round is as long as it can be: from the beginning of a sector it transfers all whole sectors that
      are asked for, up to the end of the cluster; otherwise it goes on to the end of the sector. */
  lemma ChunkIsLongest(csize: nat, p: nat, left: nat)
    requires 0 < csize && 0 < left
    ensures var n, b := Chunk(csize, p, left), csize * SECTOR;
            && (p % SECTOR == 0 && left >= SECTOR ==>
                  n == left / SECTOR * SECTOR || p + n == Start(b, Place(b, p) + 1))
            && (p % SECTOR != 0 || left < SECTOR ==> n == left || n == SECTOR - p % SECTOR)
  {
    ChunkFits(csize, p, left);
    PlaceParts(csize, p);
    StartNext(csize * SECTOR, Place(csize * SECTOR, p));
    hide Start, Place, SectorInCluster;
  }

  /** The cached cluster before a round: place Place(p) - 1 at a cluster boundary, else Place(p). */
  lemma CachedPlace(b: nat, p: nat)
    requires 0 < b && 0 < p
    ensures p == Start(b, Place(b, p)) ==> Place(b, p) > 0 && Index(b, p) == Place(b, p) - 1
    ensures p != Start(b, Place(b, p)) ==> Index(b, p) == Place(b, p)
  {
    PlaceBounds(b, p);
    var k := Place(b, p);
    StartNext(b, k);
    if p == Start(b, k) {
      assert k > 0;
      StartNext(b, k - 1);
      IndexIs(b, p, k - 1);
    } else {
      IndexIs(b, p, k);
    }
  }

  /** clst2sect gives every cluster sectors of its own, inside the data area. */
  lemma ClustersApart(g: Geometry, c: nat, d: nat)
    requires GeometryOk(g) && 2 <= c < d < g.nFatent
    ensures g.database <= ClusterSector(g, c) && ClusterSector(g, c) + g.csize <= ClusterSector(g, d)
  {
    StartOrder(g.csize, c - 2, d - 2);
  }

  /** Sector s belongs to cluster c. */
  predicate InCluster(g: Geometry, c: nat, s: nat) {
    2 <= c < g.nFatent && ClusterSector(g, c) <= s < ClusterSector(g, c) + g.csize
  }

  lemma OneCluster(g: Geometry, c: nat, d: nat, s: nat)
    requires GeometryOk(g) && InCluster(g, c, s) && InCluster(g, d, s)
    ensures c == d
  {
    if c < d { ClustersApart(g, c, d); } else if d < c { ClustersApart(g, d, c); }
    hide ClusterSector;
  }

  lemma ClusterOf(g: Geometry, s: nat) returns (c: nat)
    requires GeometryOk(g) && g.database <= s < g.database + Start(g.csize, g.nFatent - 2)
    ensures InCluster(g, c, s)
  {
    var q := Place(g.csize, s - g.database);
    PlaceBounds(g.csize, s - g.database);
    if q >= g.nFatent - 2 { StartOrder(g.csize, g.nFatent - 2, q); }
    c := q + 2;
    assert ClusterSector(g, c) == g.database + Start(g.csize, q);
    hide Place;
  }

  /** The data area begins with cluster 2, and every sector up to the end of the last cluster belongs to
      exactly one. */
  lemma ClustersTile(g: Geometry, s: nat)
    requires GeometryOk(g) && g.database <= s < g.database + g.csize * (g.nFatent - 2)
    ensures ClusterSector(g, 2) == g.database
    ensures exists c :: InCluster(g, c, s) && forall d | InCluster(g, d, s) :: d == c
  {
    var c := ClusterOf(g, s);
    forall d | InCluster(g, d, s) ensures d == c {
      OneCluster(g, c, d, s);
    }
    hide InCluster;
  }

  /** clst2sect answers 0, which is no sector of the data area, exactly for numbers of no cluster. */
  lemma ClusterSectorZero(g: Geometry, c: nat)
    requires GeometryOk(g)
    ensures ClusterSector(g, c) == 0 <==> !(2 <= c < g.nFatent)
  {
    if 2 <= c < g.nFatent { StartOrder(g.csize, 0, c - 2); }
  }
}
