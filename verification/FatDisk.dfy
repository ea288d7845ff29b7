/** A FAT volume as sectors, and the file allocation table that its sectors hold. */
module FatDisk {
  import opened FatEntry

  const SECTOR: nat := 512
  /** Sector numbers have 32 bits; the last one marks an invalid window. */
  const INVALID_SECTOR: nat := 0xFFFF_FFFF

  /** The sectors of a drive. */
  type Disk = seq<seq<Byte>>

  /** What mount_volume finds out: FAT type, copies, first sector and sectors of a FAT, entries,
      sectors of a cluster and first sector of the data. */
  datatype Geometry = Geometry(fatType: FatType, nFats: nat, fatbase: nat, fsize: nat,
                               nFatent: nat, csize: nat, database: nat)

  /** The first sector behind all FATs. */
  function FatEnd(g: Geometry): nat {
    if g.nFats == 2 then g.fatbase + 2 * g.fsize else g.fatbase + g.fsize
  }

  /** What mount_volume checks. */
  predicate GeometryOk(g: Geometry) {
    && 1 <= g.nFats <= 2 && 3 <= g.nFatent <= Modulus(g.fatType) - 9
    && Offset(g.fatType, g.nFatent - 1) + Width(g.fatType) <= SECTOR * g.fsize
    && 0 < g.fatbase && FatEnd(g) <= g.database < INVALID_SECTOR
    && g.csize in {1, 2, 4, 8, 16, 32, 64, 128}
  }

  /** The FAT type that mount_volume derives from the number of clusters. */
  function TypeFor(nclst: nat): FatType {
    if nclst <= 0xFF5 then Fat12 else if nclst <= 0xFFF5 then Fat16 else Fat32
  }

  /** The bytes that mount_volume asks a FAT of n entries to have. */
  function NeededBytes(t: FatType, n: nat): nat {
    match t
    case Fat12 => n * 3 / 2 + n % 2
    case Fat16 => n * 2
    case Fat32 => n * 4
  }

  /** The checks of mount_volume leave room for every entry, and for the end mark and the other
      reserved values above the cluster numbers. */
  lemma MountedTableFits(nclst: nat, fsize: nat)
    requires 1 <= nclst <= 0x0FFF_FFF5
    requires (NeededBytes(TypeFor(nclst), nclst + 2) + SECTOR - 1) / SECTOR <= fsize
    ensures var t, n := TypeFor(nclst), nclst + 2;
            3 <= n <= Modulus(t) - 9 && Offset(t, n - 1) + Width(t) <= SECTOR * fsize
  {
    var t, n := TypeFor(nclst), nclst + 2;
    var need := NeededBytes(t, n);
    assert need <= SECTOR * ((need + SECTOR - 1) / SECTOR);
    if t == Fat12 { assert (n - 1) + (n - 1) / 2 + 2 <= n * 3 / 2 + n % 2; }
  }

  /** The FAT type is the smallest whose entries leave nine values above the cluster numbers, and the
      table must have as many bytes as its n entries have bits, rounded up. */
  lemma TypeAndBytes(nclst: nat, n: nat)
    requires nclst <= 0x0FFF_FFF5
    ensures TypeFor(nclst) == Fat12 <==> nclst + 2 <= 0x1000 - 9
    ensures TypeFor(nclst) == Fat16 <==> 0x1000 - 9 < nclst + 2 <= 0x1_0000 - 9
    ensures 8 * NeededBytes(Fat12, n) - 7 <= 12 * n <= 8 * NeededBytes(Fat12, n)
    ensures 8 * NeededBytes(Fat16, n) == 16 * n && 8 * NeededBytes(Fat32, n) == 32 * n
  {
    var q, r := n / 2, n % 2;
    assert n == 2 * q + r && n * 3 == 6 * q + 3 * r && n * 3 / 2 == 3 * q + r;
  }

  predicate InFat(g: Geometry, s: nat) {
    g.fatbase <= s < g.fatbase + g.fsize
  }

  predicate InMirror(g: Geometry, s: nat) {
    g.nFats == 2 && g.fatbase + g.fsize <= s < g.fatbase + 2 * g.fsize
  }

  /** Difference of two sector numbers, in 32 bits. */
  function Distance(s: nat, base: nat): nat {
    (s - base) % 0x1_0000_0000
  }

  lemma FirstFatTest(g: Geometry, s: nat)
    requires s < INVALID_SECTOR && g.fatbase + g.fsize < 0x1_0000_0000
    ensures Distance(s, g.fatbase) < g.fsize <==> InFat(g, s)
  {
  }

  ghost predicate DiskOk(g: Geometry, d: Disk) {
    && GeometryOk(g)
    && |d| <= INVALID_SECTOR && (forall s | 0 <= s < |d| :: |d[s]| == SECTOR)
    && FatEnd(g) <= |d|
  }

  /** The same contents everywhere outside the second FAT. */
  ghost predicate SameContents(g: Geometry, d: Disk, d': Disk) {
    |d'| == |d| && forall s: nat | s < |d| && !InMirror(g, s) :: d'[s] == d[s]
  }

  lemma SameTwice(g: Geometry, d: Disk, d1: Disk, d2: Disk)
    requires SameContents(g, d, d1) && SameContents(g, d1, d2)
    ensures SameContents(g, d, d2)
  {
  }

  /** The same contents everywhere outside the FATs. */
  ghost predicate OnlyFat(g: Geometry, d: Disk, d': Disk) {
    |d'| == |d| && forall s: nat | s < |d| && !InFat(g, s) && !InMirror(g, s) :: d'[s] == d[s]
  }

  /** The second FAT equals the first. */
  ghost predicate Mirrored(g: Geometry, d: Disk)
    requires DiskOk(g, d)
  {
    g.nFats == 2 ==> forall s: nat | InFat(g, s) :: d[s + g.fsize] == d[s]
  }

  lemma SameAsItself(g: Geometry, d: Disk)
    ensures SameContents(g, d, d)
  {
  }

  lemma MirrorSector(g: Geometry, d: Disk, s: nat)
    requires DiskOk(g, d) && InFat(g, s) && g.nFats == 2
    ensures s + g.fsize < |d| && InMirror(g, s + g.fsize)
  {
  }

  /** A failed write may have left anything in its sector. */
  ghost predicate Overwritten(d: Disk, d': Disk, s: nat) {
    s < |d| && exists v: seq<Byte> :: |v| == SECTOR && d' == d[s := v]
  }

  /** Writing a sector outside the second FAT. */
  lemma WrittenOk(g: Geometry, d: Disk, s: nat, w: seq<Byte>)
    requires DiskOk(g, d) && s < |d| && !InMirror(g, s) && |w| == SECTOR
    ensures DiskOk(g, d[s := w]) && SameContents(g, d[s := w], d[s := w])
    ensures (!InFat(g, s) || g.nFats == 1) && Mirrored(g, d) ==> Mirrored(g, d[s := w])
  {
  }

  /** A failed write of a sector, which the window still overlays. */
  lemma WriteLost(g: Geometry, d: Disk, d': Disk, s: nat, w: seq<Byte>)
    requires DiskOk(g, d) && s < |d| && |w| == SECTOR && Overwritten(d, d', s)
    ensures DiskOk(g, d') && s < |d'| && SameContents(g, d[s := w], d'[s := w])
  {
    assert d'[s := w] == d[s := w];
  }

  /** Writing a sector of the first FAT and then the same to the second. */
  lemma MirrorWritten(g: Geometry, d: Disk, s: nat, w: seq<Byte>)
    requires DiskOk(g, d) && InFat(g, s) && |w| == SECTOR && g.nFats == 2
    ensures var d' := d[s := w][s + g.fsize := w];
            DiskOk(g, d') && SameContents(g, d[s := w], d') && d'[s] == w && (Mirrored(g, d) ==> Mirrored(g, d'))
  {
    MirrorWrite(g, d[s := w], s + g.fsize, w);
    if Mirrored(g, d) { MirrorsAgree(g, d, s, w); }
    hide DiskOk, SameContents, Mirrored;
  }

  lemma MirrorWrite(g: Geometry, d: Disk, s: nat, v: seq<Byte>)
    requires DiskOk(g, d) && InMirror(g, s) && |v| == SECTOR && s < |d|
    ensures DiskOk(g, d[s := v]) && SameContents(g, d, d[s := v])
  {
  }

  /** A failed write to the second FAT. */
  lemma MirrorLost(g: Geometry, d: Disk, d': Disk, s: nat, t: nat)
    requires DiskOk(g, d) && InMirror(g, s) && InFat(g, t) && Overwritten(d, d', s)
    ensures DiskOk(g, d') && SameContents(g, d, d') && t < |d'| && d'[t] == d[t]
  {
    var v :| |v| == SECTOR && d' == d[s := v];
    MirrorWrite(g, d, s, v);
  }

  lemma MirrorsAgree(g: Geometry, d: Disk, s: nat, w: seq<Byte>)
    requires DiskOk(g, d) && InFat(g, s) && |w| == SECTOR && g.nFats == 2 && Mirrored(g, d)
    requires DiskOk(g, d[s := w][s + g.fsize := w])
    ensures Mirrored(g, d[s := w][s + g.fsize := w])
  {
    var d' := d[s := w][s + g.fsize := w];
    forall r: nat | InFat(g, r) ensures d'[r + g.fsize] == d'[r] {
      assert d[r + g.fsize] == d[r];
      assert r + g.fsize == s + g.fsize <==> r == s;
    }
  }

  /** The bytes of the first FAT. */
  ghost function FatBytes(g: Geometry, d: Disk): (b: seq<Byte>)
    requires DiskOk(g, d)
    ensures |b| == SECTOR * g.fsize
    ensures forall j | 0 <= j < |b| :: b[j] == d[g.fatbase + Sec(j)][Ofs(j)]
  {
    seq(SECTOR * g.fsize,
        j requires 0 <= j < SECTOR * g.fsize => assert InFat(g, g.fatbase + Sec(j)); d[g.fatbase + Sec(j)][Ofs(j)])
  }

  /** They are the sectors of the first FAT one after the other. */
  lemma FatBytesInOrder(g: Geometry, d: Disk, k: nat)
    requires DiskOk(g, d) && k < g.fsize
    ensures g.fatbase + k < |d| && 512 * k + 512 <= |FatBytes(g, d)|
    ensures FatBytes(g, d)[512 * k..512 * k + 512] == d[g.fatbase + k]
  {
    var part := FatBytes(g, d)[512 * k..512 * k + 512];
    forall o | 0 <= o < |part| ensures part[o] == d[g.fatbase + k][o] {
      assert Sec(512 * k + o) == k && Ofs(512 * k + o) == o;
    }
  }

  lemma SameFatBytes(g: Geometry, d: Disk, d': Disk)
    requires DiskOk(g, d) && DiskOk(g, d') && SameContents(g, d, d')
    ensures FatBytes(g, d') == FatBytes(g, d)
  {
    var b, b' := FatBytes(g, d), FatBytes(g, d');
    forall j: nat | j < |b| ensures b'[j] == b[j] {
      var s := g.fatbase + Sec(j);
      assert InFat(g, s) && !InMirror(g, s) && s < |d|;
    }
  }

  function SetByte(s: seq<Byte>, o: nat, x: Byte): seq<Byte>
    requires o < |s|
  {
    s[o := x]
  }

  /** Where byte j of the table is stored: its sector in the FAT and its place there. */
  function Sec(j: nat): nat {
    j / SECTOR
  }

  function Ofs(j: nat): (o: nat)
    ensures o < SECTOR
  {
    j % SECTOR
  }

  /** Storing one byte of the first FAT. */
  lemma FatByteStored(g: Geometry, d: Disk, d': Disk, j: nat, x: Byte)
    requires DiskOk(g, d) && DiskOk(g, d') && j < SECTOR * g.fsize
    requires InFat(g, g.fatbase + Sec(j))
    requires d' == d[g.fatbase + Sec(j) := SetByte(d[g.fatbase + Sec(j)], Ofs(j), x)]
    ensures FatBytes(g, d') == FatBytes(g, d)[j := x]
  {
    var b, b' := FatBytes(g, d), FatBytes(g, d');
    forall i: nat | i < |b| ensures b'[i] == b[j := x][i] {
      assert i == j || Sec(i) != Sec(j) || Ofs(i) != Ofs(j);
      assert InFat(g, g.fatbase + Sec(i));
    }
  }

  lemma EntryFits(g: Geometry, c: nat)
    requires GeometryOk(g) && c < g.nFatent
    ensures Offset(g.fatType, c) + Width(g.fatType) <= SECTOR * g.fsize
  {
  }

  /** The table of entries that bytes hold. */
  ghost function TableOf(g: Geometry, b: seq<Byte>): (t: seq<nat>)
    requires GeometryOk(g) && |b| == SECTOR * g.fsize
    ensures |t| == g.nFatent
    ensures forall c | 0 <= c < |t| :: Fits(g.fatType, b, c) && t[c] == Entry(g.fatType, b, c) < Modulus(g.fatType)
  {
    seq(g.nFatent, c requires 0 <= c < g.nFatent => EntryFits(g, c); Entry(g.fatType, b, c))
  }

  /** The file allocation table. */
  ghost function Table(g: Geometry, d: Disk): (t: seq<nat>)
    requires DiskOk(g, d)
    ensures |t| == g.nFatent && forall c | 0 <= c < |t| :: t[c] < Modulus(g.fatType)
  {
    TableOf(g, FatBytes(g, d))
  }

  /** put_fat changes one entry of the table. */
  lemma TablePacked(g: Geometry, b: seq<Byte>, c: nat, val: nat)
    requires GeometryOk(g) && |b| == SECTOR * g.fsize && c < g.nFatent
    ensures Fits(g.fatType, b, c)
    ensures TableOf(g, Packed(g.fatType, b, c, val)) == TableOf(g, b)[c := val % Modulus(g.fatType)]
  {
    EntryFits(g, c);
    var t, t' := TableOf(g, b), TableOf(g, Packed(g.fatType, b, c, val));
    forall d: nat | d < g.nFatent ensures t'[d] == t[c := val % Modulus(g.fatType)][d] {
      EntryFits(g, d);
      if d == c { ReadsBack(g.fatType, b, c, val); } else { OthersKept(g.fatType, b, c, val, d); }
      hide Packed, Entry;
    }
  }

  /** The same reserved bits above every entry of a FAT32 table. */
  ghost predicate SameTopBits(g: Geometry, b: seq<Byte>, b': seq<Byte>) {
    g.fatType == Fat32 ==> forall c: nat | Fits(Fat32, b, c) && Fits(Fat32, b', c) :: TopBits(b', c) == TopBits(b, c)
  }

  lemma TopBitsPacked(g: Geometry, b: seq<Byte>, c: nat, val: nat)
    requires Fits(g.fatType, b, c)
    ensures SameTopBits(g, b, Packed(g.fatType, b, c, val))
  {
    if g.fatType == Fat32 {
      forall d: nat | Fits(Fat32, b, d) ensures TopBits(Packed(Fat32, b, c, val), d) == TopBits(b, d) {
        TopBitsKept(b, c, val, d);
      }
    }
  }

  /** clst2sect; 0 means that there is no such cluster. */
  function ClusterSector(g: Geometry, c: nat): nat {
    if c < 2 || c >= g.nFatent then 0 else g.database + g.csize * (c - 2)
  }
}
