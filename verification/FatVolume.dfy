/** A mounted volume (FATFS in ff.c): the sector window and the accesses to the table through it. */
module FatVolume {
  import opened FatEntry
  import opened FatDisk

  datatype Result = Ok | DiskError | IntError | Denied

  const DISK_ERROR: nat := 0xFFFF_FFFF
  const END_MARK: nat := 0xFFFF_FFFF

  class Volume {
    const g: Geometry
    /** The device. */
    var disk: Disk
    /** The window, the sector it shows, and whether it has been changed since it was read. */
    const win: array<Byte>
    var winsect: nat
    var wflag: bool
    /** The number of free clusters, unknown if above nFatent - 2; the cluster allocated last; and
        whether these have changed since they were stored. */
    var freeClst: nat
    var lastClst: nat
    var fsiFlag: bool
    /** Whether a device access has ever failed. */
    ghost var faulty: bool

    /** The device overlaid with a changed window. */
    ghost function Logical(): Disk
      reads this, win
    {
      if wflag && winsect < |disk| then disk[winsect := win[..]] else disk
    }

    ghost predicate Valid()
      reads this, win
    {
      && DiskOk(g, disk) && win.Length == SECTOR
      && (wflag ==> winsect < |disk| && !InMirror(g, winsect))
      && (!wflag && winsect != INVALID_SECTOR ==> winsect < |disk| && win[..] == disk[winsect])
      && (!faulty ==> Mirrored(g, disk))
    }

    ghost function Fat(): (t: seq<nat>)
      requires Valid()
      reads this, win
      ensures |t| == g.nFatent && forall c | 0 <= c < |t| :: t[c] < Modulus(g.fatType)
    {
      LogicalOk();
      Table(g, Logical())
    }

    ghost function Bytes(): (b: seq<Byte>)
      requires Valid()
      reads this, win
    {
      LogicalOk();
      FatBytes(g, Logical())
    }

    lemma LogicalOk()
      requires Valid()
      ensures DiskOk(g, Logical())
    {
    }

    /** disk_read of one sector into the window. */
    method DiskRead(sect: nat) returns (ok: bool)
      requires win.Length == SECTOR && DiskOk(g, disk)
      modifies win, this`faulty
      ensures ok ==> sect < |disk| && win[..] == disk[sect] && faulty == old(faulty)
      ensures !ok ==> faulty
    {
      ok := *;
      if ok && sect < |disk| {
        forall i | 0 <= i < SECTOR { win[i] := disk[sect][i]; }
        assert win[..] == disk[sect];
      } else {
        ok, faulty := false, true;
      }
    }

    /** disk_write of the window to one sector; a failure may leave anything in the sector. */
    method DiskWrite(sect: nat) returns (ok: bool)
      requires win.Length == SECTOR && sect < |disk|
      modifies this`disk, this`faulty
      ensures ok ==> disk == old(disk)[sect := win[..]] && faulty == old(faulty)
      ensures !ok ==> faulty && Overwritten(old(disk), disk, sect)
    {
      ok := *;
      if ok {
        disk := disk[sect := win[..]];
      } else {
        var i :| 0 <= i < 256;
        var s: seq<Byte> := seq(SECTOR, _ => i);
        disk := disk[sect := s];
        faulty := true;
        assert |s| == SECTOR && disk == old(disk)[sect := s];
      }
    }

    /** sync_window */
    method SyncWindow() returns (res: Result)
      requires Valid()
      modifies this`disk, this`wflag, this`faulty
      ensures Valid() && SameContents(g, old(Logical()), Logical())
      ensures res == Ok ==> !wflag
      ensures res == Ok || (res == DiskError && faulty)
      ensures old(faulty) ==> faulty
    {
      res := Ok;
      GeometryFits();
      hide DiskOk, SameContents, Mirrored, InMirror, Overwritten;
      if wflag {
        ghost var d, w := disk, win[..];
        var ok := DiskWrite(winsect);
        if ok {
          wflag := false;
          Reflect(d);
        } else {
          WriteLost(g, d, disk, winsect, w);
          res := DiskError;
        }
      } else {
        SameAsItself(g, Logical());
      }
    }

    /** The second half of sync_window: d is what the device held before the window was written. */
    method Reflect(ghost d: Disk)
      requires DiskOk(g, d) && win.Length == SECTOR && winsect < |d| && !InMirror(g, winsect) && !wflag
      requires disk == d[winsect := win[..]] && (!faulty ==> Mirrored(g, d))
      modifies this`disk, this`faulty
      ensures Valid() && SameContents(g, d[winsect := win[..]], Logical())
      ensures old(faulty) ==> faulty
    {
      assert 1 <= g.nFats <= 2 && 0 < g.fsize && g.fatbase + g.fsize < 0x1_0000_0000 && winsect < INVALID_SECTOR;
      FirstFatTest(g, winsect);
      WrittenOk(g, d, winsect, win[..]);
      if Distance(winsect, g.fatbase) < g.fsize {
        if g.nFats == 2 {
          MirrorSector(g, disk, winsect);
          hide DiskOk, SameContents, Mirrored, InMirror, Overwritten, Distance;
          var ok := DiskWrite(winsect + g.fsize);
          if ok {
            MirrorWritten(g, d, winsect, win[..]);
          } else {
            MirrorLost(g, d[winsect := win[..]], disk, winsect + g.fsize, winsect);
          }
        }
      }
      hide DiskOk, SameContents, Mirrored, InMirror, Overwritten, Distance;
    }

    lemma GeometryFits()
      requires Valid()
      ensures 1 <= g.nFats <= 2 && 0 < g.fsize && g.fatbase + g.fsize < 0x1_0000_0000
      ensures wflag ==> winsect < INVALID_SECTOR
    {
    }

    /** move_window */
    method MoveWindow(sect: nat) returns (res: Result)
      requires Valid() && sect < INVALID_SECTOR
      modifies this`disk, this`winsect, this`wflag, this`faulty, win
      ensures Valid() && SameContents(g, old(Logical()), Logical())
      ensures res == Ok ==> winsect == sect && sect < |Logical()| && win[..] == Logical()[sect]
      ensures res == Ok || (res == DiskError && faulty)
      ensures old(faulty) ==> faulty
    {
      res := Ok;
      if sect != winsect {
        res := SyncWindow();
        if res == Ok {
          var ok := DiskRead(sect);
          if ok {
            winsect := sect;
          } else {
            winsect := INVALID_SECTOR;
            res := DiskError;
          }
        }
      }
    }

    /** A change of one byte of the window. */
    method StoreByte(o: nat, x: Byte)
      requires Valid() && o < SECTOR && winsect < |Logical()| && win[..] == Logical()[winsect] && !InMirror(g, winsect)
      modifies this`wflag, win
      ensures Valid() && win[..] == Logical()[winsect]
      ensures Logical() == old(Logical())[winsect := SetByte(old(Logical())[winsect], o, x)]
    {
      win[o] := x;
      wflag := true;
    }

    /** The window shows the FAT sector that holds byte j of the table. */
    ghost predicate Shows(j: nat)
      requires Valid()
      reads this, win
    {
      j < SECTOR * g.fsize && winsect == g.fatbase + Sec(j) && winsect < |Logical()| && win[..] == Logical()[winsect]
    }

    /** move_window to the FAT sector of byte j. */
    method MoveToByte(j: nat) returns (res: Result)
      requires Valid() && j < SECTOR * g.fsize
      modifies this`disk, this`winsect, this`wflag, this`faulty, win
      ensures Valid() && SameContents(g, old(Logical()), Logical()) && Bytes() == old(Bytes()) && Fat() == old(Fat())
      ensures res == Ok ==> Shows(j)
      ensures res == Ok || (res == DiskError && faulty)
      ensures old(faulty) ==> faulty
    {
      LogicalOk();
      ghost var d := Logical();
      ByteSector(g, j);
      hide DiskOk, SameContents;
      res := MoveWindow(g.fatbase + Sec(j));
      LogicalOk();
      SameFatBytes(g, d, Logical());
    }

    lemma ShownByte(j: nat)
      requires Valid() && Shows(j)
      ensures j < |Bytes()| && win.Length == SECTOR && win[Ofs(j)] == Bytes()[j]
    {
      LogicalOk();
    }

    /** Stores byte j of the table in the window. */
    method StoreFatByte(j: nat, x: Byte)
      requires Valid() && Shows(j)
      modifies this`wflag, win
      ensures Valid() && Shows(j) && Bytes() == old(Bytes())[j := x] && OnlyFat(g, old(Logical()), Logical())
    {
      LogicalOk();
      ghost var d := Logical();
      ByteSector(g, j);
      StoreByte(Ofs(j), x);
      LogicalOk();
      hide DiskOk;
      FatByteStored(g, d, Logical(), j, x);
    }

    /** Where entry c is stored, and what it holds. */
    lemma EntryIs(c: nat)
      requires Valid() && c < g.nFatent
      ensures Fits(g.fatType, Bytes(), c) && |Bytes()| == SECTOR * g.fsize && Fat()[c] == Entry(g.fatType, Bytes(), c)
    {
      LogicalOk();
    }

    lemma ShownWord(j: nat, b: seq<Byte>, w: seq<Byte>)
      requires Valid() && Shows(j) && Aligned(j, 2) && b == Bytes() && w == win[..]
      ensures Ofs(j) + 2 <= SECTOR == |w| && j + 2 <= |b| && Word(w, Ofs(j)) == Word(b, j)
    {
      SameSector(j, 1, 2);
      ShownByte(j);
      assert Shows(j + 1);
      ShownByte(j + 1);
      hide *;
      WordOf(w, Ofs(j));
      WordOf(b, j);
    }

    lemma ShownDword(j: nat, b: seq<Byte>, w: seq<Byte>)
      requires Valid() && Shows(j) && Aligned(j, 4) && b == Bytes() && w == win[..]
      ensures Ofs(j) + 4 <= SECTOR == |w| && j + 4 <= |b| && Dword(w, Ofs(j)) == Dword(b, j)
    {
      SameSector(j, 2, 4);
      ShownWord(j, b, w);
      assert Shows(j + 2);
      ShownWord(j + 2, b, w);
      hide *;
      DwordOf(w, Ofs(j));
      DwordOf(b, j);
    }

    /** get_fat */
    method GetFat(clst: nat) returns (val: nat)
      requires Valid()
      modifies this`disk, this`winsect, this`wflag, this`faulty, win
      ensures Valid() && SameContents(g, old(Logical()), Logical()) && Fat() == old(Fat())
      ensures old(faulty) ==> faulty
      ensures clst < 2 || clst >= g.nFatent ==> val == 1
      ensures 2 <= clst < g.nFatent ==> val == Fat()[clst] || (val == DISK_ERROR && faulty)
    {
      if clst < 2 || clst >= g.nFatent { SameAsItself(g, Logical()); return 1; }
      hide *;
      match g.fatType {
        case Fat12 => val := GetFat12(clst);
        case Fat16 => val := GetFat16(clst);
        case Fat32 => val := GetFat32(clst);
      }
    }

    /** The FAT16 case of get_fat. */
    method GetFat16(clst: nat) returns (val: nat)
      requires Valid() && 2 <= clst < g.nFatent && g.fatType == Fat16
      modifies this`disk, this`winsect, this`wflag, this`faulty, win
      ensures Valid() && SameContents(g, old(Logical()), Logical()) && Fat() == old(Fat())
      ensures old(faulty) ==> faulty
      ensures val == Fat()[clst] || (val == DISK_ERROR && faulty)
    {
      EntryIs(clst);
      EntryPlace(g.fatType, Bytes(), clst);
      ghost var b, v := Bytes(), Fat()[clst];
      hide *;
      var bc := Offset(Fat16, clst);
      var res := MoveToByte(bc);
      if res != Ok { return DISK_ERROR; }
      assert Bytes() == b;
      var w := win[..];
      ShownWord(bc, b, w);
      val := Word(w, Ofs(bc));
      assert val == v;
    }

    /** The FAT32 case of get_fat. */
    method GetFat32(clst: nat) returns (val: nat)
      requires Valid() && 2 <= clst < g.nFatent && g.fatType == Fat32
      modifies this`disk, this`winsect, this`wflag, this`faulty, win
      ensures Valid() && SameContents(g, old(Logical()), Logical()) && Fat() == old(Fat())
      ensures old(faulty) ==> faulty
      ensures val == Fat()[clst] || (val == DISK_ERROR && faulty)
    {
      EntryIs(clst);
      EntryPlace(g.fatType, Bytes(), clst);
      ghost var b, v := Bytes(), Fat()[clst];
      hide *;
      var bc := Offset(Fat32, clst);
      var res := MoveToByte(bc);
      if res != Ok { return DISK_ERROR; }
      assert Bytes() == b;
      var w := win[..];
      ShownDword(bc, b, w);
      val := Low28(Dword(w, Ofs(bc)));
      assert val == v;
    }

    /** The FAT12 case of get_fat, whose two bytes may lie in two sectors. */
    method GetFat12(clst: nat) returns (val: nat)
      requires Valid() && 2 <= clst < g.nFatent && g.fatType == Fat12
      modifies this`disk, this`winsect, this`wflag, this`faulty, win
      ensures Valid() && SameContents(g, old(Logical()), Logical()) && Fat() == old(Fat())
      ensures old(faulty) ==> faulty
      ensures val == Fat()[clst] || (val == DISK_ERROR && faulty)
    {
      val := DISK_ERROR;
      EntryIs(clst);
      EntryPlace(g.fatType, Bytes(), clst);
      ghost var b, v := Bytes(), Fat()[clst];
      hide *;
      var bc := Offset(Fat12, clst);
      var res := MoveToByte(bc);
      if res != Ok { return; }
      ghost var d1 := Logical();
      ShownByte(bc);
      var first := win[Ofs(bc)];
      bc := bc + 1;
      res := MoveToByte(bc);
      SameTwice(g, old(Logical()), d1, Logical());
      if res != Ok { return; }
      ShownByte(bc);
      var second := win[Ofs(bc)];
      assert second == b[bc];
      val := Read12(clst, first, second);
      assert val == v;
    }

    lemma AlsoShows(j: nat, k: nat)
      requires Valid() && Shows(j) && Sec(j + k) == Sec(j) && j + k < SECTOR * g.fsize
      ensures Shows(j + k)
    {
    }

    /** st_word in the window. */
    method StoreFatWord(j: nat, v: nat)
      requires Valid() && Shows(j) && Aligned(j, 2) && j + 2 <= SECTOR * g.fsize
      modifies this`wflag, win
      ensures Valid() && Shows(j) && OnlyFat(g, old(Logical()), Logical())
      ensures j + 2 <= |old(Bytes())| && Bytes() == PutWord(old(Bytes()), j, v)
    {
      ghost var b, d := Bytes(), Logical();
      ShownByte(j);
      SameSector(j, 1, 2);
      hide *;
      StoreFatByte(j, LowByte(v));
      ghost var d1 := Logical();
      AlsoShows(j, 1);
      StoreFatByte(j + 1, HighByte(v));
      OnlyFatTwice(g, d, d1, Logical());
      ShowsBack(j, 1);
      PutWordIs(b, j, v);
    }

    /** st_dword in the window. */
    method StoreFatDword(j: nat, v: nat)
      requires Valid() && Shows(j) && Aligned(j, 4) && j + 4 <= SECTOR * g.fsize
      modifies this`wflag, win
      ensures Valid() && OnlyFat(g, old(Logical()), Logical())
      ensures j + 4 <= |old(Bytes())| && Bytes() == PutDword(old(Bytes()), j, v)
    {
      ghost var b, d := Bytes(), Logical();
      ShownByte(j);
      SameSector(j, 2, 4);
      hide *;
      StoreFatWord(j, v);
      ghost var d1 := Logical();
      AlsoShows(j, 2);
      StoreFatWord(j + 2, UpperWord(v));
      OnlyFatTwice(g, d, d1, Logical());
      PutDwordIs(b, j, v);
    }

    lemma ShowsBack(j: nat, k: nat)
      requires Valid() && Shows(j + k) && Sec(j + k) == Sec(j)
      ensures Shows(j)
    {
    }

    /** put_fat */
    method PutFat(clst: nat, val: nat) returns (res: Result)
      requires Valid()
      modifies this`disk, this`winsect, this`wflag, this`faulty, win
      ensures Valid() && OnlyFat(g, old(Logical()), Logical()) && SameTopBits(g, old(Bytes()), Bytes())
      ensures old(faulty) ==> faulty
      ensures clst < 2 || clst >= g.nFatent ==> res == IntError && Fat() == old(Fat())
      ensures 2 <= clst < g.nFatent ==> res == Ok || (res == DiskError && faulty)
      ensures res == Ok ==> Fat() == old(Fat())[clst := Cut(g.fatType, val)]
      ensures forall d | 0 <= d < g.nFatent && d != clst :: Fat()[d] == old(Fat())[d]
    {
      if clst < 2 || clst >= g.nFatent { NothingStored(); return IntError; }
      hide *;
      match g.fatType {
        case Fat12 => res := PutFat12(clst, val);
        case Fat16 => res := PutFat16(clst, val);
        case Fat32 => res := PutFat32(clst, val);
      }
    }

    lemma NothingStored()
      requires Valid()
      ensures OnlyFat(g, Logical(), Logical()) && SameTopBits(g, Bytes(), Bytes())
    {
    }

    /** The FAT16 case of put_fat. */
    method PutFat16(clst: nat, val: nat) returns (res: Result)
      requires Valid() && 2 <= clst < g.nFatent && g.fatType == Fat16
      modifies this`disk, this`winsect, this`wflag, this`faulty, win
      ensures Valid() && OnlyFat(g, old(Logical()), Logical()) && SameTopBits(g, old(Bytes()), Bytes())
      ensures old(faulty) ==> faulty
      ensures res == Ok || (res == DiskError && faulty)
      ensures res == Ok ==> Fat() == old(Fat())[clst := Cut(g.fatType, val)]
      ensures forall d | 0 <= d < g.nFatent && d != clst :: Fat()[d] == old(Fat())[d]
    {
      EntryIs(clst);
      EntryPlace(g.fatType, Bytes(), clst);
      ghost var b, f, d := Bytes(), Fat(), Logical();
      hide *;
      var bc := Offset(Fat16, clst);
      res := MoveToByte(bc);
      ghost var d1 := Logical();
      SameIsOnlyFat(g, d, d1);
      if res != Ok { return; }
      StoreFatWord(bc, val);
      OnlyFatTwice(g, d, d1, Logical());
      PutEntry16Is(b, clst, val);
      Repacked(b, f, clst, val);
    }

    /** Stores 28 bits of val and keeps the other four. */
    method MergeFatDword(j: nat, val: nat)
      requires Valid() && Shows(j) && Aligned(j, 4) && j + 4 <= SECTOR * g.fsize
      modifies this`wflag, win
      ensures Valid() && OnlyFat(g, old(Logical()), Logical())
      ensures j + 4 <= |old(Bytes())| && Bytes() == PutDword(old(Bytes()), j, Merge(val, Dword(old(Bytes()), j)))
    {
      ghost var b := Bytes();
      hide *;
      var w := win[..];
      ShownDword(j, b, w);
      StoreFatDword(j, Merge(val, Dword(w, Ofs(j))));
    }

    /** The FAT32 case of put_fat. */
    method PutFat32(clst: nat, val: nat) returns (res: Result)
      requires Valid() && 2 <= clst < g.nFatent && g.fatType == Fat32
      modifies this`disk, this`winsect, this`wflag, this`faulty, win
      ensures Valid() && OnlyFat(g, old(Logical()), Logical()) && SameTopBits(g, old(Bytes()), Bytes())
      ensures old(faulty) ==> faulty
      ensures res == Ok || (res == DiskError && faulty)
      ensures res == Ok ==> Fat() == old(Fat())[clst := Cut(g.fatType, val)]
      ensures forall d | 0 <= d < g.nFatent && d != clst :: Fat()[d] == old(Fat())[d]
    {
      EntryIs(clst);
      EntryPlace(g.fatType, Bytes(), clst);
      ghost var b, f, d := Bytes(), Fat(), Logical();
      hide *;
      var bc := Offset(Fat32, clst);
      res := MoveToByte(bc);
      ghost var d1 := Logical();
      SameIsOnlyFat(g, d, d1);
      if res != Ok { return; }
      ghost var m := Merge(val, Dword(b, bc));
      MergeFatDword(bc, val);
      assert Bytes() == PutDword(b, bc, m);
      OnlyFatTwice(g, d, d1, Logical());
      PutEntry32Is(b, clst, val);
      Repacked(b, f, clst, val);
    }

    /** The FAT12 case of put_fat, which may move the window between the two bytes. */
    method PutFat12(clst: nat, val: nat) returns (res: Result)
      requires Valid() && 2 <= clst < g.nFatent && g.fatType == Fat12
      modifies this`disk, this`winsect, this`wflag, this`faulty, win
      ensures Valid() && OnlyFat(g, old(Logical()), Logical()) && SameTopBits(g, old(Bytes()), Bytes())
      ensures old(faulty) ==> faulty
      ensures res == Ok || (res == DiskError && faulty)
      ensures res == Ok ==> Fat() == old(Fat())[clst := Cut(g.fatType, val)]
      ensures forall d | 0 <= d < g.nFatent && d != clst :: Fat()[d] == old(Fat())[d]
    {
      EntryIs(clst);
      EntryPlace(g.fatType, Bytes(), clst);
      ghost var b, f, d := Bytes(), Fat(), Logical();
      hide *;
      var bc := Offset(Fat12, clst);
      res := PutByte12(bc, false, clst, val);
      ghost var d1 := Logical();
      TopBits12(g, b, Bytes());
      if res != Ok { return; }
      res := PutByte12(bc + 1, true, clst, val);
      OnlyFatTwice(g, d, d1, Logical());
      TopBits12(g, b, Bytes());
      if res != Ok { HalfPacked(b, f, clst, val); return; }
      PutTwoIs(b, clst, val);
      Repacked(b, f, clst, val);
    }

    /** Moves the window to byte j and updates it, as the first or the second byte of an entry. */
    method PutByte12(j: nat, second: bool, clst: nat, val: nat) returns (res: Result)
      requires Valid() && j < SECTOR * g.fsize
      modifies this`disk, this`winsect, this`wflag, this`faulty, win
      ensures Valid() && OnlyFat(g, old(Logical()), Logical())
      ensures old(faulty) ==> faulty
      ensures res == Ok || (res == DiskError && faulty)
      ensures res != Ok ==> Bytes() == old(Bytes()) && Fat() == old(Fat())
      ensures res == Ok ==>
                j < |old(Bytes())| && Bytes() == old(Bytes())[j := Half12(second, old(Bytes())[j], clst, val)]
    {
      ghost var b, d := Bytes(), Logical();
      hide *;
      res := MoveToByte(j);
      ghost var d1 := Logical();
      SameIsOnlyFat(g, d, d1);
      if res != Ok { return; }
      ShownByte(j);
      var x := win[Ofs(j)];
      assert x == b[j];
      StoreFatByte(j, Half12(second, x, clst, val));
      OnlyFatTwice(g, d, d1, Logical());
    }

    /** The table after the bytes of one entry have been stored. */
    lemma Repacked(b: seq<Byte>, f: seq<nat>, c: nat, val: nat)
      requires Valid() && c < g.nFatent && |b| == SECTOR * g.fsize && f == TableOf(g, b) && Fits(g.fatType, b, c)
      requires Bytes() == Packed(g.fatType, b, c, val)
      ensures Fat() == f[c := Cut(g.fatType, val)] && SameTopBits(g, b, Bytes())
      ensures forall d | 0 <= d < g.nFatent && d != c :: Fat()[d] == f[d]
    {
      LogicalOk();
      TablePacked(g, b, c, val);
      TopBitsPacked(g, b, c, val);
      hide Packed, SameTopBits;
    }

    lemma HalfPacked(b: seq<Byte>, f: seq<nat>, c: nat, val: nat)
      requires Valid() && c < g.nFatent && |b| == SECTOR * g.fsize && f == TableOf(g, b) && g.fatType == Fat12
      requires Fits(Fat12, b, c)
      requires Bytes() == b[Offset(Fat12, c) := Half12(false, b[Offset(Fat12, c)], c, val)]
      ensures forall d | 0 <= d < g.nFatent && d != c :: Fat()[d] == f[d]
    {
      LogicalOk();
      forall d | 0 <= d < g.nFatent && d != c ensures Fat()[d] == f[d] {
        EntryFits(g, d);
        OthersKeptHalf(b, c, val, d);
      }
    }
  }

  lemma WordOf(b: seq<Byte>, j: nat)
    requires j + 2 <= |b|
    ensures Word(b, j) == b[j] as int + 256 * b[j + 1] as int
  {
  }

  lemma DwordOf(b: seq<Byte>, j: nat)
    requires j + 4 <= |b|
    ensures Dword(b, j) == Word(b, j) + 0x1_0000 * Word(b, j + 2)
  {
  }

  predicate Aligned(j: nat, w: nat)
    requires 0 < w
  {
    j % w == 0
  }

  /** Bytes at multiples of their width do not straddle sectors. */
  lemma SameSector(j: nat, k: nat, w: nat)
    requires (w == 2 && k == 1) || (w == 4 && k == 2)
    requires Aligned(j, w)
    ensures w == 4 ==> Aligned(j, 2) && Aligned(j + 2, 2)
    ensures Sec(j + k) == Sec(j) && Ofs(j + k) == Ofs(j) + k && Ofs(j) + w <= SECTOR
  {
    if w == 2 { SameSector2(j); } else { SameSector4(j); }
    hide *;
  }

  lemma SectorIs(j: nat, p: nat, r: nat)
    requires j == SECTOR * p + r && r < SECTOR
    ensures Sec(j) == p && Ofs(j) == r
  {
  }

  lemma SameSector2(j: nat)
    requires Aligned(j, 2)
    ensures Sec(j + 1) == Sec(j) && Ofs(j + 1) == Ofs(j) + 1 && Ofs(j) + 2 <= SECTOR
  {
    var p, r := (j / 2) / 256, (j / 2) % 256;
    assert j == 2 * (256 * p + r);
    SectorIs(j, p, 2 * r);
    SectorIs(j + 1, p, 2 * r + 1);
  }

  lemma SameSector4(j: nat)
    requires Aligned(j, 4)
    ensures Aligned(j, 2) && Aligned(j + 2, 2)
    ensures Sec(j + 2) == Sec(j) && Ofs(j + 2) == Ofs(j) + 2 && Ofs(j) + 4 <= SECTOR
  {
    var p, r := (j / 4) / 128, (j / 4) % 128;
    assert j == 4 * (128 * p + r);
    SectorIs(j, p, 4 * r);
    SectorIs(j + 2, p, 4 * r + 2);
  }

  lemma ByteSector(g: Geometry, j: nat)
    requires GeometryOk(g) && j < SECTOR * g.fsize
    ensures InFat(g, g.fatbase + Sec(j)) && !InMirror(g, g.fatbase + Sec(j)) && g.fatbase + Sec(j) < INVALID_SECTOR
  {
  }

  /** The bytes of entry c and how they are read. */
  lemma EntryPlace(t: FatType, b: seq<Byte>, c: nat)
    requires Fits(t, b, c)
    ensures t == Fat12 ==> Offset(t, c) + 1 < |b| && Entry(t, b, c) == Read12(c, b[Offset(t, c)], b[Offset(t, c) + 1])
    ensures t == Fat16 ==>
              Offset(t, c) + 2 <= |b| && Aligned(Offset(t, c), 2) && Entry(t, b, c) == Word(b, Offset(t, c))
    ensures t == Fat32 ==>
              Offset(t, c) + 4 <= |b| && Aligned(Offset(t, c), 4) && Entry(t, b, c) == Low28(Dword(b, Offset(t, c)))
  {
  }

  /** A double word without its upper four bits. */
  function Low28(v: nat): nat {
    v % 0x1000_0000
  }

  /** A value cut to the width of an entry. */
  function Cut(t: FatType, val: nat): nat {
    val % Modulus(t)
  }

  lemma OnlyFatTwice(g: Geometry, d: Disk, d1: Disk, d2: Disk)
    requires OnlyFat(g, d, d1) && OnlyFat(g, d1, d2)
    ensures OnlyFat(g, d, d2)
  {
  }

  lemma SameIsOnlyFat(g: Geometry, d: Disk, d': Disk)
    requires SameContents(g, d, d')
    ensures OnlyFat(g, d, d')
  {
  }

  lemma TopBits12(g: Geometry, b: seq<Byte>, b': seq<Byte>)
    requires g.fatType == Fat12
    ensures SameTopBits(g, b, b')
  {
  }

  lemma PutWordIs(b: seq<Byte>, j: nat, v: nat)
    requires j + 2 <= |b|
    ensures PutWord(b, j, v) == b[j := LowByte(v)][j + 1 := HighByte(v)]
  {
  }

  lemma PutDwordIs(b: seq<Byte>, j: nat, v: nat)
    requires j + 4 <= |b|
    ensures PutDword(b, j, v) == PutWord(PutWord(b, j, v), j + 2, UpperWord(v))
  {
  }

  lemma PutEntry16Is(b: seq<Byte>, c: nat, val: nat)
    requires Fits(Fat16, b, c)
    ensures Packed(Fat16, b, c, val) == PutWord(b, Offset(Fat16, c), val)
  {
  }

  lemma PutEntry32Is(b: seq<Byte>, c: nat, val: nat)
    requires Fits(Fat32, b, c)
    ensures Packed(Fat32, b, c, val) == PutDword(b, Offset(Fat32, c), Merge(val, Dword(b, Offset(Fat32, c))))
  {
  }

  function Half12(second: bool, x: Byte, c: nat, val: nat): Byte {
    if second then Second12(x, c, val) else First12(x, c, val)
  }

  lemma PutTwoIs(b: seq<Byte>, c: nat, val: nat)
    requires Fits(Fat12, b, c)
    ensures var j := Offset(Fat12, c);
            Packed(Fat12, b, c, val) == b[j := Half12(false, b[j], c, val)][j + 1 := Half12(true, b[j + 1], c, val)]
  {
  }
}
