/** Packing of FAT entries into bytes (get_fat and put_fat in ff.c). */
module FatEntry {
  type Byte = x: int | 0 <= x < 256

  datatype FatType = Fat12 | Fat16 | Fat32

  /** One more than the largest value of an entry. */
  function Modulus(t: FatType): nat {
    match t
    case Fat12 => 0x1000
    case Fat16 => 0x1_0000
    case Fat32 => 0x1000_0000
  }

  /** The first byte of entry c; FAT12 entries are one and a half bytes long. */
  function Offset(t: FatType, c: nat): nat {
    match t
    case Fat12 => c + c / 2
    case Fat16 => 2 * c
    case Fat32 => 4 * c
  }

  function Width(t: FatType): nat {
    if t == Fat32 then 4 else 2
  }

  predicate Fits(t: FatType, b: seq<Byte>, c: nat) {
    Offset(t, c) + Width(t) <= |b|
  }

  /** ld_word */
  function Word(b: seq<Byte>, j: nat): nat
    requires j + 2 <= |b|
  {
    b[j] as int + 256 * b[j + 1] as int
  }

  /** ld_dword */
  function Dword(b: seq<Byte>, j: nat): nat
    requires j + 4 <= |b|
  {
    Word(b, j) + 0x1_0000 * Word(b, j + 2)
  }

  /** A FAT12 entry from its two bytes, merged into one word. */
  function Read12(c: nat, first: Byte, second: Byte): (v: nat)
    ensures v < 0x1000
  {
    var wc := first as int + second as int * 256;
    if c % 2 == 1 then wc / 16 else wc % 0x1000
  }

  function Entry(t: FatType, b: seq<Byte>, c: nat): (v: nat)
    requires Fits(t, b, c)
    ensures v < Modulus(t)
  {
    match t
    case Fat12 => Read12(c, b[Offset(t, c)], b[Offset(t, c) + 1])
    case Fat16 => Word(b, Offset(t, c))
    case Fat32 => Dword(b, Offset(t, c)) % 0x1000_0000
  }

  /** The little-endian number in the n bytes from j on. */
  function Number(b: seq<Byte>, j: nat, n: nat): nat
    requires j + n <= |b|
    decreases n
  {
    if n == 0 then 0 else b[j] as int + 256 * Number(b, j + 1, n - 1)
  }

  /** Where the entries are: FAT12 packs two of them into three bytes, the lower twelve bits first;
      FAT16 and FAT32 entries are numbers of two and four bytes, of which FAT32 uses 28 bits. */
  lemma EntryIsField(t: FatType, b: seq<Byte>, c: nat)
    requires Fits(t, b, c)
    ensures t == Fat12 && c % 2 == 0 ==>
              3 * (c / 2) + 2 <= |b| && Entry(t, b, c) == Number(b, 3 * (c / 2), 2) % 4096
    ensures t == Fat12 && c % 2 == 1 ==>
              3 * (c / 2) + 3 <= |b| && Entry(t, b, c) == Number(b, 3 * (c / 2), 3) / 4096
    ensures t == Fat16 ==> 2 * c + 2 <= |b| && Entry(t, b, c) == Number(b, 2 * c, 2)
    ensures t == Fat32 ==> 4 * c + 4 <= |b| && Entry(t, b, c) == Number(b, 4 * c, 4) % 0x1000_0000
  {
    match t {
      case Fat12 => Field12(b, c);
      case Fat16 => NumberIs(b, 2 * c);
      case Fat32 => NumberIs(b, 4 * c);
    }
    hide Read12, Number;
  }

  lemma Field12(b: seq<Byte>, c: nat)
    requires Fits(Fat12, b, c)
    ensures c % 2 == 0 ==>
              3 * (c / 2) + 2 <= |b| && Entry(Fat12, b, c) == Number(b, 3 * (c / 2), 2) % 4096
    ensures c % 2 == 1 ==>
              3 * (c / 2) + 3 <= |b| && Entry(Fat12, b, c) == Number(b, 3 * (c / 2), 3) / 4096
  {
    var j := Offset(Fat12, c);
    if c % 2 == 1 {
      assert j == 3 * (c / 2) + 1;
      UpperOfThree(b[j - 1], b[j] as int + 256 * b[j + 1] as int);
      NumberIs(b, j - 1);
    } else {
      assert j == 3 * (c / 2);
      NumberIs(b, j);
    }
    hide Number;
  }

  lemma NumberIs(b: seq<Byte>, j: nat)
    requires j + 2 <= |b|
    ensures Number(b, j, 2) == b[j] as int + 256 * b[j + 1] as int
    ensures j + 3 <= |b| ==> Number(b, j, 3) == b[j] as int + 256 * (b[j + 1] as int + 256 * b[j + 2] as int)
    ensures j + 4 <= |b| ==>
              Number(b, j, 4) ==
              b[j] as int + 256 * b[j + 1] as int + 0x1_0000 * (b[j + 2] as int + 256 * b[j + 3] as int)
  {
    assert Number(b, j + 2, 0) == 0;
    if j + 3 <= |b| {
      assert Number(b, j + 3, 0) == 0;
      assert Number(b, j + 2, 1) == b[j + 2] as int;
      assert Number(b, j + 1, 2) == b[j + 1] as int + 256 * b[j + 2] as int;
    }
    if j + 4 <= |b| {
      assert Number(b, j + 4, 0) == 0;
      assert Number(b, j + 3, 1) == b[j + 3] as int;
      assert Number(b, j + 2, 2) == b[j + 2] as int + 256 * b[j + 3] as int;
      assert Number(b, j + 1, 3) == b[j + 1] as int + 256 * Number(b, j + 2, 2);
    }
  }

  lemma UpperOfThree(x: Byte, w: nat)
    ensures w / 16 == (x as int + 256 * w) / 4096
  {
    var q, r := w / 16, w % 16;
    assert w == 16 * q + r;
    assert x as int + 256 * w == 4096 * q + (256 * r + x as int);
  }

  /** The beginning of a FAT12 table with a cluster chain 2, 3, 4. */
  lemma FirstEntries()
    ensures var b: seq<Byte> := [0xF0, 0xFF, 0xFF, 0x03, 0x40, 0x00];
            && Entry(Fat12, b, 0) == 0xFF0 && Entry(Fat12, b, 1) == 0xFFF
            && Entry(Fat12, b, 2) == 3 && Entry(Fat12, b, 3) == 4
  {
  }

  /** The four reserved bits above a FAT32 entry. */
  function TopBits(b: seq<Byte>, c: nat): nat
    requires Fits(Fat32, b, c)
  {
    Dword(b, Offset(Fat32, c)) / 0x1000_0000
  }

  /** The first byte of a FAT12 entry shares a nibble with the entry before it when c is odd. */
  function First12(was: Byte, c: nat, val: nat): Byte {
    if c % 2 == 1 then was % 16 + (val % 16) * 16 else val % 256
  }

  /** The second byte shares a nibble with the entry behind it when c is even. */
  function Second12(was: Byte, c: nat, val: nat): Byte {
    if c % 2 == 1 then (val / 16) % 256 else was / 16 * 16 + (val / 256) % 16
  }

  function LowByte(v: nat): Byte {
    v % 256
  }

  function HighByte(v: nat): Byte {
    (v / 256) % 256
  }

  /** st_word */
  function PutWord(b: seq<Byte>, j: nat, v: nat): (r: seq<Byte>)
    requires j + 2 <= |b|
    ensures |r| == |b|
  {
    b[j := LowByte(v)][j + 1 := HighByte(v)]
  }

  function UpperWord(v: nat): nat {
    v / 0x1_0000
  }

  /** st_dword */
  function PutDword(b: seq<Byte>, j: nat, v: nat): (r: seq<Byte>)
    requires j + 4 <= |b|
    ensures |r| == |b|
  {
    PutWord(PutWord(b, j, v), j + 2, UpperWord(v))
  }

  /** Bits 0 to 27 of val with bits 28 to 31 of was. */
  function Merge(val: nat, was: nat): nat {
    val % 0x1000_0000 + was / 0x1000_0000 * 0x1000_0000
  }

  /** What put_fat stores for a FAT32 entry: 28 bits of the value, the top bits as they were. */
  function Merged32(b: seq<Byte>, c: nat, val: nat): nat
    requires Fits(Fat32, b, c)
  {
    Merge(val, Dword(b, Offset(Fat32, c)))
  }

  /** The bytes after put_fat(c, val). */
  function Packed(t: FatType, b: seq<Byte>, c: nat, val: nat): (r: seq<Byte>)
    requires Fits(t, b, c)
    ensures |r| == |b|
  {
    var j := Offset(t, c);
    match t
    case Fat12 => b[j := First12(b[j], c, val)][j + 1 := Second12(b[j + 1], c, val)]
    case Fat16 => PutWord(b, j, val)
    case Fat32 => PutDword(b, j, Merged32(b, c, val))
  }

  lemma WordBack(b: seq<Byte>, j: nat, v: nat)
    requires j + 2 <= |b|
    ensures Word(PutWord(b, j, v), j) == v % 0x1_0000
  {
    TwoBytes(v);
  }

  lemma TwoBytes(v: nat)
    ensures v % 256 + 256 * ((v / 256) % 256) == v % 0x1_0000
  {
    var a := v / 256;
    var q, r := a / 256, v % 256 + 256 * (a % 256);
    assert v == 256 * a + v % 256 && a == 256 * q + a % 256;
    WordRemainder(v, q, r);
  }

  lemma WordRemainder(x: nat, q: nat, r: nat)
    requires x == 0x1_0000 * q + r && r < 0x1_0000
    ensures x % 0x1_0000 == r
  {
  }

  lemma WordElsewhere(b: seq<Byte>, j: nat, v: nat, i: nat)
    requires j + 2 <= |b| && i + 2 <= |b| && (i + 2 <= j || j + 2 <= i)
    ensures Word(PutWord(b, j, v), i) == Word(b, i)
  {
  }

  lemma DwordBack(b: seq<Byte>, j: nat, v: nat)
    requires j + 4 <= |b| && v < 0x1_0000_0000
    ensures Dword(PutDword(b, j, v), j) == v
  {
    var b1 := PutWord(b, j, v);
    WordBack(b, j, v);
    WordBack(b1, j + 2, v / 0x1_0000);
    WordElsewhere(b1, j + 2, v / 0x1_0000, j);
    hide PutWord, Word;
  }

  lemma DwordElsewhere(b: seq<Byte>, j: nat, v: nat, i: nat)
    requires j + 4 <= |b| && i + 4 <= |b| && (i + 4 <= j || j + 4 <= i)
    ensures Dword(PutDword(b, j, v), i) == Dword(b, i)
  {
    var b1 := PutWord(b, j, v);
    WordElsewhere(b, j, v, i);
    WordElsewhere(b, j, v, i + 2);
    WordElsewhere(b1, j + 2, v / 0x1_0000, i);
    WordElsewhere(b1, j + 2, v / 0x1_0000, i + 2);
    hide PutWord, Word;
  }

  lemma TopBitsBound(b: seq<Byte>, c: nat)
    requires Fits(Fat32, b, c)
    ensures TopBits(b, c) < 16
  {
  }

  /** Reading an entry back gives the value written, cut to the width of an entry. */
  lemma ReadsBack(t: FatType, b: seq<Byte>, c: nat, val: nat)
    requires Fits(t, b, c)
    ensures Entry(t, Packed(t, b, c, val), c) == val % Modulus(t)
  {
    match t {
      case Fat12 => ReadsBack12(b[Offset(t, c)], b[Offset(t, c) + 1], c, val);
      case Fat16 => WordBack(b, Offset(t, c), val);
      case Fat32 =>
        TopBitsBound(b, c);
        DwordBack(b, Offset(t, c), Merged32(b, c, val));
    }
  }

  /** Twelve bits as a nibble below a byte, and as a byte below a nibble. */
  lemma Nibbles(val: nat)
    ensures val % 0x1000 == val % 16 + 16 * ((val / 16) % 256)
    ensures val % 0x1000 == val % 256 + 256 * ((val / 256) % 16)
  {
    NibbleByte(val);
    ByteNibble(val);
  }

  lemma NibbleByte(val: nat)
    ensures val % 0x1000 == val % 16 + 16 * ((val / 16) % 256)
  {
    var a := val / 16;
    var q, r := a / 256, val % 16 + 16 * (a % 256);
    assert val == 16 * a + val % 16 && a == 256 * q + a % 256;
    assert val == 0x1000 * q + r && r < 0x1000;
    RemainderIs(val, q, r);
  }

  lemma ByteNibble(val: nat)
    ensures val % 0x1000 == val % 256 + 256 * ((val / 256) % 16)
  {
    var a := val / 256;
    var q, r := a / 16, val % 256 + 256 * (a % 16);
    assert val == 256 * a + val % 256 && a == 16 * q + a % 16;
    assert val == 0x1000 * q + r && r < 0x1000;
    RemainderIs(val, q, r);
  }

  lemma RemainderIs(x: nat, q: nat, r: nat)
    requires x == 0x1000 * q + r && r < 0x1000
    ensures x % 0x1000 == r
  {
  }

  lemma ReadsBack12(x: Byte, y: Byte, c: nat, val: nat)
    ensures Read12(c, First12(x, c, val), Second12(y, c, val)) == val % 0x1000
  {
    Nibbles(val);
    if c % 2 == 1 {
      UpperTwelve(x % 16, val % 16, (val / 16) % 256);
    } else {
      LowerTwelve(val % 256, (val / 256) % 16, y / 16);
    }
  }

  lemma UpperTwelve(x: nat, lo: nat, hi: nat)
    requires x < 16 && lo < 16
    ensures (x + lo * 16 + 256 * hi) / 16 == lo + 16 * hi
  {
  }

  lemma LowerTwelve(lo: nat, hi: nat, y: nat)
    requires lo < 256 && hi < 16
    ensures (lo + 256 * (y * 16 + hi)) % 0x1000 == lo + 256 * hi
  {
  }

  /** Every other entry keeps its value, even the FAT12 entry that shares a byte with this one. */
  lemma OthersKept(t: FatType, b: seq<Byte>, c: nat, val: nat, d: nat)
    requires Fits(t, b, c) && Fits(t, b, d) && d != c
    ensures Entry(t, Packed(t, b, c, val), d) == Entry(t, b, d)
  {
    match t {
      case Fat12 => OthersKept12(b, c, val, d);
      case Fat16 => WordElsewhere(b, Offset(t, c), val, Offset(t, d));
      case Fat32 => DwordElsewhere(b, Offset(t, c), Merged32(b, c, val), Offset(t, d));
    }
  }

  lemma OthersKept12(b: seq<Byte>, c: nat, val: nat, d: nat)
    requires Fits(Fat12, b, c) && Fits(Fat12, b, d) && d != c
    ensures Entry(Fat12, Packed(Fat12, b, c, val), d) == Entry(Fat12, b, d)
  {
    var b' := Packed(Fat12, b, c, val);
    var j, i := Offset(Fat12, c), Offset(Fat12, d);
    if c % 2 == 1 && d == c - 1 {
      assert i + 1 == j && b'[i] == b[i];
      LowerShared(b[i], b[j], (val % 16));
    } else if c % 2 == 0 && d == c + 1 {
      assert i == j + 1 && b'[i + 1] == b[i + 1];
      UpperShared(b[i], b[i + 1], (val / 256) % 16);
    } else {
      assert i + 1 < j || j + 1 < i;
      assert b'[i] == b[i] && b'[i + 1] == b[i + 1];
      hide First12, Second12;
    }
  }

  /** An even entry does not depend on the upper nibble of its second byte. */
  lemma LowerShared(x: Byte, y: Byte, n: nat)
    requires n < 16
    ensures (x as int + 256 * (y % 16 + n * 16) as int) % 0x1000 == (x as int + 256 * y as int) % 0x1000
  {
    LowerTwelve(x, y % 16, n);
    LowerTwelve(x, y % 16, y / 16);
  }

  /** An odd entry does not depend on the lower nibble of its first byte. */
  lemma UpperShared(x: Byte, y: Byte, n: nat)
    requires n < 16
    ensures (x / 16 * 16 + n + 256 * y as int) / 16 == (x as int + 256 * y as int) / 16
  {
    UpperTwelve(n, x / 16, y);
    UpperTwelve(x % 16, x / 16, y);
  }

  /** Already the first of the two bytes of a FAT12 entry leaves every other entry alone. */
  lemma OthersKeptHalf(b: seq<Byte>, c: nat, val: nat, d: nat)
    requires Fits(Fat12, b, c) && Fits(Fat12, b, d) && d != c
    ensures var j := Offset(Fat12, c); var b': seq<Byte> := b[j := First12(b[j], c, val)];
            Fits(Fat12, b', d) && Entry(Fat12, b', d) == Entry(Fat12, b, d)
  {
    var j, i := Offset(Fat12, c), Offset(Fat12, d);
    if c % 2 == 1 && d == c - 1 {
      assert i + 1 == j;
      LowerShared(b[i], b[j], (val % 16));
    } else {
      assert i != j && i + 1 != j;
    }
  }

  /** The reserved bits of every FAT32 entry survive. */
  lemma TopBitsKept(b: seq<Byte>, c: nat, val: nat, d: nat)
    requires Fits(Fat32, b, c) && Fits(Fat32, b, d)
    ensures TopBits(Packed(Fat32, b, c, val), d) == TopBits(b, d)
  {
    TopBitsBound(b, c);
    if d == c {
      DwordBack(b, Offset(Fat32, c), Merged32(b, c, val));
    } else {
      DwordElsewhere(b, Offset(Fat32, c), Merged32(b, c, val), Offset(Fat32, d));
    }
  }
}
