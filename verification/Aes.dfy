/** AES-128 on blocks in place, and cipher block chaining (aes128.c): FIPS 197, sections 5.1 to 5.3,
    and NIST SP 800-38A, section 6.2. */
module Aes {
  import opened AesField
  import opened AesTables

  // ---------------------------------------------------------------- one block

  /** Bytes o to o + 15. */
  function Slice(s: seq<bv8>, o: nat): (b: seq<bv8>)
    requires o + 16 <= |s|
    ensures |b| == 16
  {
    s[o..o + 16]
  }

  /** s with the block b at o. */
  function Splice(s: seq<bv8>, o: nat, b: seq<bv8>): (r: seq<bv8>)
    requires o + 16 <= |s| && |b| == 16
    ensures |r| == |s|
  {
    s[..o] + b + s[o + 16..]
  }

  lemma SpliceSlice(s: seq<bv8>, o: nat, b: seq<bv8>, c: seq<bv8>)
    requires o + 16 <= |s| && |b| == 16 && |c| == 16
    ensures Slice(Splice(s, o, b), o) == b && Splice(Splice(s, o, b), o, c) == Splice(s, o, c)
    ensures Splice(s, o, Slice(s, o)) == s
  {
  }

  function Xor(b: seq<bv8>, k: seq<bv8>): (r: seq<bv8>)
    requires |b| == |k| == 16
    ensures |r| == 16
  {
    seq(16, i requires 0 <= i < 16 => Add(b[i], k[i]))
  }

  /** Where ShiftRows takes byte i from; byte r + 4 * c is row r of column c. */
  function From(i: nat): (j: nat)
    ensures j < 16
  {
    match i
    case 0 => 0 case 1 => 5 case 2 => 10 case 3 => 15
    case 4 => 4 case 5 => 9 case 6 => 14 case 7 => 3
    case 8 => 8 case 9 => 13 case 10 => 2 case 11 => 7
    case 12 => 12 case 13 => 1 case 14 => 6 case _ => 11
  }

  /** Where its inverse takes byte i from. */
  function Back(i: nat): (j: nat)
    ensures j < 16
  {
    match i
    case 0 => 0 case 1 => 13 case 2 => 10 case 3 => 7
    case 4 => 4 case 5 => 1 case 6 => 14 case 7 => 11
    case 8 => 8 case 9 => 5 case 10 => 2 case 11 => 15
    case 12 => 12 case 13 => 9 case 14 => 6 case _ => 3
  }

  lemma FromBack(i: nat)
    requires i < 16
    ensures From(Back(i)) == i && Back(From(i)) == i
  {
  }

  /** SubBytes and ShiftRows. */
  function SubShift(b: seq<bv8>): (r: seq<bv8>)
    requires |b| == 16
    ensures |r| == 16
  {
    seq(16, i requires 0 <= i < 16 => Sbox(b[From(i)]))
  }

  function SubShiftInv(b: seq<bv8>): (r: seq<bv8>)
    requires |b| == 16
    ensures |r| == 16
  {
    seq(16, i requires 0 <= i < 16 => Rsbox(b[Back(i)]))
  }

  /** The four bytes of a column after mixing. */
  function MixColumn(b: seq<bv8>, i: nat): (r: seq<bv8>)
    requires i + 4 <= |b|
    ensures |r| == 4
  {
    [Mix(b[i], b[i + 1], b[i + 2], b[i + 3]), Mix(b[i + 1], b[i + 2], b[i + 3], b[i]),
     Mix(b[i + 2], b[i + 3], b[i], b[i + 1]), Mix(b[i + 3], b[i], b[i + 1], b[i + 2])]
  }

  function UnmixColumn(b: seq<bv8>, i: nat): (r: seq<bv8>)
    requires i + 4 <= |b|
    ensures |r| == 4
  {
    [Unmix(b[i], b[i + 1], b[i + 2], b[i + 3]), Unmix(b[i + 1], b[i + 2], b[i + 3], b[i]),
     Unmix(b[i + 2], b[i + 3], b[i], b[i + 1]), Unmix(b[i + 3], b[i], b[i + 1], b[i + 2])]
  }

  function MixColumns(b: seq<bv8>): (r: seq<bv8>)
    requires |b| == 16
    ensures |r| == 16
  {
    MixColumn(b, 0) + MixColumn(b, 4) + MixColumn(b, 8) + MixColumn(b, 12)
  }

  function MixColumnsInv(b: seq<bv8>): (r: seq<bv8>)
    requires |b| == 16
    ensures |r| == 16
  {
    UnmixColumn(b, 0) + UnmixColumn(b, 4) + UnmixColumn(b, 8) + UnmixColumn(b, 12)
  }

  lemma XorTwice(b: seq<bv8>, k: seq<bv8>)
    requires |b| == |k| == 16
    ensures Xor(Xor(b, k), k) == b
  {
    forall i | 0 <= i < 16 ensures Xor(Xor(b, k), k)[i] == b[i] {
      AddTwice(b[i], k[i]);
    }
    hide Add;
  }

  /** ShiftRows of FIPS 197, section 5.1.2: row r moves r columns to the left. */
  lemma RowsMove(r: nat, c: nat)
    requires r < 4 && c < 4
    ensures From(r + 4 * c) == r + 4 * (if c + r < 4 then c + r else c + r - 4)
  {
  }

  lemma SubShiftInverse(b: seq<bv8>)
    requires |b| == 16
    ensures SubShiftInv(SubShift(b)) == b
  {
    forall i: nat | i < 16 ensures SubShiftInv(SubShift(b))[i] == b[i] {
      FromBack(i);
      SboxInverse(b[i]);
      hide Sbox, Rsbox, From, Back;
    }
  }

  lemma MixColumnInverse(b: seq<bv8>, m: seq<bv8>, i: nat)
    requires i + 4 <= |b| == |m| && m[i..i + 4] == MixColumn(b, i)
    ensures UnmixColumn(m, i) == b[i..i + 4]
  {
    hide Mix, Unmix;
    assert m[i] == m[i..i + 4][0] && m[i + 1] == m[i..i + 4][1] && m[i + 2] == m[i..i + 4][2];
    assert m[i + 3] == m[i..i + 4][3];
    MixInverse(b[i], b[i + 1], b[i + 2], b[i + 3]);
    MixInverse(b[i + 1], b[i + 2], b[i + 3], b[i]);
    MixInverse(b[i + 2], b[i + 3], b[i], b[i + 1]);
    MixInverse(b[i + 3], b[i], b[i + 1], b[i + 2]);
  }

  lemma MixColumnsInverse(b: seq<bv8>)
    requires |b| == 16
    ensures MixColumnsInv(MixColumns(b)) == b
  {
    hide MixColumn, UnmixColumn;
    var m := MixColumns(b);
    assert m[0..4] == MixColumn(b, 0) && m[4..8] == MixColumn(b, 4) && m[8..12] == MixColumn(b, 8);
    assert m[12..16] == MixColumn(b, 12);
    MixColumnInverse(b, m, 0);
    MixColumnInverse(b, m, 4);
    MixColumnInverse(b, m, 8);
    MixColumnInverse(b, m, 12);
    assert b == b[0..4] + b[4..8] + b[8..12] + b[12..16];
  }

  // ---------------------------------------------------------------- round keys

  /** Byte j of a word in memory, lowest byte first. */
  function ByteOf(w: bv32, j: nat): bv8
    requires j < 4
  {
    match j
    case 0 => (w & 0xff) as bv8
    case 1 => ((w >> 8) & 0xff) as bv8
    case 2 => ((w >> 16) & 0xff) as bv8
    case _ => (w >> 24) as bv8
  }

  /** The sixteen bytes of round key i. */
  function RoundKey(rk: seq<bv32>, i: nat): (k: seq<bv8>)
    requires |rk| == 44 && i <= 10
    ensures |k| == 16
  {
    seq(16, j requires 0 <= j < 16 => ByteOf(rk[4 * i + j / 4], j % 4))
  }

  // ---------------------------------------------------------------- the cipher

  function Round(rk: seq<bv32>, i: nat, b: seq<bv8>): (r: seq<bv8>)
    requires |rk| == 44 && 1 <= i <= 9 && |b| == 16
    ensures |r| == 16
  {
    Xor(MixColumns(SubShift(b)), RoundKey(rk, i))
  }

  /** Rounds 1 to n. */
  function Rounds(rk: seq<bv32>, n: nat, b: seq<bv8>): (r: seq<bv8>)
    requires |rk| == 44 && n <= 9 && |b| == 16
    ensures |r| == 16
  {
    if n == 0 then b else Round(rk, n, Rounds(rk, n - 1, b))
  }

  /** The cipher (section 5.1). */
  function Encrypted(rk: seq<bv32>, b: seq<bv8>): (r: seq<bv8>)
    requires |rk| == 44 && |b| == 16
    ensures |r| == 16
  {
    Xor(SubShift(Rounds(rk, 9, Xor(b, RoundKey(rk, 0)))), RoundKey(rk, 10))
  }

  function Unround(rk: seq<bv32>, i: nat, b: seq<bv8>): (r: seq<bv8>)
    requires |rk| == 44 && 1 <= i <= 9 && |b| == 16
    ensures |r| == 16
  {
    SubShiftInv(MixColumnsInv(Xor(b, RoundKey(rk, i))))
  }

  /** Rounds n to 1, undone. */
  function Unrounds(rk: seq<bv32>, n: nat, b: seq<bv8>): (r: seq<bv8>)
    requires |rk| == 44 && n <= 9 && |b| == 16
    ensures |r| == 16
  {
    if n == 0 then b else Unrounds(rk, n - 1, Unround(rk, n, b))
  }

  /** The inverse cipher (section 5.3). */
  function Decrypted(rk: seq<bv32>, b: seq<bv8>): (r: seq<bv8>)
    requires |rk| == 44 && |b| == 16
    ensures |r| == 16
  {
    Xor(Unrounds(rk, 9, SubShiftInv(Xor(b, RoundKey(rk, 10)))), RoundKey(rk, 0))
  }

  lemma UnroundRound(rk: seq<bv32>, i: nat, b: seq<bv8>)
    requires |rk| == 44 && 1 <= i <= 9 && |b| == 16
    ensures Unround(rk, i, Round(rk, i, b)) == b
  {
    hide Xor, SubShift, SubShiftInv, MixColumns, MixColumnsInv, RoundKey;
    XorTwice(MixColumns(SubShift(b)), RoundKey(rk, i));
    MixColumnsInverse(SubShift(b));
    SubShiftInverse(b);
  }

  lemma {:induction false} UnroundsRounds(rk: seq<bv32>, n: nat, b: seq<bv8>)
    requires |rk| == 44 && n <= 9 && |b| == 16
    ensures Unrounds(rk, n, Rounds(rk, n, b)) == b
  {
    hide Round, Unround;
    if n > 0 {
      UnroundRound(rk, n, Rounds(rk, n - 1, b));
      UnroundsRounds(rk, n - 1, b);
    }
  }

  /** Decryption undoes encryption for every round key and every block. */
  lemma DecryptsEncrypted(rk: seq<bv32>, b: seq<bv8>)
    requires |rk| == 44 && |b| == 16
    ensures Decrypted(rk, Encrypted(rk, b)) == b
  {
    hide Xor, SubShift, SubShiftInv, Rounds, Unrounds, RoundKey;
    var x := Xor(b, RoundKey(rk, 0));
    XorTwice(SubShift(Rounds(rk, 9, x)), RoundKey(rk, 10));
    SubShiftInverse(Rounds(rk, 9, x));
    UnroundsRounds(rk, 9, x);
    XorTwice(b, RoundKey(rk, 0));
  }

  // ---------------------------------------------------------------- cipher block chaining

  /** What a block of the chain is combined with: the vector or the cipher block before it. */
  function Previous(iv: seq<bv8>, c: seq<bv8>, o: nat): (b: seq<bv8>)
    requires |iv| == 16 && o + 16 <= |c|
    ensures |b| == 16
  {
    if o < 16 then iv else Slice(c, o - 16)
  }

  function NumBlocks(s: seq<bv8>): nat {
    |s| / 16
  }

  /** Whole blocks, and at least one. */
  predicate Blocks(s: seq<bv8>) {
    |s| >= 16 && |s| % 16 == 0
  }

  lemma BlocksFit(s: seq<bv8>)
    requires Blocks(s)
    ensures |s| == 16 * NumBlocks(s) && NumBlocks(s) >= 1
  {
  }

  /** c is the chained encryption of p: every cipher block is the encryption of its plain block
      combined with the cipher block before it. */
  ghost predicate Chained(rk: seq<bv32>, iv: seq<bv8>, p: seq<bv8>, c: seq<bv8>)
    requires |rk| == 44 && |iv| == 16
  {
    |c| == |p| && Blocks(p)
    && forall k: nat {:trigger Slice(c, 16 * k)} | k < NumBlocks(p) ::
         Slice(c, 16 * k) == Encrypted(rk, Xor(Slice(p, 16 * k), Previous(iv, c, 16 * k)))
  }

  /** q is the chained decryption of c. */
  ghost predicate Unchained(rk: seq<bv32>, iv: seq<bv8>, c: seq<bv8>, q: seq<bv8>)
    requires |rk| == 44 && |iv| == 16
  {
    |q| == |c| && Blocks(c)
    && forall k: nat {:trigger Slice(q, 16 * k)} | k < NumBlocks(c) ::
         Slice(q, 16 * k) == Xor(Decrypted(rk, Slice(c, 16 * k)), Previous(iv, c, 16 * k))
  }

  /** Chained decryption undoes chained encryption on every buffer of whole blocks. */
  lemma UnchainsChained(rk: seq<bv32>, iv: seq<bv8>, p: seq<bv8>, c: seq<bv8>, q: seq<bv8>)
    requires |rk| == 44 && |iv| == 16 && Chained(rk, iv, p, c) && Unchained(rk, iv, c, q)
    ensures q == p
  {
    forall k: nat | k < NumBlocks(p) ensures Slice(q, 16 * k) == Slice(p, 16 * k) {
      UnchainsBlock(rk, Slice(p, 16 * k), Slice(c, 16 * k), Slice(q, 16 * k), Previous(iv, c, 16 * k));
    }
    hide *;
    SameBlocks(p, q);
  }

  lemma UnchainsBlock(rk: seq<bv32>, p: seq<bv8>, c: seq<bv8>, q: seq<bv8>, v: seq<bv8>)
    requires |rk| == 44 && |p| == |c| == |q| == |v| == 16
    requires c == Encrypted(rk, Xor(p, v)) && q == Xor(Decrypted(rk, c), v)
    ensures q == p
  {
    DecryptsEncrypted(rk, Xor(p, v));
    XorTwice(p, v);
    hide *;
  }

  lemma SameBlocks(p: seq<bv8>, q: seq<bv8>)
    requires Blocks(p) && |q| == |p|
    requires forall k: nat {:trigger Slice(q, 16 * k)} | k < NumBlocks(p) :: Slice(q, 16 * k) == Slice(p, 16 * k)
    ensures q == p
  {
    forall i: nat | i < |p| ensures q[i] == p[i] {
      var k := i / 16;
      assert Slice(q, 16 * k)[i - 16 * k] == Slice(p, 16 * k)[i - 16 * k];
    }
  }

  // ---------------------------------------------------------------- in place

  /** Nothing but the block at o differs. */
  ghost predicate Apart(s: seq<bv8>, r: seq<bv8>, o: nat)
    requires o + 16 <= |s|
  {
    |r| == |s| && r[..o] == s[..o] && r[o + 16..] == s[o + 16..]
  }

  lemma ApartTwice(s: seq<bv8>, r: seq<bv8>, q: seq<bv8>, o: nat)
    requires o + 16 <= |s| && Apart(s, r, o) && Apart(r, q, o)
    ensures Apart(s, q, o)
  {
  }

  lemma ApartIsSplice(s: seq<bv8>, r: seq<bv8>, o: nat)
    requires o + 16 <= |s| && Apart(s, r, o)
    ensures r == Splice(s, o, Slice(r, o))
  {
    assert r == r[..o] + r[o..o + 16] + r[o + 16..];
  }

  // the rows of subshiftrows

  method SubRow0(buf: array<bv8>, o: nat)
    requires o + 16 <= buf.Length
    modifies buf
    ensures Apart(old(buf[..]), buf[..], o)
    ensures var s, r := Slice(old(buf[..]), o), Slice(buf[..], o);
            && r[0] == Sbox(s[0]) && r[4] == Sbox(s[4])
            && r[8] == Sbox(s[8]) && r[12] == Sbox(s[12])
            && forall i | 0 <= i < 16 && i != 0 && i != 4 && i != 8 && i != 12 :: r[i] == s[i]
  {
    hide Sbox;
    ghost var s := Slice(buf[..], o);
    assert s[0] == buf[o + 0] && s[4] == buf[o + 4] && s[8] == buf[o + 8] && s[12] == buf[o + 12];
    buf[o] := Sbox(buf[o]);
    buf[o + 4] := Sbox(buf[o + 4]);
    buf[o + 8] := Sbox(buf[o + 8]);
    buf[o + 12] := Sbox(buf[o + 12]);
    ghost var r := Slice(buf[..], o);
    assert r[0] == buf[o + 0] && r[4] == buf[o + 4] && r[8] == buf[o + 8] && r[12] == buf[o + 12];
  }

  method SubRow1(buf: array<bv8>, o: nat)
    requires o + 16 <= buf.Length
    modifies buf
    ensures Apart(old(buf[..]), buf[..], o)
    ensures var s, r := Slice(old(buf[..]), o), Slice(buf[..], o);
            && r[1] == Sbox(s[5]) && r[5] == Sbox(s[9])
            && r[9] == Sbox(s[13]) && r[13] == Sbox(s[1])
            && forall i | 0 <= i < 16 && i != 1 && i != 5 && i != 9 && i != 13 :: r[i] == s[i]
  {
    hide Sbox;
    ghost var s := Slice(buf[..], o);
    assert s[1] == buf[o + 1] && s[5] == buf[o + 5] && s[9] == buf[o + 9] && s[13] == buf[o + 13];
    var tmp := Sbox(buf[o + 1]);
    buf[o + 1] := Sbox(buf[o + 5]);
    buf[o + 5] := Sbox(buf[o + 9]);
    buf[o + 9] := Sbox(buf[o + 13]);
    buf[o + 13] := tmp;
    ghost var r := Slice(buf[..], o);
    assert r[1] == buf[o + 1] && r[5] == buf[o + 5] && r[9] == buf[o + 9] && r[13] == buf[o + 13];
  }

  method SubRow2(buf: array<bv8>, o: nat)
    requires o + 16 <= buf.Length
    modifies buf
    ensures Apart(old(buf[..]), buf[..], o)
    ensures var s, r := Slice(old(buf[..]), o), Slice(buf[..], o);
            && r[2] == Sbox(s[10]) && r[6] == Sbox(s[14])
            && r[10] == Sbox(s[2]) && r[14] == Sbox(s[6])
            && forall i | 0 <= i < 16 && i != 2 && i != 6 && i != 10 && i != 14 :: r[i] == s[i]
  {
    hide Sbox;
    ghost var s := Slice(buf[..], o);
    assert s[2] == buf[o + 2] && s[6] == buf[o + 6] && s[10] == buf[o + 10] && s[14] == buf[o + 14];
    var tmp := Sbox(buf[o + 2]);
    buf[o + 2] := Sbox(buf[o + 10]);
    buf[o + 10] := tmp;
    tmp := Sbox(buf[o + 6]);
    buf[o + 6] := Sbox(buf[o + 14]);
    buf[o + 14] := tmp;
    ghost var r := Slice(buf[..], o);
    assert r[2] == buf[o + 2] && r[6] == buf[o + 6] && r[10] == buf[o + 10] && r[14] == buf[o + 14];
  }

  method SubRow3(buf: array<bv8>, o: nat)
    requires o + 16 <= buf.Length
    modifies buf
    ensures Apart(old(buf[..]), buf[..], o)
    ensures var s, r := Slice(old(buf[..]), o), Slice(buf[..], o);
            && r[3] == Sbox(s[15]) && r[7] == Sbox(s[3])
            && r[11] == Sbox(s[7]) && r[15] == Sbox(s[11])
            && forall i | 0 <= i < 16 && i != 3 && i != 7 && i != 11 && i != 15 :: r[i] == s[i]
  {
    hide Sbox;
    ghost var s := Slice(buf[..], o);
    assert s[3] == buf[o + 3] && s[7] == buf[o + 7] && s[11] == buf[o + 11] && s[15] == buf[o + 15];
    var tmp := Sbox(buf[o + 15]);
    buf[o + 15] := Sbox(buf[o + 11]);
    buf[o + 11] := Sbox(buf[o + 7]);
    buf[o + 7] := Sbox(buf[o + 3]);
    buf[o + 3] := tmp;
    ghost var r := Slice(buf[..], o);
    assert r[3] == buf[o + 3] && r[7] == buf[o + 7] && r[11] == buf[o + 11] && r[15] == buf[o + 15];
  }

  lemma SubRowsPlaced(s: seq<bv8>, r: seq<bv8>)
    requires |s| == |r| == 16
    requires r[0] == Sbox(s[0]) && r[1] == Sbox(s[5]) && r[2] == Sbox(s[10]) && r[3] == Sbox(s[15])
    requires r[4] == Sbox(s[4]) && r[5] == Sbox(s[9]) && r[6] == Sbox(s[14]) && r[7] == Sbox(s[3])
    requires r[8] == Sbox(s[8]) && r[9] == Sbox(s[13]) && r[10] == Sbox(s[2]) && r[11] == Sbox(s[7])
    requires r[12] == Sbox(s[12]) && r[13] == Sbox(s[1]) && r[14] == Sbox(s[6]) && r[15] == Sbox(s[11])
    ensures r == SubShift(s)
  {
    hide Sbox;
    forall i: nat | i < 16 ensures r[i] == Sbox(s[From(i)]) {
    }
    hide From;
  }

  /** subshiftrows */
  method SubShiftRows(buf: array<bv8>, o: nat)
    requires o + 16 <= buf.Length
    modifies buf
    ensures buf[..] == Splice(old(buf[..]), o, SubShift(Slice(old(buf[..]), o)))
  {
    hide *;
    ghost var s := buf[..];
    SubRow0(buf, o);
    ghost var s1 := buf[..];
    SubRow1(buf, o);
    ghost var s2 := buf[..];
    ApartTwice(s, s1, s2, o);
    SubRow2(buf, o);
    ghost var s3 := buf[..];
    ApartTwice(s, s2, s3, o);
    SubRow3(buf, o);
    ApartTwice(s, s3, buf[..], o);
    SubRowsPlaced(Slice(s, o), Slice(buf[..], o));
    ApartIsSplice(s, buf[..], o);
  }

  // the rows of subshiftrows_inv

  method UnsubRow0(buf: array<bv8>, o: nat)
    requires o + 16 <= buf.Length
    modifies buf
    ensures Apart(old(buf[..]), buf[..], o)
    ensures var s, r := Slice(old(buf[..]), o), Slice(buf[..], o);
            && r[0] == Rsbox(s[0]) && r[4] == Rsbox(s[4])
            && r[8] == Rsbox(s[8]) && r[12] == Rsbox(s[12])
            && forall i | 0 <= i < 16 && i != 0 && i != 4 && i != 8 && i != 12 :: r[i] == s[i]
  {
    hide Rsbox;
    ghost var s := Slice(buf[..], o);
    assert s[0] == buf[o + 0] && s[4] == buf[o + 4] && s[8] == buf[o + 8] && s[12] == buf[o + 12];
    buf[o] := Rsbox(buf[o]);
    buf[o + 4] := Rsbox(buf[o + 4]);
    buf[o + 8] := Rsbox(buf[o + 8]);
    buf[o + 12] := Rsbox(buf[o + 12]);
    ghost var r := Slice(buf[..], o);
    assert r[0] == buf[o + 0] && r[4] == buf[o + 4] && r[8] == buf[o + 8] && r[12] == buf[o + 12];
  }

  method UnsubRow1(buf: array<bv8>, o: nat)
    requires o + 16 <= buf.Length
    modifies buf
    ensures Apart(old(buf[..]), buf[..], o)
    ensures var s, r := Slice(old(buf[..]), o), Slice(buf[..], o);
            && r[1] == Rsbox(s[13]) && r[5] == Rsbox(s[1])
            && r[9] == Rsbox(s[5]) && r[13] == Rsbox(s[9])
            && forall i | 0 <= i < 16 && i != 1 && i != 5 && i != 9 && i != 13 :: r[i] == s[i]
  {
    hide Rsbox;
    ghost var s := Slice(buf[..], o);
    assert s[1] == buf[o + 1] && s[5] == buf[o + 5] && s[9] == buf[o + 9] && s[13] == buf[o + 13];
    var tmp := Rsbox(buf[o + 13]);
    buf[o + 13] := Rsbox(buf[o + 9]);
    buf[o + 9] := Rsbox(buf[o + 5]);
    buf[o + 5] := Rsbox(buf[o + 1]);
    buf[o + 1] := tmp;
    ghost var r := Slice(buf[..], o);
    assert r[1] == buf[o + 1] && r[5] == buf[o + 5] && r[9] == buf[o + 9] && r[13] == buf[o + 13];
  }

  method UnsubRow2(buf: array<bv8>, o: nat)
    requires o + 16 <= buf.Length
    modifies buf
    ensures Apart(old(buf[..]), buf[..], o)
    ensures var s, r := Slice(old(buf[..]), o), Slice(buf[..], o);
            && r[2] == Rsbox(s[10]) && r[6] == Rsbox(s[14])
            && r[10] == Rsbox(s[2]) && r[14] == Rsbox(s[6])
            && forall i | 0 <= i < 16 && i != 2 && i != 6 && i != 10 && i != 14 :: r[i] == s[i]
  {
    hide Rsbox;
    ghost var s := Slice(buf[..], o);
    assert s[2] == buf[o + 2] && s[6] == buf[o + 6] && s[10] == buf[o + 10] && s[14] == buf[o + 14];
    var tmp := Rsbox(buf[o + 10]);
    buf[o + 10] := Rsbox(buf[o + 2]);
    buf[o + 2] := tmp;
    tmp := Rsbox(buf[o + 14]);
    buf[o + 14] := Rsbox(buf[o + 6]);
    buf[o + 6] := tmp;
    ghost var r := Slice(buf[..], o);
    assert r[2] == buf[o + 2] && r[6] == buf[o + 6] && r[10] == buf[o + 10] && r[14] == buf[o + 14];
  }

  method UnsubRow3(buf: array<bv8>, o: nat)
    requires o + 16 <= buf.Length
    modifies buf
    ensures Apart(old(buf[..]), buf[..], o)
    ensures var s, r := Slice(old(buf[..]), o), Slice(buf[..], o);
            && r[3] == Rsbox(s[7]) && r[7] == Rsbox(s[11])
            && r[11] == Rsbox(s[15]) && r[15] == Rsbox(s[3])
            && forall i | 0 <= i < 16 && i != 3 && i != 7 && i != 11 && i != 15 :: r[i] == s[i]
  {
    hide Rsbox;
    ghost var s := Slice(buf[..], o);
    assert s[3] == buf[o + 3] && s[7] == buf[o + 7] && s[11] == buf[o + 11] && s[15] == buf[o + 15];
    var tmp := Rsbox(buf[o + 11]);
    buf[o + 11] := Rsbox(buf[o + 15]);
    buf[o + 15] := Rsbox(buf[o + 3]);
    buf[o + 3] := Rsbox(buf[o + 7]);
    buf[o + 7] := tmp;
    ghost var r := Slice(buf[..], o);
    assert r[3] == buf[o + 3] && r[7] == buf[o + 7] && r[11] == buf[o + 11] && r[15] == buf[o + 15];
  }

  lemma UnsubRowsPlaced(s: seq<bv8>, r: seq<bv8>)
    requires |s| == |r| == 16
    requires r[0] == Rsbox(s[0]) && r[1] == Rsbox(s[13]) && r[2] == Rsbox(s[10]) && r[3] == Rsbox(s[7])
    requires r[4] == Rsbox(s[4]) && r[5] == Rsbox(s[1]) && r[6] == Rsbox(s[14]) && r[7] == Rsbox(s[11])
    requires r[8] == Rsbox(s[8]) && r[9] == Rsbox(s[5]) && r[10] == Rsbox(s[2]) && r[11] == Rsbox(s[15])
    requires r[12] == Rsbox(s[12]) && r[13] == Rsbox(s[9]) && r[14] == Rsbox(s[6]) && r[15] == Rsbox(s[3])
    ensures r == SubShiftInv(s)
  {
    hide Rsbox;
    forall i: nat | i < 16 ensures r[i] == Rsbox(s[Back(i)]) {
    }
    hide Back;
  }

  /** subshiftrows_inv */
  method SubShiftRowsInv(buf: array<bv8>, o: nat)
    requires o + 16 <= buf.Length
    modifies buf
    ensures buf[..] == Splice(old(buf[..]), o, SubShiftInv(Slice(old(buf[..]), o)))
  {
    hide *;
    ghost var s := buf[..];
    UnsubRow0(buf, o);
    ghost var s1 := buf[..];
    UnsubRow1(buf, o);
    ghost var s2 := buf[..];
    ApartTwice(s, s1, s2, o);
    UnsubRow2(buf, o);
    ghost var s3 := buf[..];
    ApartTwice(s, s2, s3, o);
    UnsubRow3(buf, o);
    ApartTwice(s, s3, buf[..], o);
    UnsubRowsPlaced(Slice(s, o), Slice(buf[..], o));
    ApartIsSplice(s, buf[..], o);
  }

  lemma ApartItself(s: seq<bv8>, o: nat)
    requires o + 16 <= |s|
    ensures Apart(s, s, o)
  {
  }

  /** Block b with its first i bytes mixed. */
  function MixedTo(b: seq<bv8>, i: nat): (r: seq<bv8>)
    requires |b| == 16 && i <= 16
    ensures |r| == 16
  {
    MixColumns(b)[..i] + b[i..]
  }

  lemma MixStep(b: seq<bv8>, i: nat)
    requires |b| == 16 && i in {0, 4, 8, 12}
    ensures i + 4 <= 16
    ensures var m := MixedTo(b, i); m[..i] + MixColumn(m, i) + m[i + 4..] == MixedTo(b, i + 4)
  {
    hide Mix;
    var m := MixedTo(b, i);
    assert m[i] == b[i] && m[i + 1] == b[i + 1] && m[i + 2] == b[i + 2] && m[i + 3] == b[i + 3];
    assert MixColumn(m, i) == MixColumn(b, i);
    hide MixColumn;
    assert MixColumns(b)[i..i + 4] == MixColumn(b, i);
    assert MixColumns(b)[..i + 4] == MixColumns(b)[..i] + MixColumns(b)[i..i + 4];
  }

  lemma MixEnds(b: seq<bv8>)
    requires |b| == 16
    ensures MixedTo(b, 0) == b && MixedTo(b, 16) == MixColumns(b)
  {
    hide MixColumn;
  }

  lemma MixPlaced(b: seq<bv8>, r: seq<bv8>, i: nat)
    requires |b| == |r| == 16 && i + 4 <= 16
    requires r[i] == Mix(b[i], b[i + 1], b[i + 2], b[i + 3]) && r[i + 1] == Mix(b[i + 1], b[i + 2], b[i + 3], b[i])
    requires r[i + 2] == Mix(b[i + 2], b[i + 3], b[i], b[i + 1]) && r[i + 3] == Mix(b[i + 3], b[i], b[i + 1], b[i + 2])
    requires r[..i] == b[..i] && r[i + 4..] == b[i + 4..]
    ensures r == b[..i] + MixColumn(b, i) + b[i + 4..]
  {
    hide Mix;
    assert r[i..i + 4] == MixColumn(b, i);
    assert r == r[..i] + r[i..i + 4] + r[i + 4..];
  }

  /** One column of mixcolumns. */
  method MixOne(buf: array<bv8>, o: nat, i: nat)
    requires o + 16 <= buf.Length && i + 4 <= 16
    modifies buf
    ensures Apart(old(buf[..]), buf[..], o)
    ensures var s := Slice(old(buf[..]), o); Slice(buf[..], o) == s[..i] + MixColumn(s, i) + s[i + 4..]
  {
    hide Mix;
    ghost var b := Slice(buf[..], o);
    assert buf[o + i] == b[i] && buf[o + i + 1] == b[i + 1] && buf[o + i + 2] == b[i + 2] && buf[o + i + 3] == b[i + 3];
    var t0, t1, t2, t3 := buf[o + i], buf[o + i + 1], buf[o + i + 2], buf[o + i + 3];
    buf[o + i] := Mix(t0, t1, t2, t3);
    buf[o + i + 1] := Mix(t1, t2, t3, t0);
    buf[o + i + 2] := Mix(t2, t3, t0, t1);
    buf[o + i + 3] := Mix(t3, t0, t1, t2);
    MixPlaced(b, Slice(buf[..], o), i);
  }

  /** mixcolumns */
  method MixColumnsInPlace(buf: array<bv8>, o: nat)
    requires o + 16 <= buf.Length
    modifies buf
    ensures buf[..] == Splice(old(buf[..]), o, MixColumns(Slice(old(buf[..]), o)))
  {
    hide *;
    ghost var s := buf[..];
    ghost var b := Slice(s, o);
    ApartItself(s, o);
    MixEnds(b);
    var i: nat := 0;
    while i < 16
      invariant i in {0, 4, 8, 12, 16}
      invariant buf.Length == |s| && Apart(s, buf[..], o) && Slice(buf[..], o) == MixedTo(b, i)
      decreases 16 - i
    {
      ghost var s1 := buf[..];
      MixStep(b, i);
      MixOne(buf, o, i);
      ApartTwice(s, s1, buf[..], o);
      i := i + 4;
    }
    ApartIsSplice(s, buf[..], o);
  }

  /** Block b with its first i bytes unmixed. */
  function UnmixedTo(b: seq<bv8>, i: nat): (r: seq<bv8>)
    requires |b| == 16 && i <= 16
    ensures |r| == 16
  {
    MixColumnsInv(b)[..i] + b[i..]
  }

  lemma UnmixStep(b: seq<bv8>, i: nat)
    requires |b| == 16 && i in {0, 4, 8, 12}
    ensures i + 4 <= 16
    ensures var m := UnmixedTo(b, i); m[..i] + UnmixColumn(m, i) + m[i + 4..] == UnmixedTo(b, i + 4)
  {
    hide Unmix;
    var m := UnmixedTo(b, i);
    assert m[i] == b[i] && m[i + 1] == b[i + 1] && m[i + 2] == b[i + 2] && m[i + 3] == b[i + 3];
    assert UnmixColumn(m, i) == UnmixColumn(b, i);
    hide UnmixColumn;
    assert MixColumnsInv(b)[i..i + 4] == UnmixColumn(b, i);
    assert MixColumnsInv(b)[..i + 4] == MixColumnsInv(b)[..i] + MixColumnsInv(b)[i..i + 4];
  }

  lemma UnmixEnds(b: seq<bv8>)
    requires |b| == 16
    ensures UnmixedTo(b, 0) == b && UnmixedTo(b, 16) == MixColumnsInv(b)
  {
    hide UnmixColumn;
  }

  lemma UnmixPlaced(b: seq<bv8>, r: seq<bv8>, i: nat)
    requires |b| == |r| == 16 && i + 4 <= 16
    requires r[i] == Unmix(b[i], b[i + 1], b[i + 2], b[i + 3]) && r[i + 1] == Unmix(b[i + 1], b[i + 2], b[i + 3], b[i])
    requires r[i + 2] == Unmix(b[i + 2], b[i + 3], b[i], b[i + 1])
    requires r[i + 3] == Unmix(b[i + 3], b[i], b[i + 1], b[i + 2])
    requires r[..i] == b[..i] && r[i + 4..] == b[i + 4..]
    ensures r == b[..i] + UnmixColumn(b, i) + b[i + 4..]
  {
    hide Unmix;
    assert r[i..i + 4] == UnmixColumn(b, i);
    assert r == r[..i] + r[i..i + 4] + r[i + 4..];
  }

  /** One column of mixcolumns_inv. */
  method UnmixOne(buf: array<bv8>, o: nat, i: nat)
    requires o + 16 <= buf.Length && i + 4 <= 16
    modifies buf
    ensures Apart(old(buf[..]), buf[..], o)
    ensures var s := Slice(old(buf[..]), o); Slice(buf[..], o) == s[..i] + UnmixColumn(s, i) + s[i + 4..]
  {
    hide Unmix;
    ghost var b := Slice(buf[..], o);
    assert buf[o + i] == b[i] && buf[o + i + 1] == b[i + 1] && buf[o + i + 2] == b[i + 2] && buf[o + i + 3] == b[i + 3];
    var t0, t1, t2, t3 := buf[o + i], buf[o + i + 1], buf[o + i + 2], buf[o + i + 3];
    buf[o + i] := Unmix(t0, t1, t2, t3);
    buf[o + i + 1] := Unmix(t1, t2, t3, t0);
    buf[o + i + 2] := Unmix(t2, t3, t0, t1);
    buf[o + i + 3] := Unmix(t3, t0, t1, t2);
    UnmixPlaced(b, Slice(buf[..], o), i);
  }

  /** mixcolumns_inv */
  method MixColumnsInvInPlace(buf: array<bv8>, o: nat)
    requires o + 16 <= buf.Length
    modifies buf
    ensures buf[..] == Splice(old(buf[..]), o, MixColumnsInv(Slice(old(buf[..]), o)))
  {
    hide *;
    ghost var s := buf[..];
    ghost var b := Slice(s, o);
    ApartItself(s, o);
    UnmixEnds(b);
    var i: nat := 0;
    while i < 16
      invariant i in {0, 4, 8, 12, 16}
      invariant buf.Length == |s| && Apart(s, buf[..], o) && Slice(buf[..], o) == UnmixedTo(b, i)
      decreases 16 - i
    {
      ghost var s1 := buf[..];
      UnmixStep(b, i);
      UnmixOne(buf, o, i);
      ApartTwice(s, s1, buf[..], o);
      i := i + 4;
    }
    ApartIsSplice(s, buf[..], o);
  }

  /** xorblock */
  method XorBlock(buf: array<bv8>, o: nat, key: seq<bv8>)
    requires o + 16 <= buf.Length && |key| == 16
    modifies buf
    ensures buf[..] == Splice(old(buf[..]), o, Xor(Slice(old(buf[..]), o), key))
  {
    ghost var s := buf[..];
    var i := 0;
    while i < 16
      invariant 0 <= i <= 16 && Apart(s, buf[..], o)
      invariant forall j | 0 <= j < i :: Slice(buf[..], o)[j] == Add(Slice(s, o)[j], key[j])
      invariant forall j | i <= j < 16 :: Slice(buf[..], o)[j] == Slice(s, o)[j]
    {
      buf[o + i] := Add(buf[o + i], key[i]);
      i := i + 1;
      hide Add;
    }
    assert Slice(buf[..], o) == Xor(Slice(s, o), key);
    ApartIsSplice(s, buf[..], o);
    hide Add;
  }

  lemma RoundsNext(rk: seq<bv32>, n: nat, b: seq<bv8>)
    requires |rk| == 44 && |b| == 16
    ensures Rounds(rk, 0, b) == b
    ensures 1 <= n <= 9 ==> Rounds(rk, n, b) == Xor(MixColumns(SubShift(Rounds(rk, n - 1, b))), RoundKey(rk, n))
  {
    hide Xor, MixColumns, SubShift, RoundKey;
  }

  lemma EncryptedIs(rk: seq<bv32>, b: seq<bv8>)
    requires |rk| == 44 && |b| == 16
    ensures Encrypted(rk, b) == Xor(SubShift(Rounds(rk, 9, Xor(b, RoundKey(rk, 0)))), RoundKey(rk, 10))
  {
    hide Xor, SubShift, RoundKey, Rounds;
  }

  /** aes128_enc */
  method Encrypt(rk: seq<bv32>, buf: array<bv8>, o: nat)
    requires |rk| == 44 && o + 16 <= buf.Length
    modifies buf
    ensures buf[..] == Splice(old(buf[..]), o, Encrypted(rk, Slice(old(buf[..]), o)))
  {
    hide *;
    ghost var s := buf[..];
    XorBlock(buf, o, RoundKey(rk, 0));
    ghost var x := Xor(Slice(s, o), RoundKey(rk, 0));
    RoundsNext(rk, 0, x);
    var i := 1;
    while i <= 9
      invariant 1 <= i <= 10 && buf.Length == |s| && buf[..] == Splice(s, o, Rounds(rk, i - 1, x))
    {
      EncryptRound(rk, buf, o, i, s, Rounds(rk, i - 1, x));
      RoundsNext(rk, i, x);
      i := i + 1;
    }
    ghost var y := Rounds(rk, 9, x);
    SpliceSlice(s, o, y, SubShift(y));
    SubShiftRows(buf, o);
    SpliceSlice(s, o, SubShift(y), Xor(SubShift(y), RoundKey(rk, 10)));
    XorBlock(buf, o, RoundKey(rk, 10));
    EncryptedIs(rk, Slice(s, o));
  }

  /** One round of aes128_enc. */
  method EncryptRound(rk: seq<bv32>, buf: array<bv8>, o: nat, i: nat, ghost s: seq<bv8>, ghost b: seq<bv8>)
    requires |rk| == 44 && 1 <= i <= 9 && o + 16 <= buf.Length == |s| && |b| == 16 && buf[..] == Splice(s, o, b)
    modifies buf
    ensures buf[..] == Splice(s, o, Xor(MixColumns(SubShift(b)), RoundKey(rk, i)))
  {
    hide *;
    ghost var c, d, e := SubShift(b), MixColumns(SubShift(b)), Xor(MixColumns(SubShift(b)), RoundKey(rk, i));
    SpliceSlice(s, o, b, c);
    SubShiftRows(buf, o);
    SpliceSlice(s, o, c, d);
    MixColumnsInPlace(buf, o);
    SpliceSlice(s, o, d, e);
    XorBlock(buf, o, RoundKey(rk, i));
  }

  lemma UnroundsNext(rk: seq<bv32>, n: nat, b: seq<bv8>)
    requires |rk| == 44 && |b| == 16
    ensures Unrounds(rk, 0, b) == b
    ensures 1 <= n <= 9 ==>
              Unrounds(rk, n, b) == Unrounds(rk, n - 1, SubShiftInv(MixColumnsInv(Xor(b, RoundKey(rk, n)))))
  {
    hide Xor, MixColumnsInv, SubShiftInv, RoundKey;
  }

  lemma DecryptedIs(rk: seq<bv32>, b: seq<bv8>)
    requires |rk| == 44 && |b| == 16
    ensures Decrypted(rk, b) == Xor(Unrounds(rk, 9, SubShiftInv(Xor(b, RoundKey(rk, 10)))), RoundKey(rk, 0))
  {
    hide Xor, SubShiftInv, RoundKey, Unrounds;
  }

  /** aes128_dec */
  method Decrypt(rk: seq<bv32>, buf: array<bv8>, o: nat)
    requires |rk| == 44 && o + 16 <= buf.Length
    modifies buf
    ensures buf[..] == Splice(old(buf[..]), o, Decrypted(rk, Slice(old(buf[..]), o)))
  {
    hide *;
    ghost var s := buf[..];
    ghost var x := Xor(Slice(s, o), RoundKey(rk, 10));
    XorBlock(buf, o, RoundKey(rk, 10));
    SpliceSlice(s, o, x, SubShiftInv(x));
    SubShiftRowsInv(buf, o);
    ghost var y := SubShiftInv(x);
    var i := 9;
    while i >= 1
      invariant 0 <= i <= 9 && buf.Length == |s| && |y| == 16 && buf[..] == Splice(s, o, y)
      invariant Unrounds(rk, i, y) == Unrounds(rk, 9, SubShiftInv(x))
    {
      DecryptRound(rk, buf, o, i, s, y);
      UnroundsNext(rk, i, y);
      y := SubShiftInv(MixColumnsInv(Xor(y, RoundKey(rk, i))));
      i := i - 1;
    }
    UnroundsNext(rk, 0, y);
    SpliceSlice(s, o, y, Xor(y, RoundKey(rk, 0)));
    XorBlock(buf, o, RoundKey(rk, 0));
    DecryptedIs(rk, Slice(s, o));
  }

  /** One round of aes128_dec. */
  method DecryptRound(rk: seq<bv32>, buf: array<bv8>, o: nat, i: nat, ghost s: seq<bv8>, ghost b: seq<bv8>)
    requires |rk| == 44 && 1 <= i <= 9 && o + 16 <= buf.Length == |s| && |b| == 16 && buf[..] == Splice(s, o, b)
    modifies buf
    ensures buf[..] == Splice(s, o, SubShiftInv(MixColumnsInv(Xor(b, RoundKey(rk, i)))))
  {
    hide *;
    ghost var c, d, e := Xor(b, RoundKey(rk, i)), MixColumnsInv(Xor(b, RoundKey(rk, i))),
      SubShiftInv(MixColumnsInv(Xor(b, RoundKey(rk, i))));
    SpliceSlice(s, o, b, c);
    XorBlock(buf, o, RoundKey(rk, i));
    SpliceSlice(s, o, c, d);
    MixColumnsInvInPlace(buf, o);
    SpliceSlice(s, o, d, e);
    SubShiftRowsInv(buf, o);
  }

  // ---------------------------------------------------------------- chaining in place

  /** Encryption has got to block n: c is chained so far, and the plain text from there on. */
  ghost predicate ChainedTo(rk: seq<bv32>, iv: seq<bv8>, p: seq<bv8>, c: seq<bv8>, n: nat)
    requires |rk| == 44 && |iv| == 16
  {
    |c| == |p| && Blocks(p) && n <= NumBlocks(p)
    && (forall k: nat {:trigger Slice(c, 16 * k)} | k < n ::
          Slice(c, 16 * k) == Encrypted(rk, Xor(Slice(p, 16 * k), Previous(iv, c, 16 * k))))
    && forall j | 16 * n <= j < |p| :: c[j] == p[j]
  }

  lemma ChainedStarts(rk: seq<bv32>, iv: seq<bv8>, p: seq<bv8>)
    requires |rk| == 44 && |iv| == 16 && Blocks(p)
    ensures ChainedTo(rk, iv, p, p, 0) && |p| == 16 * NumBlocks(p) && NumBlocks(p) >= 1
  {
    BlocksFit(p);
  }

  lemma SliceElsewhere(c: seq<bv8>, o: nat, b: seq<bv8>, l: nat)
    requires o + 16 <= |c| && l + 16 <= |c| && |b| == 16 && (l + 16 <= o || o + 16 <= l)
    ensures Slice(Splice(c, o, b), l) == Slice(c, l)
  {
  }

  lemma ChainedStep(rk: seq<bv32>, iv: seq<bv8>, p: seq<bv8>, c: seq<bv8>, n: nat)
    requires |rk| == 44 && |iv| == 16 && ChainedTo(rk, iv, p, c, n) && n < NumBlocks(p)
    ensures 16 * n + 16 <= |c|
    ensures ChainedTo(rk, iv, p, Splice(c, 16 * n, Encrypted(rk, Xor(Slice(c, 16 * n), Previous(iv, c, 16 * n)))),
                      n + 1)
  {
    hide Encrypted, Xor;
    BlocksFit(p);
    hide NumBlocks, Blocks;
    var e := Encrypted(rk, Xor(Slice(c, 16 * n), Previous(iv, c, 16 * n)));
    var c1 := Splice(c, 16 * n, e);
    assert Slice(c, 16 * n) == Slice(p, 16 * n);
    SpliceSlice(c, 16 * n, e, e);
    forall k: nat | k < n + 1
      ensures Slice(c1, 16 * k) == Encrypted(rk, Xor(Slice(p, 16 * k), Previous(iv, c1, 16 * k)))
    {
      if k > 0 { SliceElsewhere(c, 16 * n, e, 16 * (k - 1)); }
      if k < n {
        SliceElsewhere(c, 16 * n, e, 16 * k);
        assert Slice(c, 16 * k) == Slice(c, 16 * k);
      }
      hide Slice, Splice;
    }
  }

  lemma ChainedEnds(rk: seq<bv32>, iv: seq<bv8>, p: seq<bv8>, c: seq<bv8>)
    requires |rk| == 44 && |iv| == 16 && ChainedTo(rk, iv, p, c, NumBlocks(p))
    ensures Chained(rk, iv, p, c)
  {
    hide Encrypted, Xor, Previous, Slice;
  }

  /** xorblock and aes128_enc on one block. */
  method EncryptWith(rk: seq<bv32>, buf: array<bv8>, o: nat, v: seq<bv8>)
    requires |rk| == 44 && o + 16 <= buf.Length && |v| == 16
    modifies buf
    ensures buf[..] == Splice(old(buf[..]), o, Encrypted(rk, Xor(Slice(old(buf[..]), o), v)))
  {
    hide *;
    ghost var s := buf[..];
    ghost var x := Xor(Slice(s, o), v);
    XorBlock(buf, o, v);
    SpliceSlice(s, o, x, Encrypted(rk, x));
    Encrypt(rk, buf, o);
  }

  /** aes128_cbc_enc, on a buffer of whole blocks */
  method CbcEncrypt(rk: seq<bv32>, iv: seq<bv8>, buf: array<bv8>)
    requires |rk| == 44 && |iv| == 16 && Blocks(buf[..])
    modifies buf
    ensures Chained(rk, iv, old(buf[..]), buf[..])
  {
    hide *;
    ghost var p := buf[..];
    ChainedStarts(rk, iv, p);
    ChainedStep(rk, iv, p, p, 0);
    PreviousIs(iv, p, 0);
    EncryptWith(rk, buf, 0, iv);
    var i: nat := 16;
    ghost var n: nat := 1;
    while i < buf.Length
      invariant i == 16 * n && n <= NumBlocks(p) && buf.Length == |p| && ChainedTo(rk, iv, p, buf[..], n)
    {
      ChainedStep(rk, iv, p, buf[..], n);
      PreviousIs(iv, buf[..], i);
      EncryptWith(rk, buf, i, Slice(buf[..], i - 16));
      i, n := i + 16, n + 1;
    }
    ChainedEnds(rk, iv, p, buf[..]);
  }

  lemma PreviousIs(iv: seq<bv8>, c: seq<bv8>, o: nat)
    requires |iv| == 16 && o + 16 <= |c|
    ensures o == 0 ==> Previous(iv, c, o) == iv
    ensures o >= 16 ==> Previous(iv, c, o) == Slice(c, o - 16)
  {
  }

  /** Decryption has come down to block n: q is unchained from there on, and still cipher text below. */
  ghost predicate UnchainedFrom(rk: seq<bv32>, iv: seq<bv8>, c: seq<bv8>, q: seq<bv8>, n: nat)
    requires |rk| == 44 && |iv| == 16
  {
    |q| == |c| && Blocks(c) && n <= NumBlocks(c)
    && (forall k: nat {:trigger Slice(q, 16 * k)} | n <= k < NumBlocks(c) ::
          Slice(q, 16 * k) == Xor(Decrypted(rk, Slice(c, 16 * k)), Previous(iv, c, 16 * k)))
    && forall j | 0 <= j < 16 * n && j < |c| :: q[j] == c[j]
  }

  lemma UnchainedStarts(rk: seq<bv32>, iv: seq<bv8>, c: seq<bv8>)
    requires |rk| == 44 && |iv| == 16 && Blocks(c)
    ensures UnchainedFrom(rk, iv, c, c, NumBlocks(c)) && |c| == 16 * NumBlocks(c) && NumBlocks(c) >= 1
  {
    BlocksFit(c);
  }

  lemma UnchainedStep(rk: seq<bv32>, iv: seq<bv8>, c: seq<bv8>, q: seq<bv8>, n: nat)
    requires |rk| == 44 && |iv| == 16 && UnchainedFrom(rk, iv, c, q, n + 1)
    ensures 16 * n + 16 <= |q|
    ensures UnchainedFrom(rk, iv, c, Splice(q, 16 * n, Xor(Decrypted(rk, Slice(q, 16 * n)), Previous(iv, q, 16 * n))),
                          n)
  {
    hide Decrypted, Xor;
    BlocksFit(c);
    hide NumBlocks, Blocks;
    var e := Xor(Decrypted(rk, Slice(q, 16 * n)), Previous(iv, q, 16 * n));
    var q1 := Splice(q, 16 * n, e);
    assert Slice(q, 16 * n) == Slice(c, 16 * n);
    if n > 0 { assert Slice(q, 16 * (n - 1)) == Slice(c, 16 * (n - 1)); }
    SpliceSlice(q, 16 * n, e, e);
    forall k: nat | n <= k < NumBlocks(c)
      ensures Slice(q1, 16 * k) == Xor(Decrypted(rk, Slice(c, 16 * k)), Previous(iv, c, 16 * k))
    {
      if k > n {
        SliceElsewhere(q, 16 * n, e, 16 * k);
        assert Slice(q, 16 * k) == Slice(q, 16 * k);
      }
      hide Slice, Splice;
    }
  }

  lemma UnchainedEnds(rk: seq<bv32>, iv: seq<bv8>, c: seq<bv8>, q: seq<bv8>)
    requires |rk| == 44 && |iv| == 16 && UnchainedFrom(rk, iv, c, q, 0)
    ensures Unchained(rk, iv, c, q)
  {
    hide Decrypted, Xor, Previous, Slice;
  }

  /** aes128_dec and xorblock on one block. */
  method DecryptWith(rk: seq<bv32>, buf: array<bv8>, o: nat, v: seq<bv8>)
    requires |rk| == 44 && o + 16 <= buf.Length && |v| == 16
    modifies buf
    ensures buf[..] == Splice(old(buf[..]), o, Xor(Decrypted(rk, Slice(old(buf[..]), o)), v))
  {
    hide *;
    ghost var s := buf[..];
    ghost var x := Decrypted(rk, Slice(s, o));
    Decrypt(rk, buf, o);
    SpliceSlice(s, o, x, Xor(x, v));
    XorBlock(buf, o, v);
  }

  /** aes128_cbc_dec, from the last block back to the first */
  method CbcDecrypt(rk: seq<bv32>, iv: seq<bv8>, buf: array<bv8>)
    requires |rk| == 44 && |iv| == 16 && Blocks(buf[..])
    modifies buf
    ensures Unchained(rk, iv, old(buf[..]), buf[..])
  {
    hide *;
    ghost var c := buf[..];
    UnchainedStarts(rk, iv, c);
    ghost var n: nat := NumBlocks(c) - 1;
    var i: nat := buf.Length - 16;
    while i >= 16
      invariant i == 16 * n && n < NumBlocks(c) && buf.Length == |c| && UnchainedFrom(rk, iv, c, buf[..], n + 1)
    {
      UnchainedStep(rk, iv, c, buf[..], n);
      PreviousIs(iv, buf[..], i);
      DecryptWith(rk, buf, i, Slice(buf[..], i - 16));
      i, n := i - 16, n - 1;
    }
    UnchainedStep(rk, iv, c, buf[..], 0);
    PreviousIs(iv, buf[..], 0);
    DecryptWith(rk, buf, 0, iv);
    UnchainedEnds(rk, iv, c, buf[..]);
  }

  /** Decrypting in place what was encrypted in place gives back the buffer. */
  method CbcRoundTrip(rk: seq<bv32>, iv: seq<bv8>, buf: array<bv8>)
    requires |rk| == 44 && |iv| == 16 && Blocks(buf[..])
    modifies buf
    ensures buf[..] == old(buf[..])
  {
    hide *;
    ghost var p := buf[..];
    CbcEncrypt(rk, iv, buf);
    ghost var c := buf[..];
    ChainedBlocks(rk, iv, p, c);
    CbcDecrypt(rk, iv, buf);
    UnchainsChained(rk, iv, p, c, buf[..]);
  }

  lemma ChainedBlocks(rk: seq<bv32>, iv: seq<bv8>, p: seq<bv8>, c: seq<bv8>)
    requires |rk| == 44 && |iv| == 16 && Chained(rk, iv, p, c)
    ensures Blocks(c)
  {
  }

  // ---------------------------------------------------------------- key expansion

  const RC: seq<bv32> := [0x01, 0x02, 0x04, 0x08, 0x10, 0x20, 0x40, 0x80, 0x1b, 0x36]

  /** A word from its bytes in memory. */
  function WordOf(b0: bv8, b1: bv8, b2: bv8, b3: bv8): bv32 {
    (b0 as bv32) | ((b1 as bv32) << 8) | ((b2 as bv32) << 16) | ((b3 as bv32) << 24)
  }

  function SubWord(w: bv32): bv32 {
    WordOf(Sbox(ByteOf(w, 0)), Sbox(ByteOf(w, 1)), Sbox(ByteOf(w, 2)), Sbox(ByteOf(w, 3)))
  }

  function RotWord(w: bv32): bv32 {
    (w >> 8) | (w << 24)
  }

  /** RotWord of FIPS 197, section 5.2: every byte of the word moves down one place. */
  lemma RotWordIs(w: bv32)
    ensures ByteOf(RotWord(w), 0) == ByteOf(w, 1) && ByteOf(RotWord(w), 1) == ByteOf(w, 2)
    ensures ByteOf(RotWord(w), 2) == ByteOf(w, 3) && ByteOf(RotWord(w), 3) == ByteOf(w, 0)
  {
  }

  function XorWord(x: bv32, y: bv32): bv32 {
    x ^ y
  }

  function RoundConstant(r: nat): bv32
    requires 1 <= r <= 10
  {
    RC[r - 1]
  }

  /** Word i of the key schedule, from the words before it. */
  function Schedule(w: seq<bv32>, i: nat): bv32
    requires 4 <= i < 44 && |w| == 44
  {
    if i % 4 == 0 then XorWord(XorWord(w[i - 4], SubWord(RotWord(w[i - 1]))), RoundConstant(i / 4))
       else XorWord(w[i - 4], w[i - 1])
  }

  /** The key schedule of FIPS 197, section 5.2, for a key of four words. */
  ghost predicate Expanded(key: seq<bv32>, w: seq<bv32>) {
    |key| == 4 && |w| == 44
    && (forall i | 0 <= i < 4 :: w[i] == key[i])
    && forall i {:trigger Schedule(w, i)} | 4 <= i < 44 :: w[i] == Schedule(w, i)
  }

  /** aes128_keyexpansion */
  method ExpandKey(key: seq<bv32>, rk: array<bv32>)
    requires |key| == 4 && rk.Length == 44
    modifies rk
    ensures Expanded(key, rk[..])
  {
    hide SubWord, RotWord, RoundConstant, XorWord, Schedule;
    rk[0], rk[1], rk[2], rk[3] := key[0], key[1], key[2], key[3];
    assert ExpandedTo(key, rk[..], 4);
    var i := 4;
    while i < 44
      invariant 4 <= i <= 44 && i % 4 == 0 && ExpandedTo(key, rk[..], i)
    {
      ghost var was := rk[..];
      ExpandFour(rk, i);
      ScheduleStep(key, was, rk[..], i);
      i := i + 4;
    }
  }

  /** One round of aes128_keyexpansion. */
  method ExpandFour(rk: array<bv32>, i: nat)
    requires rk.Length == 44 && 4 <= i <= 40 && i % 4 == 0
    modifies rk
    ensures forall j | 0 <= j < i :: rk[j] == old(rk[j])
    ensures rk[i] == XorWord(XorWord(rk[i - 4], SubWord(RotWord(rk[i - 1]))), RoundConstant(i / 4))
    ensures rk[i + 1] == XorWord(rk[i - 3], rk[i]) && rk[i + 2] == XorWord(rk[i - 2], rk[i + 1])
    ensures rk[i + 3] == XorWord(rk[i - 1], rk[i + 2])
  {
    hide SubWord, RotWord, RoundConstant, XorWord;
    rk[i] := XorWord(XorWord(rk[i - 4], SubWord(RotWord(rk[i - 1]))), RoundConstant(i / 4));
    rk[i + 1] := XorWord(rk[i - 3], rk[i]);
    rk[i + 2] := XorWord(rk[i - 2], rk[i + 1]);
    rk[i + 3] := XorWord(rk[i - 1], rk[i + 2]);
  }

  /** The first n words of the schedule are there. */
  ghost predicate ExpandedTo(key: seq<bv32>, w: seq<bv32>, n: nat) {
    |key| == 4 && |w| == 44
    && (forall i | 0 <= i < 4 :: w[i] == key[i])
    && forall i: nat {:trigger Schedule(w, i)} | 4 <= i < n && i < 44 :: w[i] == Schedule(w, i)
  }

  /** Four more words of the schedule. */
  lemma ScheduleStep(key: seq<bv32>, was: seq<bv32>, w: seq<bv32>, i: nat)
    requires ExpandedTo(key, was, i) && |w| == 44 && i % 4 == 0 && 4 <= i <= 40
    requires forall j | 0 <= j < i :: w[j] == was[j]
    requires w[i] == XorWord(XorWord(w[i - 4], SubWord(RotWord(w[i - 1]))), RoundConstant(i / 4))
    requires w[i + 1] == XorWord(w[i - 3], w[i]) && w[i + 2] == XorWord(w[i - 2], w[i + 1])
    requires w[i + 3] == XorWord(w[i - 1], w[i + 2])
    ensures ExpandedTo(key, w, i + 4)
  {
    hide SubWord, RotWord, RoundConstant, XorWord;
    assert w[i] == Schedule(w, i) && w[i + 1] == Schedule(w, i + 1) && w[i + 2] == Schedule(w, i + 2);
    assert w[i + 3] == Schedule(w, i + 3);
    forall j: nat | 4 <= j < i + 4 ensures w[j] == Schedule(w, j) {
      if j < i { SameSchedule(was, w, j); }
      hide Schedule;
    }
  }

  lemma SameSchedule(was: seq<bv32>, w: seq<bv32>, j: nat)
    requires |was| == |w| == 44 && 4 <= j < 44 && forall k | 0 <= k < j :: w[k] == was[k]
    ensures Schedule(w, j) == Schedule(was, j)
  {
    hide SubWord, RotWord, RoundConstant, XorWord;
  }

  // the schedule byte by byte

  lemma XorByte0(x: bv32, y: bv32)
    ensures ByteOf(XorWord(x, y), 0) == Add(ByteOf(x, 0), ByteOf(y, 0))
  {
  }

  lemma XorByte1(x: bv32, y: bv32)
    ensures ByteOf(XorWord(x, y), 1) == Add(ByteOf(x, 1), ByteOf(y, 1))
  {
  }

  lemma XorByte2(x: bv32, y: bv32)
    ensures ByteOf(XorWord(x, y), 2) == Add(ByteOf(x, 2), ByteOf(y, 2))
  {
  }

  lemma XorByte3(x: bv32, y: bv32)
    ensures ByteOf(XorWord(x, y), 3) == Add(ByteOf(x, 3), ByteOf(y, 3))
  {
  }

  lemma XorBytes(x: bv32, y: bv32, b: nat)
    requires b < 4
    ensures ByteOf(XorWord(x, y), b) == Add(ByteOf(x, b), ByteOf(y, b))
  {
    hide *;
    XorByte0(x, y);
    XorByte1(x, y);
    XorByte2(x, y);
    XorByte3(x, y);
  }

  lemma WordBytes(b0: bv8, b1: bv8, b2: bv8, b3: bv8)
    ensures var w := WordOf(b0, b1, b2, b3);
            ByteOf(w, 0) == b0 && ByteOf(w, 1) == b1 && ByteOf(w, 2) == b2 && ByteOf(w, 3) == b3
  {
  }

  /** The powers of the indeterminate that the round constants hold in their first byte. */
  function Rcon(r: nat): bv8
    requires 1 <= r
  {
    if r == 1 then 1 else Double(Rcon(r - 1))
  }

  lemma RoundConstantIs(r: nat)
    requires 1 <= r <= 10
    ensures RoundConstant(r) == WordOf(Rcon(r), 0, 0, 0)
  {
    assert Rcon(1) == 1 && Rcon(2) == 2 && Rcon(3) == 4 && Rcon(4) == 8 && Rcon(5) == 0x10;
    assert Rcon(6) == 0x20 && Rcon(7) == 0x40 && Rcon(8) == 0x80 && Rcon(9) == 0x1b && Rcon(10) == 0x36;
  }

  /** Byte b of word i in the key schedule of FIPS 197, section 5.2: the byte four words before, plus
      that of the word before, which every fourth word takes one place further on, substituted, and
      with the round constant added to the first byte. */
  function ScheduleByte(w: seq<bv32>, i: nat, b: nat): bv8
    requires 4 <= i < 44 && |w| == 44 && b < 4
  {
    if i % 4 != 0 then Add(ByteOf(w[i - 4], b), ByteOf(w[i - 1], b))
    else Add3(ByteOf(w[i - 4], b), Sbox(ByteOf(w[i - 1], (b + 1) % 4)), if b == 0 then Rcon(i / 4) else 0)
  }

  lemma SubRotBytes(w: bv32, b: nat)
    requires b < 4
    ensures ByteOf(SubWord(RotWord(w)), b) == Sbox(ByteOf(w, (b + 1) % 4))
  {
    RotWordIs(w);
    hide RotWord, ByteOf, Sbox, WordOf;
    var r := RotWord(w);
    WordBytes(Sbox(ByteOf(r, 0)), Sbox(ByteOf(r, 1)), Sbox(ByteOf(r, 2)), Sbox(ByteOf(r, 3)));
  }

  lemma FourthWordByte(w: bv32, v: bv32, r: nat, b: nat)
    requires 1 <= r <= 10 && b < 4
    ensures ByteOf(XorWord(XorWord(w, SubWord(RotWord(v))), RoundConstant(r)), b)
            == Add3(ByteOf(w, b), Sbox(ByteOf(v, (b + 1) % 4)), if b == 0 then Rcon(r) else 0)
  {
    hide *;
    var t := SubWord(RotWord(v));
    XorBytes(XorWord(w, t), RoundConstant(r), b);
    XorBytes(w, t, b);
    SubRotBytes(v, b);
    RoundConstantIs(r);
    WordBytes(Rcon(r), 0, 0, 0);
    Add3Is(ByteOf(w, b), Sbox(ByteOf(v, (b + 1) % 4)), if b == 0 then Rcon(r) else 0);
  }

  lemma Add3Is(x: bv8, y: bv8, z: bv8)
    ensures Add3(x, y, z) == Add(Add(x, y), z)
  {
    hide Add;
  }

  /** The expanded key is the schedule of the standard, byte by byte. */
  lemma ScheduleBytes(key: seq<bv32>, w: seq<bv32>, i: nat, b: nat)
    requires Expanded(key, w) && 4 <= i < 44 && b < 4
    ensures ByteOf(w[i], b) == ScheduleByte(w, i, b)
  {
    assert w[i] == Schedule(w, i);
    hide ByteOf, Sbox, WordOf, SubWord, RotWord, XorWord, RoundConstant, Expanded, Rcon, Add, Add3;
    if i % 4 == 0 { FourthWordByte(w[i - 4], w[i - 1], i / 4, b); } else { XorBytes(w[i - 4], w[i - 1], b); }
  }
}
