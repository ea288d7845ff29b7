/** The cipher and the inverse cipher of FIPS 197, sections 5.1 to 5.3, for 128-bit keys, on a state of
    rows and columns and a key of sixteen bytes, and that aes128.c computes them. */
module AesStandard {
  import opened AesField
  import opened AesTables
  import opened AesSbox
  import opened Aes

  // ---------------------------------------------------------------- the standard

  // The state holds its input column by column (section 3.4).

  function Row(i: nat): (r: nat)
    ensures r < 4
  {
    i % 4
  }

  function Col(i: nat): (c: nat)
    requires i < 16
    ensures c < 4
  {
    i / 4
  }

  /** The four rows, and the four columns, are numbered in a circle. */
  function Circle(k: nat): (r: nat)
    ensures r < 4
  {
    k % 4
  }

  /** Row r of column c. */
  function Cell(s: seq<bv8>, r: nat, c: nat): bv8
    requires |s| == 16 && r < 4 && c < 4
  {
    s[r + 4 * c]
  }

  function SubBytes(s: seq<bv8>): (t: seq<bv8>)
    requires |s| == 16
    ensures |t| == 16
  {
    seq(16, i requires 0 <= i < 16 => Sbox(Cell(s, Row(i), Col(i))))
  }

  /** Row r moves r columns to the left. */
  function ShiftRows(s: seq<bv8>): (t: seq<bv8>)
    requires |s| == 16
    ensures |t| == 16
  {
    seq(16, i requires 0 <= i < 16 => Cell(s, Row(i), Circle(Col(i) + Row(i))))
  }

  /** Row r of a column that is multiplied by the polynomial with coefficients a0, a1, a2 and a3. */
  function ColumnProduct(s: seq<bv8>, r: nat, c: nat, a0: bv8, a1: bv8, a2: bv8, a3: bv8): bv8
    requires |s| == 16 && r < 4 && c < 4
  {
    Sum4(Mul(Cell(s, r, c), a0), Mul(Cell(s, Circle(r + 1), c), a1), Mul(Cell(s, Circle(r + 2), c), a2),
         Mul(Cell(s, Circle(r + 3), c), a3))
  }

  /** Every column times 3 x^3 + x^2 + x + 2. */
  function MixedColumns(s: seq<bv8>): (t: seq<bv8>)
    requires |s| == 16
    ensures |t| == 16
  {
    seq(16, i requires 0 <= i < 16 => ColumnProduct(s, Row(i), Col(i), 2, 3, 1, 1))
  }

  /** The powers of the indeterminate in the round constants. */
  function Power(j: nat): bv8
    requires 1 <= j
  {
    if j == 1 then 1 else Mul(Power(j - 1), 2)
  }

  /** A byte of every fourth word of the expanded key: that of four words before, plus the next one of
      the word before, substituted, plus the round constant in the first byte. */
  function FourthByte(before: bv8, next: bv8, j: nat, r: nat): bv8
    requires 1 <= j
  {
    Add3(before, Sbox(next), if r == 0 then Power(j) else 0)
  }

  /** Byte r of word i of the expanded key (section 5.2). */
  function KeyByte(key: seq<bv8>, i: nat, r: nat): bv8
    requires |key| == 16 && r < 4
    decreases i
  {
    if i < 4 then key[4 * i + r]
    else if i % 4 == 0 then FourthByte(KeyByte(key, i - 4, r), KeyByte(key, i - 1, (r + 1) % 4), i / 4, r)
    else Add(KeyByte(key, i - 4, r), KeyByte(key, i - 1, r))
  }

  /** Column c of the state is added to word 4 * n + c of the expanded key. */
  function AddRoundKey(s: seq<bv8>, key: seq<bv8>, n: nat): (t: seq<bv8>)
    requires |s| == |key| == 16
    ensures |t| == 16
  {
    seq(16, i requires 0 <= i < 16 => Add(Cell(s, Row(i), Col(i)), KeyByte(key, 4 * n + Col(i), Row(i))))
  }

  /** The state behind round n, up to the ninth. */
  function AfterRound(key: seq<bv8>, input: seq<bv8>, n: nat): (t: seq<bv8>)
    requires |key| == |input| == 16
    ensures |t| == 16
  {
    if n == 0 then AddRoundKey(input, key, 0)
    else AddRoundKey(MixedColumns(ShiftRows(SubBytes(AfterRound(key, input, n - 1)))), key, n)
  }

  /** The cipher (section 5.1). */
  function Cipher(key: seq<bv8>, input: seq<bv8>): (t: seq<bv8>)
    requires |key| == |input| == 16
    ensures |t| == 16
  {
    AddRoundKey(ShiftRows(SubBytes(AfterRound(key, input, 9))), key, 10)
  }

  function InvSubBytes(s: seq<bv8>): (t: seq<bv8>)
    requires |s| == 16
    ensures |t| == 16
  {
    seq(16, i requires 0 <= i < 16 => Rsbox(Cell(s, Row(i), Col(i))))
  }

  /** Row r moves r columns to the right. */
  function InvShiftRows(s: seq<bv8>): (t: seq<bv8>)
    requires |s| == 16
    ensures |t| == 16
  {
    seq(16, i requires 0 <= i < 16 => Cell(s, Row(i), Circle(Col(i) + 4 - Row(i))))
  }

  /** Every column times 11 x^3 + 13 x^2 + 9 x + 14. */
  function InvMixedColumns(s: seq<bv8>): (t: seq<bv8>)
    requires |s| == 16
    ensures |t| == 16
  {
    seq(16, i requires 0 <= i < 16 => ColumnProduct(s, Row(i), Col(i), 14, 11, 13, 9))
  }

  /** The state before round n has been undone, from the last one down. */
  function BeforeUndoing(key: seq<bv8>, input: seq<bv8>, n: nat): (t: seq<bv8>)
    requires |key| == |input| == 16 && 1 <= n <= 10
    ensures |t| == 16
    decreases 10 - n
  {
    if n == 10 then AddRoundKey(input, key, 10)
    else InvMixedColumns(AddRoundKey(InvSubBytes(InvShiftRows(BeforeUndoing(key, input, n + 1))), key, n))
  }

  /** The inverse cipher (section 5.3). */
  function InvCipher(key: seq<bv8>, input: seq<bv8>): (t: seq<bv8>)
    requires |key| == |input| == 16
    ensures |t| == 16
  {
    AddRoundKey(InvSubBytes(InvShiftRows(BeforeUndoing(key, input, 1))), key, 0)
  }

  // ---------------------------------------------------------------- the steps of aes128.c

  lemma PlaceIs(r: nat, c: nat)
    requires r < 4 && c < 4
    ensures r + 4 * c < 16 && Row(r + 4 * c) == r && Col(r + 4 * c) == c
  {
  }

  lemma PlaceOf(i: nat)
    requires i < 16
    ensures i == Row(i) + 4 * Col(i)
  {
  }

  lemma FromIs(r: nat, c: nat)
    requires r < 4 && c < 4
    ensures From(r + 4 * c) == r + 4 * Circle(c + r)
    ensures Back(r + 4 * c) == r + 4 * Circle(c + 4 - r)
  {
    if r == 0 {
    } else if r == 1 {
    } else if r == 2 {
    }
  }

  lemma CellIs(s: seq<bv8>, r: nat, c: nat)
    requires |s| == 16 && r < 4 && c < 4
    ensures r + 4 * c < 16 && Cell(s, r, c) == s[r + 4 * c]
  {
  }

  // the elements of the sequences above

  lemma SubAt(s: seq<bv8>, i: nat)
    requires |s| == 16 && i < 16
    ensures SubBytes(s)[i] == Sbox(Cell(s, Row(i), Col(i)))
  {
    hide Sbox, Cell, Row, Col;
  }

  lemma InvSubAt(s: seq<bv8>, i: nat)
    requires |s| == 16 && i < 16
    ensures InvSubBytes(s)[i] == Rsbox(Cell(s, Row(i), Col(i)))
  {
    hide Rsbox, Cell, Row, Col;
  }

  lemma ShiftAt(s: seq<bv8>, i: nat)
    requires |s| == 16 && i < 16
    ensures ShiftRows(s)[i] == Cell(s, Row(i), Circle(Col(i) + Row(i)))
    ensures InvShiftRows(s)[i] == Cell(s, Row(i), Circle(Col(i) + 4 - Row(i)))
  {
    hide Cell, Row, Col, Circle;
  }

  lemma SubShiftAt(s: seq<bv8>, i: nat)
    requires |s| == 16 && i < 16
    ensures SubShift(s)[i] == Sbox(s[From(i)]) && SubShiftInv(s)[i] == Rsbox(s[Back(i)])
  {
    hide Sbox, Rsbox, From, Back;
  }

  lemma SubShiftIs(b: seq<bv8>)
    requires |b| == 16
    ensures SubShift(b) == ShiftRows(SubBytes(b))
  {
    hide *;
    forall i: nat | i < 16 ensures SubShift(b)[i] == ShiftRows(SubBytes(b))[i] {
      var r, c := Row(i), Col(i);
      var k := Circle(c + r);
      PlaceOf(i);
      FromIs(r, c);
      PlaceIs(r, k);
      SubShiftAt(b, i);
      ShiftAt(SubBytes(b), i);
      CellIs(SubBytes(b), r, k);
      SubAt(b, r + 4 * k);
      CellIs(b, r, k);
    }
  }

  lemma SubShiftInvIs(b: seq<bv8>)
    requires |b| == 16
    ensures SubShiftInv(b) == InvSubBytes(InvShiftRows(b))
  {
    hide *;
    forall i: nat | i < 16 ensures SubShiftInv(b)[i] == InvSubBytes(InvShiftRows(b))[i] {
      var r, c := Row(i), Col(i);
      PlaceOf(i);
      FromIs(r, c);
      SubShiftAt(b, i);
      InvSubAt(InvShiftRows(b), i);
      CellIs(InvShiftRows(b), r, c);
      ShiftAt(b, i);
      CellIs(b, r, Circle(c + 4 - r));
    }
  }

  lemma TimesOne(x: bv8)
    ensures Mul(x, 1) == x
  {
    MulLow(x, 1);
    hide Mul, Double;
  }

  /** One byte of a column, by the tables and by the field. */
  lemma MixIs(a: bv8, b: bv8, c: bv8, d: bv8)
    ensures Mix(a, b, c, d) == Sum4(Mul(a, 2), Mul(b, 3), Mul(c, 1), Mul(d, 1))
    ensures Unmix(a, b, c, d) == Sum4(Mul(a, 14), Mul(b, 11), Mul(c, 13), Mul(d, 9))
  {
    TablesAreProducts(a);
    TablesAreProducts(b);
    TablesAreProducts(c);
    TablesAreProducts(d);
    TimesOne(c);
    TimesOne(d);
    Sum4Is(Mul(a, 2), Mul(b, 3), c, d);
    Sum4Is(Mul(a, 14), Mul(b, 11), Mul(c, 13), Mul(d, 9));
    hide Mul, Gf2, Gf3, Gf9, Gf11, Gf13, Gf14, Sum4, Add4;
  }

  lemma ColumnAt(b: seq<bv8>, r: nat, c: nat)
    requires |b| == 16 && r < 4 && c < 4
    ensures MixColumns(b)[r + 4 * c] == MixColumn(b, 4 * c)[r]
    ensures MixColumnsInv(b)[r + 4 * c] == UnmixColumn(b, 4 * c)[r]
  {
    hide MixColumn, UnmixColumn;
  }

  lemma MixRow(b: seq<bv8>, r: nat, c: nat)
    requires |b| == 16 && r < 4 && c < 4
    ensures MixColumn(b, 4 * c)[r] ==
              Mix(Cell(b, r, c), Cell(b, Circle(r + 1), c), Cell(b, Circle(r + 2), c), Cell(b, Circle(r + 3), c))
  {
    hide Mix;
    if r == 0 {
    } else if r == 1 {
    } else if r == 2 {
    }
  }

  lemma UnmixRow(b: seq<bv8>, r: nat, c: nat)
    requires |b| == 16 && r < 4 && c < 4
    ensures UnmixColumn(b, 4 * c)[r] ==
              Unmix(Cell(b, r, c), Cell(b, Circle(r + 1), c), Cell(b, Circle(r + 2), c), Cell(b, Circle(r + 3), c))
  {
    hide Unmix;
    if r == 0 {
    } else if r == 1 {
    } else if r == 2 {
    }
  }

  lemma MixedAt(b: seq<bv8>, i: nat)
    requires |b| == 16 && i < 16
    ensures MixedColumns(b)[i] == ColumnProduct(b, Row(i), Col(i), 2, 3, 1, 1)
    ensures InvMixedColumns(b)[i] == ColumnProduct(b, Row(i), Col(i), 14, 11, 13, 9)
  {
    hide ColumnProduct, Row, Col;
  }

  lemma ProductIs(s: seq<bv8>, r: nat, c: nat, a0: bv8, a1: bv8, a2: bv8, a3: bv8)
    requires |s| == 16 && r < 4 && c < 4
    ensures ColumnProduct(s, r, c, a0, a1, a2, a3) ==
              Sum4(Mul(Cell(s, r, c), a0), Mul(Cell(s, Circle(r + 1), c), a1), Mul(Cell(s, Circle(r + 2), c), a2),
                   Mul(Cell(s, Circle(r + 3), c), a3))
  {
    hide Mul, Sum4, Cell, Circle;
  }

  lemma MixColumnsAt(b: seq<bv8>, i: nat)
    requires |b| == 16 && i < 16
    ensures MixColumns(b)[i] == MixedColumns(b)[i] && MixColumnsInv(b)[i] == InvMixedColumns(b)[i]
  {
    hide *;
    var r, c := Row(i), Col(i);
    PlaceOf(i);
    ColumnAt(b, r, c);
    MixRow(b, r, c);
    UnmixRow(b, r, c);
    MixIs(Cell(b, r, c), Cell(b, Circle(r + 1), c), Cell(b, Circle(r + 2), c), Cell(b, Circle(r + 3), c));
    MixedAt(b, i);
    ProductIs(b, r, c, 2, 3, 1, 1);
    ProductIs(b, r, c, 14, 11, 13, 9);
  }

  lemma MixColumnsIs(b: seq<bv8>)
    requires |b| == 16
    ensures MixColumns(b) == MixedColumns(b) && MixColumnsInv(b) == InvMixedColumns(b)
  {
    hide *;
    forall i: nat | i < 16
      ensures MixColumns(b)[i] == MixedColumns(b)[i] && MixColumnsInv(b)[i] == InvMixedColumns(b)[i]
    {
      MixColumnsAt(b, i);
    }
  }

  // ---------------------------------------------------------------- the key

  /** The sixteen key bytes as they lie in memory in the four words. */
  ghost predicate InMemory(key: seq<bv8>, words: seq<bv32>) {
    |key| == 16 && |words| == 4 && forall j {:trigger key[j]} | 0 <= j < 16 :: key[j] == ByteOf(words[j / 4], j % 4)
  }

  lemma PowerIs(j: nat)
    requires 1 <= j
    ensures Power(j) == Rcon(j)
  {
    if j > 1 {
      PowerIs(j - 1);
      TablesAreProducts(Power(j - 1));
      Factors(Power(j - 1));
    }
    hide Mul, Double, Gf2, Gf3, Gf9, Gf11, Gf13, Gf14;
  }

  lemma FourthKeyByte(key: seq<bv8>, i: nat, r: nat)
    requires |key| == 16 && r < 4 && i >= 4 && i % 4 == 0
    ensures KeyByte(key, i, r) == FourthByte(KeyByte(key, i - 4, r), KeyByte(key, i - 1, (r + 1) % 4), i / 4, r)
  {
    hide FourthByte, Add;
  }

  lemma FourthByteIs(before: bv8, next: bv8, j: nat, r: nat)
    requires 1 <= j
    ensures FourthByte(before, next, j, r) == Add3(before, Sbox(next), if r == 0 then Power(j) else 0)
  {
    hide Add3, Sbox, Power;
  }

  lemma OtherKeyByte(key: seq<bv8>, i: nat, r: nat)
    requires |key| == 16 && r < 4 && i >= 4 && i % 4 != 0
    ensures KeyByte(key, i, r) == Add(KeyByte(key, i - 4, r), KeyByte(key, i - 1, r))
  {
    hide FourthByte, Add;
  }

  lemma FirstKeyByte(key: seq<bv8>, i: nat, r: nat)
    requires |key| == 16 && r < 4
    ensures i < 4 ==> KeyByte(key, i, r) == key[4 * i + r]
  {
    hide Sbox, Power;
  }

  lemma ScheduleByteIs(w: seq<bv32>, i: nat, r: nat)
    requires 4 <= i < 44 && |w| == 44 && r < 4
    ensures i % 4 == 0 ==> ScheduleByte(w, i, r) == Add3(ByteOf(w[i - 4], r), Sbox(ByteOf(w[i - 1], (r + 1) % 4)),
                                                         if r == 0 then Rcon(i / 4) else 0)
    ensures i % 4 != 0 ==> ScheduleByte(w, i, r) == Add(ByteOf(w[i - 4], r), ByteOf(w[i - 1], r))
  {
    hide Add, Add3, Sbox, Rcon, ByteOf;
  }

  lemma FirstBytes(key: seq<bv8>, words: seq<bv32>, w: seq<bv32>, i: nat, r: nat)
    requires InMemory(key, words) && Expanded(words, w) && r < 4
    ensures |w| == 44 && |key| == 16 && (i < 4 ==> ByteOf(w[i], r) == key[4 * i + r])
  {
    hide ByteOf, Schedule;
    if i < 4 {
      assert (4 * i + r) / 4 == i && (4 * i + r) % 4 == r;
      assert w[i] == words[i] && key[4 * i + r] == ByteOf(words[(4 * i + r) / 4], (4 * i + r) % 4);
    }
  }

  lemma {:induction false} KeyBytesAre(key: seq<bv8>, words: seq<bv32>, w: seq<bv32>, i: nat, r: nat)
    requires InMemory(key, words) && Expanded(words, w) && i < 44 && r < 4
    ensures |w| == 44 && |key| == 16 && ByteOf(w[i], r) == KeyByte(key, i, r)
    decreases i
  {
    hide *;
    FirstBytes(key, words, w, i, r);
    FirstKeyByte(key, i, r);
    if i >= 4 {
      ScheduleBytes(words, w, i, r);
      ScheduleByteIs(w, i, r);
      KeyBytesAre(key, words, w, i - 4, r);
      if i % 4 == 0 {
        FourthKeyByte(key, i, r);
        FourthByteIs(KeyByte(key, i - 4, r), KeyByte(key, i - 1, (r + 1) % 4), i / 4, r);
        KeyBytesAre(key, words, w, i - 1, (r + 1) % 4);
        PowerIs(i / 4);
      } else {
        OtherKeyByte(key, i, r);
        KeyBytesAre(key, words, w, i - 1, r);
      }
    }
  }

  lemma AddedAt(s: seq<bv8>, key: seq<bv8>, n: nat, i: nat)
    requires |s| == |key| == 16 && i < 16
    ensures AddRoundKey(s, key, n)[i] == Add(Cell(s, Row(i), Col(i)), KeyByte(key, 4 * n + Col(i), Row(i)))
    ensures Xor(s, key)[i] == Add(s[i], key[i])
  {
    hide Add, Cell, Row, Col, KeyByte;
  }

  lemma AddKeyIs(key: seq<bv8>, words: seq<bv32>, w: seq<bv32>, s: seq<bv8>, n: nat)
    requires InMemory(key, words) && Expanded(words, w) && |s| == 16 && n <= 10
    ensures |w| == 44 && |key| == 16 && Xor(s, RoundKey(w, n)) == AddRoundKey(s, key, n)
  {
    hide *;
    FirstBytes(key, words, w, 0, 0);
    forall i: nat | i < 16 ensures Xor(s, RoundKey(w, n))[i] == AddRoundKey(s, key, n)[i] {
      PlaceOf(i);
      KeyBytesAre(key, words, w, 4 * n + Col(i), Row(i));
      KeyAt(w, n, i);
      CellIs(s, Row(i), Col(i));
      AddedAt(s, key, n, i);
      AddedAt(s, RoundKey(w, n), n, i);
    }
  }

  lemma KeyAt(w: seq<bv32>, n: nat, i: nat)
    requires |w| == 44 && n <= 10 && i < 16
    ensures RoundKey(w, n)[i] == ByteOf(w[4 * n + Col(i)], Row(i))
  {
    hide ByteOf;
  }

  // ---------------------------------------------------------------- the cipher

  lemma {:induction false} RoundsAre(key: seq<bv8>, words: seq<bv32>, w: seq<bv32>, b: seq<bv8>, n: nat)
    requires InMemory(key, words) && Expanded(words, w) && |b| == 16 && n <= 9
    ensures Rounds(w, n, Xor(b, RoundKey(w, 0))) == AfterRound(key, b, n)
  {
    hide Xor, AddRoundKey, RoundKey, MixColumns, MixedColumns, SubShift, ShiftRows, SubBytes;
    AddKeyIs(key, words, w, b, 0);
    if n > 0 {
      RoundsAre(key, words, w, b, n - 1);
      var s := AfterRound(key, b, n - 1);
      SubShiftIs(s);
      MixColumnsIs(ShiftRows(SubBytes(s)));
      AddKeyIs(key, words, w, MixedColumns(ShiftRows(SubBytes(s))), n);
    }
  }

  /** aes128_enc computes the standard's cipher with the key that was expanded. */
  lemma EncryptsAsStandard(key: seq<bv8>, words: seq<bv32>, w: seq<bv32>, b: seq<bv8>)
    requires InMemory(key, words) && Expanded(words, w) && |b| == 16
    ensures Encrypted(w, b) == Cipher(key, b)
  {
    hide Xor, AddRoundKey, RoundKey, SubShift, ShiftRows, SubBytes, Rounds, AfterRound;
    RoundsAre(key, words, w, b, 9);
    var s := AfterRound(key, b, 9);
    SubShiftIs(s);
    AddKeyIs(key, words, w, ShiftRows(SubBytes(s)), 10);
  }

  lemma {:induction false} UnroundsAre(key: seq<bv8>, words: seq<bv32>, w: seq<bv32>, b: seq<bv8>, n: nat)
    requires InMemory(key, words) && Expanded(words, w) && |b| == 16 && n <= 9
    ensures Unrounds(w, n, SubShiftInv(BeforeUndoing(key, b, n + 1))) == SubShiftInv(BeforeUndoing(key, b, 1))
  {
    hide Xor, AddRoundKey, RoundKey, MixColumnsInv, InvMixedColumns, SubShiftInv, InvShiftRows,
         InvSubBytes;
    if n > 0 {
      var s := BeforeUndoing(key, b, n + 1);
      SubShiftInvIs(s);
      AddKeyIs(key, words, w, InvSubBytes(InvShiftRows(s)), n);
      MixColumnsIs(AddRoundKey(InvSubBytes(InvShiftRows(s)), key, n));
      UnroundsAre(key, words, w, b, n - 1);
    }
  }

  /** aes128_dec computes the standard's inverse cipher. */
  lemma DecryptsAsStandard(key: seq<bv8>, words: seq<bv32>, w: seq<bv32>, b: seq<bv8>)
    requires InMemory(key, words) && Expanded(words, w) && |b| == 16
    ensures Decrypted(w, b) == InvCipher(key, b)
  {
    hide Xor, AddRoundKey, RoundKey, SubShiftInv, InvShiftRows, InvSubBytes, Unrounds;
    AddKeyIs(key, words, w, b, 10);
    UnroundsAre(key, words, w, b, 9);
    var s := BeforeUndoing(key, b, 1);
    SubShiftInvIs(s);
    AddKeyIs(key, words, w, InvSubBytes(InvShiftRows(s)), 0);
  }

  // ---------------------------------------------------------------- cipher block chaining

  /** aes128_cbc_enc is the CBC mode of NIST SP 800-38A, section 6.2: the vector is added to the first
      block and every cipher block to the next one. */
  lemma ChainsAsStandard(key: seq<bv8>, words: seq<bv32>, w: seq<bv32>, iv: seq<bv8>, p: seq<bv8>, c: seq<bv8>, k: nat)
    requires InMemory(key, words) && Expanded(words, w) && |iv| == 16 && Chained(w, iv, p, c)
    requires 16 * k + 16 <= |p|
    ensures |c| == |p|
    ensures k == 0 ==> Slice(c, 0) == Cipher(key, Xor(Slice(p, 0), iv))
    ensures k > 0 ==> Slice(c, 16 * k) == Cipher(key, Xor(Slice(p, 16 * k), Slice(c, 16 * k - 16)))
  {
    hide Encrypted, Cipher, Xor, Slice, Expanded;
    assert k < NumBlocks(p);
    assert Slice(c, 16 * k) == Slice(c, 16 * k);
    EncryptsAsStandard(key, words, w, Xor(Slice(p, 16 * k), Previous(iv, c, 16 * k)));
  }

  /** aes128_cbc_dec is its inverse as the standard defines it. */
  lemma UnchainsAsStandard(key: seq<bv8>, words: seq<bv32>, w: seq<bv32>, iv: seq<bv8>, c: seq<bv8>, q: seq<bv8>,
                           k: nat)
    requires InMemory(key, words) && Expanded(words, w) && |iv| == 16 && Unchained(w, iv, c, q)
    requires 16 * k + 16 <= |c|
    ensures |q| == |c|
    ensures k == 0 ==> Slice(q, 0) == Xor(InvCipher(key, Slice(c, 0)), iv)
    ensures k > 0 ==> Slice(q, 16 * k) == Xor(InvCipher(key, Slice(c, 16 * k)), Slice(c, 16 * k - 16))
  {
    hide Decrypted, InvCipher, Xor, Slice, Expanded;
    assert k < NumBlocks(c);
    assert Slice(q, 16 * k) == Slice(q, 16 * k);
    DecryptsAsStandard(key, words, w, Slice(c, 16 * k));
  }
}
