/** The S-box of aes128.c is that of FIPS 197, section 5.1.1: an affine map of the inverse in the field. */
module AesSbox {
  import opened AesField
  import opened AesTables

  /** Multiplication by the indeterminate, with the carry spread over a mask. */
  function Shifted(x: bv8): bv8 {
    (x << 1) ^ (0x1b & (0 - (x >> 7)))
  }

  lemma ShiftedIs(x: bv8)
    ensures Shifted(x) == Double(x)
  {
  }

  /** x if the last bit of y is set. */
  function Selected(y: bv8, x: bv8): bv8 {
    x & (0 - (y & 1))
  }

  function Sum4(a: bv8, b: bv8, c: bv8, d: bv8): bv8 {
    a ^ b ^ c ^ d
  }

  /** Multiplication in the field (section 4.2): the sum of the multiples of x by those powers of the
      indeterminate that y has. */
  function Mul(x: bv8, y: bv8): bv8 {
    var x1 := Shifted(x);
    var x2 := Shifted(x1);
    var x3 := Shifted(x2);
    var x4 := Shifted(x3);
    var x5 := Shifted(x4);
    var x6 := Shifted(x5);
    var x7 := Shifted(x6);
    Sum4(Selected(y, x), Selected(y >> 1, x1), Selected(y >> 2, x2), Selected(y >> 3, x3))
    ^ Sum4(Selected(y >> 4, x4), Selected(y >> 5, x5), Selected(y >> 6, x6), Selected(y >> 7, x7))
  }

  /** y is the inverse of x, with 0 mapped to itself. */
  predicate Inverse(x: bv8, y: bv8) {
    if x == 0 then y == 0 else Mul(x, y) == 1
  }

  /** The affine transformation of section 5.1.1. */
  function Affine(b: bv8): bv8 {
    b ^ ((b << 1) | (b >> 7)) ^ ((b << 2) | (b >> 6)) ^ ((b << 3) | (b >> 5)) ^ ((b << 4) | (b >> 4)) ^ 0x63
  }

  // ---------------------------------------------------------------- inverses are unique

  lemma SelectedAdd(y: bv8, z: bv8, x: bv8)
    ensures Selected(Add(y, z), x) == Add(Selected(y, x), Selected(z, x))
  {
  }

  lemma ShiftSum(y: bv8, z: bv8)
    ensures Add(y, z) >> 1 == Add(y >> 1, z >> 1) && Add(y, z) >> 2 == Add(y >> 2, z >> 2)
    ensures Add(y, z) >> 3 == Add(y >> 3, z >> 3) && Add(y, z) >> 4 == Add(y >> 4, z >> 4)
    ensures Add(y, z) >> 5 == Add(y >> 5, z >> 5) && Add(y, z) >> 6 == Add(y >> 6, z >> 6)
    ensures Add(y, z) >> 7 == Add(y >> 7, z >> 7)
  {
  }

  lemma Sum4Is(a: bv8, b: bv8, c: bv8, d: bv8)
    ensures Sum4(a, b, c, d) == Add4(a, b, c, d)
  {
  }

  lemma Sum4Add(a: bv8, a': bv8, b: bv8, b': bv8, c: bv8, c': bv8, d: bv8, d': bv8)
    ensures Sum4(Add(a, a'), Add(b, b'), Add(c, c'), Add(d, d')) == Add(Sum4(a, b, c, d), Sum4(a', b', c', d'))
  {
    hide Add, Sum4, Add4;
    Swap4(a, a', b, b', c, c', d, d');
    Sum4Is(a, b, c, d);
    Sum4Is(a', b', c', d');
    Sum4Is(Add(a, a'), Add(b, b'), Add(c, c'), Add(d, d'));
  }

  lemma MulIs(x: bv8, y: bv8)
    ensures var x1 := Shifted(x);
            var x2 := Shifted(x1);
            var x3 := Shifted(x2);
            var x4 := Shifted(x3);
            var x5 := Shifted(x4);
            var x6 := Shifted(x5);
            var x7 := Shifted(x6);
            Mul(x, y) == Add(Sum4(Selected(y, x), Selected(y >> 1, x1), Selected(y >> 2, x2), Selected(y >> 3, x3)),
                             Sum4(Selected(y >> 4, x4), Selected(y >> 5, x5), Selected(y >> 6, x6),
                                  Selected(y >> 7, x7)))
  {
    hide Selected, Shifted, Sum4;
  }

  lemma MulAdd(x: bv8, y: bv8, z: bv8)
    ensures Mul(x, Add(y, z)) == Add(Mul(x, y), Mul(x, z))
  {
    hide *;
    MulIs(x, y);
    MulIs(x, z);
    MulIs(x, Add(y, z));
    ShiftSum(y, z);
    var x1 := Shifted(x);
    var x2 := Shifted(x1);
    var x3 := Shifted(x2);
    var x4 := Shifted(x3);
    var x5 := Shifted(x4);
    var x6 := Shifted(x5);
    var x7 := Shifted(x6);
    SelectedAdd(y, z, x);
    SelectedAdd(y >> 1, z >> 1, x1);
    SelectedAdd(y >> 2, z >> 2, x2);
    SelectedAdd(y >> 3, z >> 3, x3);
    SelectedAdd(y >> 4, z >> 4, x4);
    SelectedAdd(y >> 5, z >> 5, x5);
    SelectedAdd(y >> 6, z >> 6, x6);
    SelectedAdd(y >> 7, z >> 7, x7);
    Sum4Add(Selected(y, x), Selected(z, x), Selected(y >> 1, x1), Selected(z >> 1, x1),
            Selected(y >> 2, x2), Selected(z >> 2, x2), Selected(y >> 3, x3), Selected(z >> 3, x3));
    Sum4Add(Selected(y >> 4, x4), Selected(z >> 4, x4), Selected(y >> 5, x5), Selected(z >> 5, x5),
            Selected(y >> 6, x6), Selected(z >> 6, x6), Selected(y >> 7, x7), Selected(z >> 7, x7));
    Swap2(Sum4(Selected(y, x), Selected(y >> 1, x1), Selected(y >> 2, x2), Selected(y >> 3, x3)),
          Sum4(Selected(z, x), Selected(z >> 1, x1), Selected(z >> 2, x2), Selected(z >> 3, x3)),
          Sum4(Selected(y >> 4, x4), Selected(y >> 5, x5), Selected(y >> 6, x6), Selected(y >> 7, x7)),
          Sum4(Selected(z >> 4, x4), Selected(z >> 5, x5), Selected(z >> 6, x6), Selected(z >> 7, x7)));
  }

  lemma NoDivisors0(x: bv8, y: bv8)
    ensures x != 0 && y != 0 && x & 0xc0 == 0x00 ==> Mul(x, y) != 0
  {
  }

  lemma NoDivisors1(x: bv8, y: bv8)
    ensures x != 0 && y != 0 && x & 0xc0 == 0x40 ==> Mul(x, y) != 0
  {
  }

  lemma NoDivisors2(x: bv8, y: bv8)
    ensures x != 0 && y != 0 && x & 0xc0 == 0x80 ==> Mul(x, y) != 0
  {
  }

  lemma NoDivisors3(x: bv8, y: bv8)
    ensures x != 0 && y != 0 && x & 0xc0 == 0xc0 ==> Mul(x, y) != 0
  {
  }

  /** The field has no divisors of zero. */
  lemma NoDivisors(x: bv8, y: bv8)
    requires x != 0 && y != 0
    ensures Mul(x, y) != 0
  {
    hide Mul;
    if x & 0xc0 == 0x00 {
      NoDivisors0(x, y);
    } else if x & 0xc0 == 0x40 {
      NoDivisors1(x, y);
    } else if x & 0xc0 == 0x80 {
      NoDivisors2(x, y);
    } else {
      NoDivisors3(x, y);
    }
  }

  lemma InverseUnique(x: bv8, y: bv8, z: bv8)
    requires Inverse(x, y) && Inverse(x, z)
    ensures y == z
  {
    hide Mul;
    if x != 0 && y != z {
      MulAdd(x, y, z);
      NoDivisors(x, Add(y, z));
    }
  }

  // ---------------------------------------------------------------- products by a constant

  lemma SelectLow2(a: bv8, b: bv8, c: bv8, d: bv8)
    ensures Sum4(Selected(2, a), Selected(2 >> 1, b), Selected(2 >> 2, c), Selected(2 >> 3, d)) == b
  {
  }

  lemma SelectLow3(a: bv8, b: bv8, c: bv8, d: bv8)
    ensures Sum4(Selected(3, a), Selected(3 >> 1, b), Selected(3 >> 2, c), Selected(3 >> 3, d)) == Add(b, a)
  {
  }

  lemma SelectLow9(a: bv8, b: bv8, c: bv8, d: bv8)
    ensures Sum4(Selected(9, a), Selected(9 >> 1, b), Selected(9 >> 2, c), Selected(9 >> 3, d)) == Add(d, a)
  {
  }

  lemma SelectLow11(a: bv8, b: bv8, c: bv8, d: bv8)
    ensures Sum4(Selected(11, a), Selected(11 >> 1, b), Selected(11 >> 2, c), Selected(11 >> 3, d)) == Add3(d, b, a)
  {
  }

  lemma SelectLow13(a: bv8, b: bv8, c: bv8, d: bv8)
    ensures Sum4(Selected(13, a), Selected(13 >> 1, b), Selected(13 >> 2, c), Selected(13 >> 3, d)) == Add3(d, c, a)
  {
  }

  lemma SelectLow14(a: bv8, b: bv8, c: bv8, d: bv8)
    ensures Sum4(Selected(14, a), Selected(14 >> 1, b), Selected(14 >> 2, c), Selected(14 >> 3, d)) == Add3(d, c, b)
  {
  }

  lemma NoHighBits(y: bv8, a: bv8, b: bv8, c: bv8, d: bv8)
    requires y < 16
    ensures Sum4(Selected(y >> 4, a), Selected(y >> 5, b), Selected(y >> 6, c), Selected(y >> 7, d)) == 0
  {
  }

  /** A product by a factor below 16 needs three doublings. */
  lemma MulLow(x: bv8, y: bv8)
    requires y < 16
    ensures var x1 := Double(x);
            var x2 := Double(x1);
            Mul(x, y) == Sum4(Selected(y, x), Selected(y >> 1, x1), Selected(y >> 2, x2), Selected(y >> 3, Double(x2)))
  {
    hide Selected, Shifted, Sum4, Double, Mul;
    MulIs(x, y);
    var x1 := Shifted(x);
    var x2 := Shifted(x1);
    var x3 := Shifted(x2);
    var x4 := Shifted(x3);
    var x5 := Shifted(x4);
    var x6 := Shifted(x5);
    ShiftedIs(x);
    ShiftedIs(x1);
    ShiftedIs(x2);
    NoHighBits(y, x4, x5, x6, Shifted(x6));
  }

  /** The six tables of the column steps are products in the field by 2, 3, 9, 11, 13 and 14. */
  lemma TablesAreProducts(x: bv8)
    ensures Gf2(x) == Mul(x, 2) && Gf3(x) == Mul(x, 3) && Gf9(x) == Mul(x, 9)
    ensures Gf11(x) == Mul(x, 11) && Gf13(x) == Mul(x, 13) && Gf14(x) == Mul(x, 14)
  {
    hide Gf2, Gf3, Gf9, Gf11, Gf13, Gf14, Mul, Selected, Sum4, Double, Add, Add3;
    var x1 := Double(x);
    var x2 := Double(x1);
    var x3 := Double(x2);
    Factors(x);
    MulLow(x, 2);
    SelectLow2(x, x1, x2, x3);
    MulLow(x, 3);
    SelectLow3(x, x1, x2, x3);
    MulLow(x, 9);
    SelectLow9(x, x1, x2, x3);
    MulLow(x, 11);
    SelectLow11(x, x1, x2, x3);
    MulLow(x, 13);
    SelectLow13(x, x1, x2, x3);
    MulLow(x, 14);
    SelectLow14(x, x1, x2, x3);
  }

  // ---------------------------------------------------------------- the table

  predicate Maps(x: bv8, y: bv8) {
    Inverse(x, y) && Sbox(x) == Affine(y)
  }

  // the entries with their inverses, sixteen at a time

  lemma Maps0(x: bv8)
    ensures x & 0xf0 == 0x00 ==> exists y :: Maps(x, y)
  {
    assert Maps(0x00, 0x00);
    assert Maps(0x01, 0x01);
    assert Maps(0x02, 0x8d);
    assert Maps(0x03, 0xf6);
    assert Maps(0x04, 0xcb);
    assert Maps(0x05, 0x52);
    assert Maps(0x06, 0x7b);
    assert Maps(0x07, 0xd1);
    assert Maps(0x08, 0xe8);
    assert Maps(0x09, 0x4f);
    assert Maps(0x0a, 0x29);
    assert Maps(0x0b, 0xc0);
    assert Maps(0x0c, 0xb0);
    assert Maps(0x0d, 0xe1);
    assert Maps(0x0e, 0xe5);
    assert Maps(0x0f, 0xc7);
    hide Maps;
  }

  lemma Maps1(x: bv8)
    ensures x & 0xf0 == 0x10 ==> exists y :: Maps(x, y)
  {
    assert Maps(0x10, 0x74);
    assert Maps(0x11, 0xb4);
    assert Maps(0x12, 0xaa);
    assert Maps(0x13, 0x4b);
    assert Maps(0x14, 0x99);
    assert Maps(0x15, 0x2b);
    assert Maps(0x16, 0x60);
    assert Maps(0x17, 0x5f);
    assert Maps(0x18, 0x58);
    assert Maps(0x19, 0x3f);
    assert Maps(0x1a, 0xfd);
    assert Maps(0x1b, 0xcc);
    assert Maps(0x1c, 0xff);
    assert Maps(0x1d, 0x40);
    assert Maps(0x1e, 0xee);
    assert Maps(0x1f, 0xb2);
    hide Maps;
  }

  lemma Maps2(x: bv8)
    ensures x & 0xf0 == 0x20 ==> exists y :: Maps(x, y)
  {
    assert Maps(0x20, 0x3a);
    assert Maps(0x21, 0x6e);
    assert Maps(0x22, 0x5a);
    assert Maps(0x23, 0xf1);
    assert Maps(0x24, 0x55);
    assert Maps(0x25, 0x4d);
    assert Maps(0x26, 0xa8);
    assert Maps(0x27, 0xc9);
    assert Maps(0x28, 0xc1);
    assert Maps(0x29, 0x0a);
    assert Maps(0x2a, 0x98);
    assert Maps(0x2b, 0x15);
    assert Maps(0x2c, 0x30);
    assert Maps(0x2d, 0x44);
    assert Maps(0x2e, 0xa2);
    assert Maps(0x2f, 0xc2);
    hide Maps;
  }

  lemma Maps3(x: bv8)
    ensures x & 0xf0 == 0x30 ==> exists y :: Maps(x, y)
  {
    assert Maps(0x30, 0x2c);
    assert Maps(0x31, 0x45);
    assert Maps(0x32, 0x92);
    assert Maps(0x33, 0x6c);
    assert Maps(0x34, 0xf3);
    assert Maps(0x35, 0x39);
    assert Maps(0x36, 0x66);
    assert Maps(0x37, 0x42);
    assert Maps(0x38, 0xf2);
    assert Maps(0x39, 0x35);
    assert Maps(0x3a, 0x20);
    assert Maps(0x3b, 0x6f);
    assert Maps(0x3c, 0x77);
    assert Maps(0x3d, 0xbb);
    assert Maps(0x3e, 0x59);
    assert Maps(0x3f, 0x19);
    hide Maps;
  }

  lemma Maps4(x: bv8)
    ensures x & 0xf0 == 0x40 ==> exists y :: Maps(x, y)
  {
    assert Maps(0x40, 0x1d);
    assert Maps(0x41, 0xfe);
    assert Maps(0x42, 0x37);
    assert Maps(0x43, 0x67);
    assert Maps(0x44, 0x2d);
    assert Maps(0x45, 0x31);
    assert Maps(0x46, 0xf5);
    assert Maps(0x47, 0x69);
    assert Maps(0x48, 0xa7);
    assert Maps(0x49, 0x64);
    assert Maps(0x4a, 0xab);
    assert Maps(0x4b, 0x13);
    assert Maps(0x4c, 0x54);
    assert Maps(0x4d, 0x25);
    assert Maps(0x4e, 0xe9);
    assert Maps(0x4f, 0x09);
    hide Maps;
  }

  lemma Maps5(x: bv8)
    ensures x & 0xf0 == 0x50 ==> exists y :: Maps(x, y)
  {
    assert Maps(0x50, 0xed);
    assert Maps(0x51, 0x5c);
    assert Maps(0x52, 0x05);
    assert Maps(0x53, 0xca);
    assert Maps(0x54, 0x4c);
    assert Maps(0x55, 0x24);
    assert Maps(0x56, 0x87);
    assert Maps(0x57, 0xbf);
    assert Maps(0x58, 0x18);
    assert Maps(0x59, 0x3e);
    assert Maps(0x5a, 0x22);
    assert Maps(0x5b, 0xf0);
    assert Maps(0x5c, 0x51);
    assert Maps(0x5d, 0xec);
    assert Maps(0x5e, 0x61);
    assert Maps(0x5f, 0x17);
    hide Maps;
  }

  lemma Maps6(x: bv8)
    ensures x & 0xf0 == 0x60 ==> exists y :: Maps(x, y)
  {
    assert Maps(0x60, 0x16);
    assert Maps(0x61, 0x5e);
    assert Maps(0x62, 0xaf);
    assert Maps(0x63, 0xd3);
    assert Maps(0x64, 0x49);
    assert Maps(0x65, 0xa6);
    assert Maps(0x66, 0x36);
    assert Maps(0x67, 0x43);
    assert Maps(0x68, 0xf4);
    assert Maps(0x69, 0x47);
    assert Maps(0x6a, 0x91);
    assert Maps(0x6b, 0xdf);
    assert Maps(0x6c, 0x33);
    assert Maps(0x6d, 0x93);
    assert Maps(0x6e, 0x21);
    assert Maps(0x6f, 0x3b);
    hide Maps;
  }

  lemma Maps7(x: bv8)
    ensures x & 0xf0 == 0x70 ==> exists y :: Maps(x, y)
  {
    assert Maps(0x70, 0x79);
    assert Maps(0x71, 0xb7);
    assert Maps(0x72, 0x97);
    assert Maps(0x73, 0x85);
    assert Maps(0x74, 0x10);
    assert Maps(0x75, 0xb5);
    assert Maps(0x76, 0xba);
    assert Maps(0x77, 0x3c);
    assert Maps(0x78, 0xb6);
    assert Maps(0x79, 0x70);
    assert Maps(0x7a, 0xd0);
    assert Maps(0x7b, 0x06);
    assert Maps(0x7c, 0xa1);
    assert Maps(0x7d, 0xfa);
    assert Maps(0x7e, 0x81);
    assert Maps(0x7f, 0x82);
    hide Maps;
  }

  lemma Maps8(x: bv8)
    ensures x & 0xf0 == 0x80 ==> exists y :: Maps(x, y)
  {
    assert Maps(0x80, 0x83);
    assert Maps(0x81, 0x7e);
    assert Maps(0x82, 0x7f);
    assert Maps(0x83, 0x80);
    assert Maps(0x84, 0x96);
    assert Maps(0x85, 0x73);
    assert Maps(0x86, 0xbe);
    assert Maps(0x87, 0x56);
    assert Maps(0x88, 0x9b);
    assert Maps(0x89, 0x9e);
    assert Maps(0x8a, 0x95);
    assert Maps(0x8b, 0xd9);
    assert Maps(0x8c, 0xf7);
    assert Maps(0x8d, 0x02);
    assert Maps(0x8e, 0xb9);
    assert Maps(0x8f, 0xa4);
    hide Maps;
  }

  lemma Maps9(x: bv8)
    ensures x & 0xf0 == 0x90 ==> exists y :: Maps(x, y)
  {
    assert Maps(0x90, 0xde);
    assert Maps(0x91, 0x6a);
    assert Maps(0x92, 0x32);
    assert Maps(0x93, 0x6d);
    assert Maps(0x94, 0xd8);
    assert Maps(0x95, 0x8a);
    assert Maps(0x96, 0x84);
    assert Maps(0x97, 0x72);
    assert Maps(0x98, 0x2a);
    assert Maps(0x99, 0x14);
    assert Maps(0x9a, 0x9f);
    assert Maps(0x9b, 0x88);
    assert Maps(0x9c, 0xf9);
    assert Maps(0x9d, 0xdc);
    assert Maps(0x9e, 0x89);
    assert Maps(0x9f, 0x9a);
    hide Maps;
  }

  lemma MapsA(x: bv8)
    ensures x & 0xf0 == 0xa0 ==> exists y :: Maps(x, y)
  {
    assert Maps(0xa0, 0xfb);
    assert Maps(0xa1, 0x7c);
    assert Maps(0xa2, 0x2e);
    assert Maps(0xa3, 0xc3);
    assert Maps(0xa4, 0x8f);
    assert Maps(0xa5, 0xb8);
    assert Maps(0xa6, 0x65);
    assert Maps(0xa7, 0x48);
    assert Maps(0xa8, 0x26);
    assert Maps(0xa9, 0xc8);
    assert Maps(0xaa, 0x12);
    assert Maps(0xab, 0x4a);
    assert Maps(0xac, 0xce);
    assert Maps(0xad, 0xe7);
    assert Maps(0xae, 0xd2);
    assert Maps(0xaf, 0x62);
    hide Maps;
  }

  lemma MapsB(x: bv8)
    ensures x & 0xf0 == 0xb0 ==> exists y :: Maps(x, y)
  {
    assert Maps(0xb0, 0x0c);
    assert Maps(0xb1, 0xe0);
    assert Maps(0xb2, 0x1f);
    assert Maps(0xb3, 0xef);
    assert Maps(0xb4, 0x11);
    assert Maps(0xb5, 0x75);
    assert Maps(0xb6, 0x78);
    assert Maps(0xb7, 0x71);
    assert Maps(0xb8, 0xa5);
    assert Maps(0xb9, 0x8e);
    assert Maps(0xba, 0x76);
    assert Maps(0xbb, 0x3d);
    assert Maps(0xbc, 0xbd);
    assert Maps(0xbd, 0xbc);
    assert Maps(0xbe, 0x86);
    assert Maps(0xbf, 0x57);
    hide Maps;
  }

  lemma MapsC(x: bv8)
    ensures x & 0xf0 == 0xc0 ==> exists y :: Maps(x, y)
  {
    assert Maps(0xc0, 0x0b);
    assert Maps(0xc1, 0x28);
    assert Maps(0xc2, 0x2f);
    assert Maps(0xc3, 0xa3);
    assert Maps(0xc4, 0xda);
    assert Maps(0xc5, 0xd4);
    assert Maps(0xc6, 0xe4);
    assert Maps(0xc7, 0x0f);
    assert Maps(0xc8, 0xa9);
    assert Maps(0xc9, 0x27);
    assert Maps(0xca, 0x53);
    assert Maps(0xcb, 0x04);
    assert Maps(0xcc, 0x1b);
    assert Maps(0xcd, 0xfc);
    assert Maps(0xce, 0xac);
    assert Maps(0xcf, 0xe6);
    hide Maps;
  }

  lemma MapsD(x: bv8)
    ensures x & 0xf0 == 0xd0 ==> exists y :: Maps(x, y)
  {
    assert Maps(0xd0, 0x7a);
    assert Maps(0xd1, 0x07);
    assert Maps(0xd2, 0xae);
    assert Maps(0xd3, 0x63);
    assert Maps(0xd4, 0xc5);
    assert Maps(0xd5, 0xdb);
    assert Maps(0xd6, 0xe2);
    assert Maps(0xd7, 0xea);
    assert Maps(0xd8, 0x94);
    assert Maps(0xd9, 0x8b);
    assert Maps(0xda, 0xc4);
    assert Maps(0xdb, 0xd5);
    assert Maps(0xdc, 0x9d);
    assert Maps(0xdd, 0xf8);
    assert Maps(0xde, 0x90);
    assert Maps(0xdf, 0x6b);
    hide Maps;
  }

  lemma MapsE(x: bv8)
    ensures x & 0xf0 == 0xe0 ==> exists y :: Maps(x, y)
  {
    assert Maps(0xe0, 0xb1);
    assert Maps(0xe1, 0x0d);
    assert Maps(0xe2, 0xd6);
    assert Maps(0xe3, 0xeb);
    assert Maps(0xe4, 0xc6);
    assert Maps(0xe5, 0x0e);
    assert Maps(0xe6, 0xcf);
    assert Maps(0xe7, 0xad);
    assert Maps(0xe8, 0x08);
    assert Maps(0xe9, 0x4e);
    assert Maps(0xea, 0xd7);
    assert Maps(0xeb, 0xe3);
    assert Maps(0xec, 0x5d);
    assert Maps(0xed, 0x50);
    assert Maps(0xee, 0x1e);
    assert Maps(0xef, 0xb3);
    hide Maps;
  }

  lemma MapsF(x: bv8)
    ensures x & 0xf0 == 0xf0 ==> exists y :: Maps(x, y)
  {
    assert Maps(0xf0, 0x5b);
    assert Maps(0xf1, 0x23);
    assert Maps(0xf2, 0x38);
    assert Maps(0xf3, 0x34);
    assert Maps(0xf4, 0x68);
    assert Maps(0xf5, 0x46);
    assert Maps(0xf6, 0x03);
    assert Maps(0xf7, 0x8c);
    assert Maps(0xf8, 0xdd);
    assert Maps(0xf9, 0x9c);
    assert Maps(0xfa, 0x7d);
    assert Maps(0xfb, 0xa0);
    assert Maps(0xfc, 0xcd);
    assert Maps(0xfd, 0x1a);
    assert Maps(0xfe, 0x41);
    assert Maps(0xff, 0x1c);
    hide Maps;
  }

  lemma EntryMaps(x: bv8)
    ensures exists y :: Maps(x, y)
  {
    hide Maps;
    if x & 0xf0 == 0x00 {
      Maps0(x);
    } else if x & 0xf0 == 0x10 {
      Maps1(x);
    } else if x & 0xf0 == 0x20 {
      Maps2(x);
    } else if x & 0xf0 == 0x30 {
      Maps3(x);
    } else if x & 0xf0 == 0x40 {
      Maps4(x);
    } else if x & 0xf0 == 0x50 {
      Maps5(x);
    } else if x & 0xf0 == 0x60 {
      Maps6(x);
    } else if x & 0xf0 == 0x70 {
      Maps7(x);
    } else if x & 0xf0 == 0x80 {
      Maps8(x);
    } else if x & 0xf0 == 0x90 {
      Maps9(x);
    } else if x & 0xf0 == 0xa0 {
      MapsA(x);
    } else if x & 0xf0 == 0xb0 {
      MapsB(x);
    } else if x & 0xf0 == 0xc0 {
      MapsC(x);
    } else if x & 0xf0 == 0xd0 {
      MapsD(x);
    } else if x & 0xf0 == 0xe0 {
      MapsE(x);
    } else {
      MapsF(x);
    }
  }

  /** Every entry of the S-box is the affine transformation of its index's inverse. */
  lemma SboxIsAffineInverse(x: bv8, y: bv8)
    requires Inverse(x, y)
    ensures Sbox(x) == Affine(y)
  {
    hide Inverse, Affine, Sbox;
    EntryMaps(x);
    var z :| Maps(x, z);
    InverseUnique(x, y, z);
  }

  /** And every index has one. */
  lemma InverseExists(x: bv8) returns (y: bv8)
    ensures Inverse(x, y)
  {
    hide Inverse, Affine, Sbox;
    EntryMaps(x);
    y :| Maps(x, y);
  }
}
