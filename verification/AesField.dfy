/** Addition and multiplication by x in the field of FIPS 197, section 4. */
module AesField {
  /** Addition in the field (section 4.1). */
  function Add(x: bv8, y: bv8): bv8 {
    x ^ y
  }

  function Add3(x: bv8, y: bv8, z: bv8): bv8 {
    Add(Add(x, y), z)
  }

  function Add4(x: bv8, y: bv8, z: bv8, w: bv8): bv8 {
    Add(Add3(x, y, z), w)
  }

  lemma AddTwice(x: bv8, y: bv8)
    ensures Add(Add(x, y), y) == x
  {
  }

  /** The reduction of a product of degree 8. */
  function Carry(x: bv8): bv8 {
    if x & 0x80 == 0 then 0 else 0x1b
  }

  /** Multiplication by x (section 4.2.1). */
  function Double(x: bv8): bv8 {
    Add(x << 1, Carry(x))
  }

  lemma CarryAdd(x: bv8, y: bv8)
    ensures Carry(Add(x, y)) == Add(Carry(x), Carry(y))
  {
  }

  lemma ShiftAdd(x: bv8, y: bv8)
    ensures Add(x, y) << 1 == Add(x << 1, y << 1)
  {
  }

  lemma AddComm(x: bv8, y: bv8)
    ensures Add(x, y) == Add(y, x)
  {
  }

  lemma AddAssoc(x: bv8, y: bv8, z: bv8)
    ensures Add(Add(x, y), z) == Add(x, Add(y, z))
  {
  }

  // sums by columns instead of rows

  lemma Swap2(a1: bv8, a2: bv8, b1: bv8, b2: bv8)
    ensures Add(Add(a1, a2), Add(b1, b2)) == Add(Add(a1, b1), Add(a2, b2))
  {
    hide Add;
    AddAssoc(a1, a2, Add(b1, b2));
    AddAssoc(a2, b1, b2);
    AddComm(a2, b1);
    AddAssoc(b1, a2, b2);
    AddAssoc(a1, b1, Add(a2, b2));
  }

  lemma Swap3(a1: bv8, a2: bv8, b1: bv8, b2: bv8, c1: bv8, c2: bv8)
    ensures Add3(Add(a1, a2), Add(b1, b2), Add(c1, c2)) == Add(Add3(a1, b1, c1), Add3(a2, b2, c2))
  {
    hide Add;
    Swap2(a1, a2, b1, b2);
    Swap2(Add(a1, b1), Add(a2, b2), c1, c2);
  }

  lemma Swap4(a1: bv8, a2: bv8, b1: bv8, b2: bv8, c1: bv8, c2: bv8, d1: bv8, d2: bv8)
    ensures Add4(Add(a1, a2), Add(b1, b2), Add(c1, c2), Add(d1, d2)) == Add(Add4(a1, b1, c1, d1), Add4(a2, b2, c2, d2))
  {
    hide Add, Add3;
    Swap3(a1, a2, b1, b2, c1, c2);
    Swap2(Add3(a1, b1, c1), Add3(a2, b2, c2), d1, d2);
  }

  lemma Transpose(a1: bv8, a2: bv8, a3: bv8, a4: bv8, b1: bv8, b2: bv8, b3: bv8, b4: bv8,
                  c1: bv8, c2: bv8, c3: bv8, c4: bv8, d1: bv8, d2: bv8, d3: bv8, d4: bv8)
    ensures Add4(Add4(a1, b1, c1, d1), Add4(a2, b2, c2, d2), Add4(a3, b3, c3, d3), Add4(a4, b4, c4, d4))
            == Add4(Add4(a1, a2, a3, a4), Add4(b1, b2, b3, b4), Add4(c1, c2, c3, c4), Add4(d1, d2, d3, d4))
  {
    Swap4(Add3(a1, b1, c1), d1, Add3(a2, b2, c2), d2, Add3(a3, b3, c3), d3, Add3(a4, b4, c4), d4);
    Swap4(Add(a1, b1), c1, Add(a2, b2), c2, Add(a3, b3), c3, Add(a4, b4), c4);
    Swap4(a1, b1, a2, b2, a3, b3, a4, b4);
    hide Add;
  }

  lemma Rotate(x: bv8, y: bv8, z: bv8, w: bv8)
    ensures Add4(x, y, z, w) == Add4(w, x, y, z)
  {
    hide Add;
    AddComm(Add3(x, y, z), w);
    AddAssoc(w, Add(x, y), z);
    AddAssoc(w, x, y);
  }

  lemma AddZeros(x: bv8)
    ensures Add4(x, 0, 0, 0) == x
  {
  }

  /** Multiplication by x distributes over addition, once, twice and three times. */
  lemma DoubleAdd(x: bv8, y: bv8)
    ensures Double(Add(x, y)) == Add(Double(x), Double(y))
  {
    CarryAdd(x, y);
    ShiftAdd(x, y);
    hide Carry, Add;
    Swap2(x << 1, y << 1, Carry(x), Carry(y));
  }

  lemma DoublesAdd(x: bv8, y: bv8)
    ensures Double(Add(x, y)) == Add(Double(x), Double(y))
    ensures Double(Double(Add(x, y))) == Add(Double(Double(x)), Double(Double(y)))
    ensures Double(Double(Double(Add(x, y)))) == Add(Double(Double(Double(x))), Double(Double(Double(y))))
  {
    hide Double, Add;
    DoubleAdd(x, y);
    DoubleAdd(Double(x), Double(y));
    DoubleAdd(Double(Double(x)), Double(Double(y)));
  }

  // multiplication by the factors of the inverse column matrix

  function Times9(x: bv8): bv8 {
    Add(Double(Double(Double(x))), x)
  }

  function Times11(x: bv8): bv8 {
    Add3(Double(Double(Double(x))), Double(x), x)
  }

  function Times13(x: bv8): bv8 {
    Add3(Double(Double(Double(x))), Double(Double(x)), x)
  }

  function Times14(x: bv8): bv8 {
    Add3(Double(Double(Double(x))), Double(Double(x)), Double(x))
  }

  // sums of the successive doublings of x in which everything but x cancels

  lemma CancelPairs(a: bv8, b: bv8, u: bv8, v: bv8, w: bv8, y: bv8)
    ensures Add4(Add(a, u), Add(v, b), Add(w, b), Add(a, y)) == Add4(u, v, w, y)
  {
  }

  lemma CancelRest(x: bv8, d1: bv8, d2: bv8, d3: bv8)
    ensures Add4(d2, Add(d3, d1), Add(d3, d2), Add(d1, x)) == x
  {
  }

  lemma Cancels1(x: bv8, d1: bv8, d2: bv8, d3: bv8, d4: bv8)
    ensures Add4(Add3(d4, d3, d2), Add3(d3, d1, x), Add3(d3, d2, x), Add(Add(d4, d3), Add(d1, x))) == x
  {
    CancelPairs(Add(d4, d3), x, d2, Add(d3, d1), Add(d3, d2), Add(d1, x));
    CancelRest(x, d1, d2, d3);
    hide Add, Add4;
  }

  lemma Telescope(a: bv8, b: bv8, c: bv8, d: bv8)
    ensures Add3(Add(a, b), Add(b, c), Add(c, d)) == Add(a, d)
  {
  }

  lemma CancelEnds(a: bv8, b: bv8, c: bv8)
    ensures Add(Add(a, b), Add3(a, c, b)) == c && Add(Add3(a, c, b), Add(a, b)) == c && Add(c, c) == 0
  {
  }

  lemma Cancels2(x: bv8, d1: bv8, d2: bv8, d3: bv8, d4: bv8)
    ensures Add4(Add3(Add(d4, d3), Add(d3, d2), Add(d2, d1)), Add3(d4, d2, d1), Add3(d3, d2, x), Add(d3, x)) == 0
  {
    Telescope(d4, d3, d2, d1);
    CancelEnds(d4, d1, d2);
    CancelEnds(d3, x, d2);
    AddAssoc(d2, Add3(d3, d2, x), Add(d3, x));
    hide Add;
  }

  lemma Cancels3(x: bv8, d1: bv8, d2: bv8, d3: bv8, d4: bv8)
    ensures Add4(Add3(d3, d2, d1), Add3(Add(d4, d3), Add(d2, d1), Add(d1, x)), Add3(d4, d3, d1), Add(d3, x)) == 0
  {
  }

  lemma Cancels4(x: bv8, d1: bv8, d2: bv8, d3: bv8, d4: bv8)
    ensures Add4(Add3(d3, d2, d1), Add3(d3, d1, x), Add3(Add(d4, d3), Add(d3, d2), Add(d1, x)), Add(d4, d1)) == 0
  {
  }

  /** The inverse column matrix times the column matrix, one entry of each kind. */
  lemma FieldProduct(x: bv8)
    ensures Add4(Times14(Double(x)), Times11(x), Times13(x), Times9(Add(Double(x), x))) == x
    ensures Add4(Times14(Add(Double(x), x)), Times11(Double(x)), Times13(x), Times9(x)) == 0
    ensures Add4(Times14(x), Times11(Add(Double(x), x)), Times13(Double(x)), Times9(x)) == 0
    ensures Add4(Times14(x), Times11(x), Times13(Add(Double(x), x)), Times9(Double(x))) == 0
  {
    hide Double, Add, Add3, Add4;
    var d1 := Double(x);
    var d2 := Double(d1);
    var d3 := Double(d2);
    var d4 := Double(d3);
    DoublesAdd(d1, x);
    Cancels1(x, d1, d2, d3, d4);
    Cancels2(x, d1, d2, d3, d4);
    Cancels3(x, d1, d2, d3, d4);
    Cancels4(x, d1, d2, d3, d4);
  }
}
