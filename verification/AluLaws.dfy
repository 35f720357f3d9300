/** What the arithmetic unit computes, as laws between its operations. */
module AluLaws {
  import opened Words
  import opened Alu

  lemma WholeTurns(i: int, k: int)
    ensures ToWord(i + 0x1_0000_0000 * k) == ToWord(i)
  {
  }

  /** A word is its signed value plus or minus a whole turn. */
  lemma Turn(i: int) returns (k: int)
    ensures i == Signed(ToWord(i)) + 0x1_0000_0000 * k
  {
    k := if ToWord(i) < 0x8000_0000 then i / 0x1_0000_0000 else i / 0x1_0000_0000 + 1;
  }

  /** Reduction to 32 bits: it keeps 32-bit words and forgets whole turns, and a number fits exactly when reading its
      word as a signed number gives it back. */
  lemma Reduction(i: int)
    ensures 0 <= i < 0x1_0000_0000 ==> ToWord(i) == i
    ensures ToWord(i + 0x1_0000_0000) == ToWord(i)
    ensures Fits(i) <==> Signed(ToWord(i)) == i
  {
    WholeTurns(i, 1);
  }

  /** Reducing a summand or a factor first makes no difference. */
  lemma ReducedFirst(x: int, y: int)
    ensures ToWord(Signed(ToWord(x)) + y) == ToWord(x + y)
    ensures ToWord(Signed(ToWord(x)) - y) == ToWord(x - y)
    ensures ToWord(Signed(ToWord(x)) * y) == ToWord(x * y)
  {
    hide ToWord, Signed;
    var k := Turn(x);
    var s := Signed(ToWord(x));
    WholeTurns(s + y, k);
    WholeTurns(s - y, k);
    WholeTurns(s * y, k * y);
    assert x * y == s * y + 0x1_0000_0000 * (k * y);
  }

  /** Addition: 0 is neutral, adding one is the successor, the order of operands does not matter. Subtracting 0 changes
      nothing, and a number from itself leaves 0. */
  lemma Addition(a: Word, b: Word)
    ensures Result(ALU_ADD, a, 0) == a && Result(ALU_ADD, a, b) == Result(ALU_ADD, b, a)
    ensures Result(ALU_ADD, a, 1) == if a == 0xFFFF_FFFF then 0 else a + 1
    ensures Result(ALU_SUB, a, 0) == a && Result(ALU_SUB, a, a) == 0
  {
  }

  /** Nor do brackets; so addition is counting on. */
  lemma Brackets(a: Word, b: Word, c: Word)
    ensures Result(ALU_ADD, Result(ALU_ADD, a, b), c) == Result(ALU_ADD, a, Result(ALU_ADD, b, c))
  {
    var x, y, z: int := Signed(a), Signed(b), Signed(c);
    hide ToWord, Signed;
    ReducedFirst(x + y, z);
    ReducedFirst(y + z, x);
    assert x + y + z == y + z + x && x + Signed(ToWord(y + z)) == Signed(ToWord(y + z)) + x;
  }

  /** Subtraction undoes addition. */
  lemma Subtraction(a: Word, b: Word)
    ensures Result(ALU_ADD, Result(ALU_SUB, a, b), b) == a
    ensures Result(ALU_SUB, Result(ALU_ADD, a, b), b) == a
  {
    var x, y: int := Signed(a), Signed(b);
    assert ToWord(x) == a;
    hide ToWord, Signed;
    ReducedFirst(x - y, y);
    ReducedFirst(x + y, y);
    assert x - y + y == x == x + y - y;
  }

  lemma Distribute(x: int, y: int, z: int)
    ensures (x + y) * z == x * z + y * z
  {
  }

  /** Multiplication: 1 is neutral, 0 annihilates, and it distributes over addition: so it is repeated addition. */
  lemma Multiplication(a: Word, b: Word, c: Word)
    ensures Result(ALU_MUL, 1, c) == c && Result(ALU_MUL, 0, c) == 0
    ensures Result(ALU_MUL, a, b) == Result(ALU_MUL, b, a)
    ensures Result(ALU_MUL, Result(ALU_ADD, a, b), c)
            == Result(ALU_ADD, Result(ALU_MUL, a, c), Result(ALU_MUL, b, c))
  {
    var x, y, z: int := Signed(a), Signed(b), Signed(c);
    assert x * y == y * x && ToWord(z) == c;
    assert Signed(1) == 1 && Signed(0) == 0 == ToWord(0);
    hide ToWord, Signed;
    ReducedFirst(x + y, z);
    Distribute(x, y, z);
    ReducedFirst(x * z, Signed(ToWord(y * z)));
    ReducedFirst(y * z, x * z);
    assert x * z + Signed(ToWord(y * z)) == Signed(ToWord(y * z)) + x * z;
    assert y * z + x * z == x * z + y * z;
  }

  /** Division rounds toward zero: dividend is quotient times divisor plus a remainder smaller than the divisor that has
      the dividend's sign; dividing by 0 gives 0. */
  lemma Division(a: Word, b: Word)
    ensures b == 0 ==> Result(ALU_DIV, a, b) == 0
    ensures b != 0 && !(a == 0x8000_0000 && b == 0xFFFF_FFFF) ==>
              var r := Signed(a) - Signed(Result(ALU_DIV, a, b)) * Signed(b);
              && (Signed(a) >= 0 ==> 0 <= r) && (Signed(a) <= 0 ==> r <= 0)
              && -r < (if Signed(b) > 0 then Signed(b) else -Signed(b))
              && r < (if Signed(b) > 0 then Signed(b) else -Signed(b))
    ensures a == 0x8000_0000 && b == 0xFFFF_FFFF ==> Result(ALU_DIV, a, b) == 0x8000_0000
  {
    if b != 0 && !(a == 0x8000_0000 && b == 0xFFFF_FFFF) {
      TruncDivRemainder(Signed(a), Signed(b));
      QuotientFits(Signed(a), Signed(b));
      hide TruncDiv;
      Reduction(TruncDiv(Signed(a), Signed(b)));
    }
  }

  /** The comparisons: every result is 0 or 1, exactly one of less, equal and greater holds, greater is less the other
      way round, unequal is not equal, and less follows the signed order, from one number to the next. */
  lemma Comparisons(a: Word, b: Word)
    ensures Result(ALU_BLT, a, b) + Result(ALU_BEQ, a, b) + Result(ALU_BGT, a, b) == 1
    ensures Result(ALU_BNE, a, b) + Result(ALU_BEQ, a, b) == 1
    ensures Result(ALU_BGT, a, b) == Result(ALU_BLT, b, a)
    ensures Result(ALU_BEQ, a, b) == 1 <==> a == b
    ensures a < b < 0x8000_0000 || 0x8000_0000 <= a < b || b < 0x8000_0000 <= a ==> Result(ALU_BLT, a, b) == 1
  {
  }
}
