/** The arithmetic unit (src/cpu/ULA.cpp), restricted to the operations the control unit selects. */
module Alu {
  import opened Words

  datatype AluOp = ALU_ADD | ALU_SUB | ALU_MUL | ALU_DIV | ALU_BEQ | ALU_BNE | ALU_BLT | ALU_BGT

  /** Division rounding toward zero, as in C++. */
  function TruncDiv(a: int, b: int): (q: int)
    requires b != 0
  {
    if a >= 0 then a / b else -((-a) / b)
  }

  /** The exact (unbounded) result of an operation on signed operands; a division by zero is defined as 0. */
  function Exact(op: AluOp, a: int, b: int): int {
    match op
    case ALU_ADD => a + b
    case ALU_SUB => a - b
    case ALU_MUL => a * b
    case ALU_DIV => if b == 0 then 0 else TruncDiv(a, b)
    case ALU_BEQ => if a == b then 1 else 0
    case ALU_BNE => if a != b then 1 else 0
    case ALU_BLT => if a < b then 1 else 0
    case ALU_BGT => if a > b then 1 else 0
  }

  /** The 32-bit result of an operation on two words. */
  function Result(op: AluOp, a: Word, b: Word): Word {
    ToWord(Exact(op, Signed(a), Signed(b)))
  }

  /** The quotient rounds toward zero: the remainder is smaller than the divisor and has the dividend's sign. */
  lemma TruncDivRemainder(a: int, b: int)
    requires b != 0
    ensures var r := a - TruncDiv(a, b) * b;
            && (a >= 0 ==> 0 <= r) && (a <= 0 ==> r <= 0)
            && -r < (if b > 0 then b else -b) && r < (if b > 0 then b else -b)
  {
    var n := if a >= 0 then a else -a;
    var q := n / b;
    assert n == q * b + n % b;
    assert a < 0 ==> TruncDiv(a, b) * b == -(q * b);
  }

  /** Whether the exact result has a signed 32-bit representation. */
  predicate Fits(i: int) {
    -0x8000_0000 <= i < 0x8000_0000
  }

  class ALU {
    var A: Word
    var B: Word
    var op: AluOp
    var result: int
    var overflow: bool

    constructor (op: AluOp, a: Word, b: Word)
      ensures this.op == op && A == a && B == b
    {
      this.op, A, B := op, a, b;
    }

    /** The result is the exact one reduced to 32 bits; `overflow` reports when it did not fit or had no value. */
    method Calculate()
      modifies this`result, this`overflow
      ensures Fits(result) && ToWord(result) == Result(op, A, B)
      ensures overflow <==> !Fits(Exact(op, Signed(A), Signed(B))) || (op.ALU_DIV? && B == 0)
      ensures op.ALU_ADD? && !overflow ==> result == Signed(A) + Signed(B)
      ensures op.ALU_SUB? && !overflow ==> result == Signed(A) - Signed(B)
      ensures op.ALU_MUL? && !overflow ==> result == Signed(A) * Signed(B)
      ensures overflow ==> op.ALU_ADD? || op.ALU_SUB? || op.ALU_MUL? || (op.ALU_DIV? && B == 0) ||
                           (op.ALU_DIV? && A == 0x8000_0000 && B == 0xFFFF_FFFF)
    {
      hide ToWord, Signed, TruncDiv;
      overflow, result := false, 0;
      var a, b := Signed(A), Signed(B);
      SignedFits(a + b);
      SignedFits(a - b);
      SignedFits(a * b);
      LeastQuotient(A, B);
      match op {
        case ALU_ADD =>
          overflow := !Fits(a + b);
          result := Signed(ToWord(a + b));
        case ALU_SUB =>
          overflow := !Fits(a - b);
          result := Signed(ToWord(a - b));
        case ALU_MUL =>
          var product := a * b;
          overflow := !Fits(product);
          result := Signed(ToWord(product));
        case ALU_DIV =>
          if b == 0 {
            overflow := true;
          } else if a == -0x8000_0000 && b == -1 {
            overflow := true;
            result := -0x8000_0000;
          } else {
            QuotientFits(a, b);
            result := TruncDiv(a, b);
          }
        case ALU_BEQ => result := if a == b then 1 else 0;
        case ALU_BNE => result := if a != b then 1 else 0;
        case ALU_BLT => result := if a < b then 1 else 0;
        case ALU_BGT => result := if a > b then 1 else 0;
      }
    }
  }

  /** A number that fits is the signed value of its word. */
  lemma SignedFits(i: int)
    ensures Fits(i) ==> Signed(ToWord(i)) == i
  {
  }

  /** The only quotient that does not fit, and the words it comes from. */
  lemma LeastQuotient(a: Word, b: Word)
    ensures Signed(a) == -0x8000_0000 <==> a == 0x8000_0000
    ensures Signed(b) == -1 <==> b == 0xFFFF_FFFF
    ensures Signed(b) == 0 <==> b == 0
    ensures TruncDiv(-0x8000_0000, -1) == 0x8000_0000 && ToWord(0x8000_0000) == ToWord(-0x8000_0000)
  {
  }

  lemma QuotientFits(a: int, b: int)
    requires Fits(a) && Fits(b) && b != 0 && !(a == -0x8000_0000 && b == -1)
    ensures Fits(TruncDiv(a, b))
  {
    var n := if a >= 0 then a else -a;
    var m := if b > 0 then b else -b;
    var q := n / m;
    assert n / b == (if b > 0 then q else -q);
    HalvesAtLeast(n, m);
  }

  lemma HalvesAtLeast(n: nat, m: nat)
    requires m >= 1
    ensures 0 <= n / m <= n && (m >= 2 ==> 2 * (n / m) <= n)
  {
    var q := n / m;
    assert n == q * m + n % m;
    if m >= 2 {
      MulAtLeast(q, m, 2);
    } else {
      MulAtLeast(q, m, 1);
    }
  }

  lemma MulAtLeast(q: nat, m: nat, c: nat)
    requires m >= c
    ensures q * m >= q * c
  {
    if q > 0 {
      MulAtLeast(q - 1, m, c);
    }
  }
}
