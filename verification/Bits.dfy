/** The bit strings in which the control unit keeps instruction fields (src/cpu/CONTROL_UNIT.cpp). */
module Bits {
  import opened Words

  predicate IsBit(c: char) {
    c == '0' || c == '1'
  }

  predicate AllBits(s: string) {
    forall i | 0 <= i < |s| :: IsBit(s[i])
  }

  function Digit(c: char): nat {
    if c == '1' then 1 else 0
  }

  /** Value of a bit string, most significant bit first. */
  function ValueOf(s: string): nat {
    if s == "" then 0 else 2 * ValueOf(s[..|s| - 1]) + Digit(s[|s| - 1])
  }

  function Pow2(n: nat): (p: nat)
    ensures p >= 1
  {
    if n == 0 then 1 else 2 * Pow2(n - 1)
  }

  lemma {:induction false} ValueFits(s: string)
    ensures ValueOf(s) < Pow2(|s|)
  {
    if s != "" {
      ValueFits(s[..|s| - 1]);
    }
  }

  /** The lowest `width` bits of a number as a string. */
  function BitString(v: nat, width: nat): (s: string)
    ensures |s| == width && AllBits(s)
    decreases width
  {
    if width == 0 then "" else BitString(v / 2, width - 1) + [if v % 2 == 1 then '1' else '0']
  }

  /** Reading back a bit string gives the number, if it fits. */
  lemma {:induction false} ReadBack(v: nat, width: nat)
    requires v < Pow2(width)
    ensures ValueOf(BitString(v, width)) == v
    decreases width
  {
    if width > 0 {
      ReadBack(v / 2, width - 1);
      var s := BitString(v / 2, width - 1);
      assert BitString(v, width)[..width - 1] == s;
    }
  }

  /** Writing a bit string again gives the same string. */
  lemma {:induction false} WriteBack(s: string)
    requires AllBits(s)
    ensures BitString(ValueOf(s), |s|) == s
  {
    if s != "" {
      var t, c := s[..|s| - 1], s[|s| - 1];
      WriteBack(t);
      assert ValueOf(s) / 2 == ValueOf(t) && ValueOf(s) % 2 == Digit(c);
      assert s == t + [c];
    }
  }

  /** The characters of a bit string. */
  lemma {:induction false} BitStringAt(v: nat, width: nat, i: nat)
    requires i < width
    ensures BitString(v, width)[i] == if v / Pow2(width - 1 - i) % 2 == 1 then '1' else '0'
    decreases width
  {
    if i < width - 1 {
      BitStringAt(v / 2, width - 1, i);
      DivTwice(v, Pow2(width - 2 - i));
    }
  }

  lemma DivTwice(v: nat, p: nat)
    requires p >= 1
    ensures v / 2 / p == v / (2 * p)
  {
    var q, r := v / (2 * p), v % (2 * p);
    assert v == 2 * p * q + r && v / 2 == p * q + r / 2 by {
      assert 2 * p * q == 2 * (p * q);
    }
    assert r / 2 < p;
    Quotient(v / 2, p, q, r / 2);
  }

  lemma Multiple(p: int, x: int)
    requires p >= 1
    ensures x >= 1 ==> p * x >= p
    ensures x <= -1 ==> p * x <= -p
  {
    if x >= 1 {
      assert p * x == p + p * (x - 1);
    } else if x <= -1 {
      assert p * -x == p + p * (-x - 1);
    }
  }

  lemma Quotient(v: nat, p: nat, q: nat, r: nat)
    requires v == p * q + r && r < p
    ensures v / p == q
  {
    var d := v / p;
    assert p * (d - q) == r - v % p by {
      assert v == p * d + v % p;
      assert p * (d - q) == p * d - p * q;
    }
    Multiple(p, d - q);
  }

  /** The five-bit string of a register number. */
  method RegIndexToBitString(idx: Word) returns (s: string)
    ensures s == BitString(idx, 5)
    ensures idx < 32 ==> ValueOf(s) == idx
  {
    s := "00000";
    var i := 4;
    while i >= 0
      invariant -1 <= i <= 4 && |s| == 5
      invariant forall k | 0 <= k < 4 - i :: s[k] == BitString(idx, 5)[k]
    {
      BitStringAt(idx, 5, 4 - i);
      s := s[4 - i := if idx / Pow2(i) % 2 == 1 then '1' else '0'];
      i := i - 1;
    }
    if idx < 32 {
      assert Pow2(5) == 32;
      ReadBack(idx, 5);
    }
  }

  lemma WordIs(v: int, q: int, r: Word)
    requires v == 0x1_0000_0000 * q + r
    ensures ToWord(v) == r
  {
  }

  /** Shifting a bit into a 32-bit word. */
  lemma ShiftedIn(v: nat, d: nat)
    requires d <= 1
    ensures ToWord(ToWord(v) * 2) + d == ToWord(2 * v + d)
  {
    var q: int, w: int := v / 0x1_0000_0000, ToWord(v);
    hide ToWord;
    var r := 2 * w;
    if r < 0x1_0000_0000 {
      WordIs(r, 0, r);
      WordIs(2 * v + d, 2 * q, r + d);
    } else {
      WordIs(r, 1, r - 0x1_0000_0000);
      WordIs(2 * v + d, 2 * q + 1, r + d - 0x1_0000_0000);
    }
  }

  /** Value of a bit string as a 32-bit word; any other character is an error. */
  method BinaryStringToUint(bin: string) returns (r: Option<Word>)
    ensures r == if AllBits(bin) then Some(ToWord(ValueOf(bin))) else None
  {
    var value: Word := 0;
    for i := 0 to |bin|
      invariant AllBits(bin[..i]) && value == ToWord(ValueOf(bin[..i]))
    {
      assert bin[..i + 1][..i] == bin[..i];
      ShiftedIn(ValueOf(bin[..i]), Digit(bin[i]));
      value := ToWord(value * 2);
      if bin[i] == '1' {
        value := value + 1;
      } else if bin[i] != '0' {
        return None;
      }
    }
    assert bin[..|bin|] == bin;
    r := Some(value);
  }
}
