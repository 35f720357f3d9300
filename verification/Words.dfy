/** 32-bit machine words and their two's-complement reading. */
module Words {

  type Word = w: int | 0 <= w < 0x1_0000_0000

  /** Value of a word read as a signed 32-bit integer. */
  function Signed(w: Word): (i: int)
    ensures -0x8000_0000 <= i < 0x8000_0000
    ensures ToWord(i) == w
  {
    if w < 0x8000_0000 then w else w - 0x1_0000_0000
  }

  /** Conversion of any integer to a 32-bit word: reduction modulo 2^32. */
  function ToWord(i: int): Word {
    i % 0x1_0000_0000
  }

  /** A register number. */
  type Reg = r: int | 0 <= r < 32

  /** The 32 general-purpose registers. */
  type Regs = r: seq<Word> | |r| == 32
    witness [0, 0, 0, 0, 0, 0, 0, 0, 0, 0, 0, 0, 0, 0, 0, 0, 0, 0, 0, 0, 0, 0, 0, 0, 0, 0, 0, 0, 0, 0, 0, 0]

  /** Register write; writes to $zero are ignored. */
  function Put(regs: Regs, r: Reg, v: Word): Regs {
    if r == 0 then regs else regs[r := v]
  }

  /** Word-addressed flat memory; a word that was never written reads as 0. */
  type Mem = map<Word, Word>

  function Load(mem: Mem, a: Word): Word {
    if a in mem then mem[a] else 0
  }

  datatype Option<+T> = None | Some(value: T)
}
