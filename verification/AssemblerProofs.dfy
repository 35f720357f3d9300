/** What the assembled program does: layout, decoding and control transfer. */
module AssemblerProofs {
  import opened Words
  import opened Isa
  import opened Assembler

  // ---------------------------------------------------------------------------------------------------------------
  // Layout
  // ---------------------------------------------------------------------------------------------------------------

  lemma {:induction false} StoredAt(mem: Mem, start: nat, words: seq<Word>, k: nat)
    requires start + 4 * |words| <= 0x1_0000_0000 && k < |words|
    ensures Load(Stored(mem, start, words), start + 4 * k) == words[k]
  {
    if k < |words| - 1 {
      StoredAt(mem, start, words[..|words| - 1], k);
    }
  }

  lemma {:induction false} StoredElsewhere(mem: Mem, start: nat, words: seq<Word>, a: Word)
    requires start + 4 * |words| <= 0x1_0000_0000 && !(start <= a < start + 4 * |words|)
    ensures Load(Stored(mem, start, words), a) == Load(mem, a)
  {
    if words != [] {
      StoredElsewhere(mem, start, words[..|words| - 1], a);
    }
  }

  /** Without an error, pass 2 encodes every instruction, at the place pass 1 counted for it. */
  lemma {:induction false} AssembleAt(nodes: seq<Node>, dataMap: Labels, labelMap: Labels, i: nat)
    requires Assemble(nodes, dataMap, labelMap).error == None && i <= |nodes|
    ensures var words := Assemble(nodes, dataMap, labelMap).words;
            && CodeLength(nodes[..i]) <= |words| == CodeLength(nodes)
            && (i < |nodes| && nodes[i].instruction.Some? ==>
                  && CodeLength(nodes[..i]) < |words|
                  && Encode(nodes[i], dataMap, labelMap) == Ok(words[CodeLength(nodes[..i])]))
    decreases |nodes|
  {
    hide Encode;
    if nodes != [] {
      var n := |nodes| - 1;
      var i' := if i <= n then i else n;
      AssembleAt(nodes[..n], dataMap, labelMap, i');
      assert nodes[..n][..i'] == nodes[..i'];
      if i == n + 1 {
        assert nodes[..i] == nodes;
      }
    } else {
      assert nodes[..i] == nodes;
    }
  }

  /** An instruction that carries a label of its own: the label of a jump or branch says where it goes, unless that is
      said separately. */
  predicate Carries(n: Node, symbol: string) {
    && n.instruction.Some? && n.name == Some(symbol)
    && (n.instruction.value in {Mnemonic.J, JAL, BEQ, BNE, BGT, BLT} ==> n.name1.Some?)
  }

  /** The entry a label stands for: the last one that carries it. */
  ghost predicate Defines(nodes: seq<Node>, i: nat, symbol: string) {
    && i < |nodes| && Carries(nodes[i], symbol)
    && forall k | i < k < |nodes| :: !Carries(nodes[k], symbol)
  }

  /** Pass 1 entry by entry: only an instruction takes up a word; a jump or branch whose label says where it goes
      changes no label, and any other instruction with a label gives it the address behind the code before it. */
  lemma {:induction false} LabelsStep(nodes: seq<Node>, n: Node, start: int, known: Labels)
    ensures CodeLength(nodes + [n]) == CodeLength(nodes) + if n.instruction.Some? then 1 else 0
    ensures n.instruction.None? || n.name.None? ==> LabelsOf(nodes + [n], start, known) == LabelsOf(nodes, start, known)
    ensures n.instruction.Some? && n.instruction.value in {Mnemonic.J, JAL, BEQ, BNE, BGT, BLT} && n.name1.None? ==>
              LabelsOf(nodes + [n], start, known) == LabelsOf(nodes, start, known)
    ensures forall symbol | Carries(n, symbol) ::
              LabelsOf(nodes + [n], start, known)
              == LabelsOf(nodes, start, known)[symbol := start + 4 * CodeLength(nodes)]
  {
    assert (nodes + [n])[..|nodes|] == nodes;
  }

  /** A label is known exactly if some entry carries it, and stands for the address of the last one. */
  lemma {:induction false} LabelsExactly(nodes: seq<Node>, start: int, symbol: string)
    ensures symbol in LabelsOf(nodes, start, map[]) <==> exists i: nat :: Defines(nodes, i, symbol)
    ensures forall i: nat | Defines(nodes, i, symbol) ::
              LabelsOf(nodes, start, map[])[symbol] == start + 4 * CodeLength(nodes[..i])
  {
    if nodes != [] {
      var before, n := nodes[..|nodes| - 1], nodes[|nodes| - 1];
      assert nodes == before + [n];
      LabelsExactly(before, start, symbol);
      LabelsStep(before, n, start, map[]);
      LastEntry(before, n, symbol);
      hide LabelsOf;
      assert Carries(n, symbol) ==> Defines(nodes, |before|, symbol);
      assert nodes[..|before|] == before;
      forall i: nat | Defines(before, i, symbol)
        ensures nodes[..i] == before[..i]
      {
      }
    }
  }

  lemma {:induction false} LastEntry(before: seq<Node>, n: Node, symbol: string)
    ensures Carries(n, symbol) ==>
              forall i: nat :: Defines(before + [n], i, symbol) <==> i == |before|
    ensures !Carries(n, symbol) ==>
              forall i: nat :: Defines(before + [n], i, symbol) <==> Defines(before, i, symbol)
  {
    var nodes := before + [n];
    assert nodes[|before|] == n;
    forall i: nat
      ensures Carries(n, symbol) ==> (Defines(nodes, i, symbol) <==> i == |before|)
      ensures !Carries(n, symbol) ==> (Defines(nodes, i, symbol) <==> Defines(before, i, symbol))
    {
      assert forall k | 0 <= k < |before| :: nodes[k] == before[k];
    }
  }

  /** A program that assembles without error and fits in memory. */
  ghost predicate Fits(items: seq<DataItem>, nodes: seq<Node>, start: nat) {
    && start + 4 * (|DataWords(items)| + |nodes|) <= 0x8000_0000
    && Assemble(nodes, DataLabels(items, start, map[]), LabelsOf(nodes, CodeStart(items, start), map[])).error == None
  }

  function CodeStart(items: seq<DataItem>, start: nat): nat {
    start + 4 * |DataWords(items)|
  }

  function Code(items: seq<DataItem>, nodes: seq<Node>, start: nat): seq<Word> {
    Assemble(nodes, DataLabels(items, start, map[]), LabelsOf(nodes, CodeStart(items, start), map[])).words
  }

  function LabelMap(items: seq<DataItem>, nodes: seq<Node>, start: nat): Labels {
    LabelsOf(nodes, CodeStart(items, start), map[])
  }

  /** The memory after loading. */
  function Image(mem: Mem, items: seq<DataItem>, nodes: seq<Node>, start: nat): Mem {
    Stored(mem, start, DataWords(items) + Code(items, nodes, start))
  }

  function EncodeIn(items: seq<DataItem>, nodes: seq<Node>, start: nat, i: nat): Outcome<Word>
    requires i < |nodes| && nodes[i].instruction.Some?
  {
    Encode(nodes[i], DataLabels(items, start, map[]), LabelMap(items, nodes, start))
  }

  /** Address of the instruction of an entry. */
  function AddressOf(items: seq<DataItem>, nodes: seq<Node>, start: nat, i: nat): nat
    requires i <= |nodes|
  {
    CodeStart(items, start) + 4 * CodeLength(nodes[..i])
  }

  lemma StoredParts(mem: Mem, start: nat, data: seq<Word>, code: seq<Word>)
    requires start + 4 * (|data| + |code|) <= 0x1_0000_0000
    ensures forall k | 0 <= k < |data| :: Load(Stored(mem, start, data + code), start + 4 * k) == data[k]
    ensures forall k | 0 <= k < |code| ::
              Load(Stored(mem, start, data + code), start + 4 * |data| + 4 * k) == code[k]
    ensures forall a: Word | a < start || a >= start + 4 * |data| + 4 * |code| ::
              Load(Stored(mem, start, data + code), a) == Load(mem, a)
  {
    hide Stored, Load;
    var words := data + code;
    forall k | 0 <= k < |data|
      ensures Load(Stored(mem, start, words), start + 4 * k) == data[k]
    {
      StoredAt(mem, start, words, k);
    }
    forall k | 0 <= k < |code|
      ensures Load(Stored(mem, start, words), start + 4 * |data| + 4 * k) == code[k]
    {
      StoredAt(mem, start, words, |data| + k);
      assert start + 4 * |data| + 4 * k == start + 4 * (|data| + k);
    }
    forall a: Word | a < start || a >= start + 4 * |data| + 4 * |code|
      ensures Load(Stored(mem, start, words), a) == Load(mem, a)
    {
      StoredElsewhere(mem, start, words, a);
    }
  }

  /** Data and code lie side by side, each word where it was put, and nothing else changes. */
  lemma ImageIsExact(mem: Mem, items: seq<DataItem>, nodes: seq<Node>, start: nat)
    requires Fits(items, nodes, start)
    ensures var data, code, image := DataWords(items), Code(items, nodes, start), Image(mem, items, nodes, start);
            && |code| == CodeLength(nodes)
            && (forall k | 0 <= k < |data| :: Load(image, start + 4 * k) == data[k])
            && (forall k | 0 <= k < |code| :: Load(image, CodeStart(items, start) + 4 * k) == code[k])
            && (forall a: Word | a < start || a >= CodeStart(items, start) + 4 * |code| ::
                  Load(image, a) == Load(mem, a))
  {
    hide Stored, Load, Assemble, DataWords, LabelsOf, DataLabels, Code;
    CodeHasLength(items, nodes, start);
    hide Fits;
    StoredParts(mem, start, DataWords(items), Code(items, nodes, start));
  }

  lemma CodeHasLength(items: seq<DataItem>, nodes: seq<Node>, start: nat)
    requires Fits(items, nodes, start)
    ensures |Code(items, nodes, start)| == CodeLength(nodes)
    ensures start + 4 * (|DataWords(items)| + |Code(items, nodes, start)|) <= 0x8000_0000
  {
    AssembleAt(nodes, DataLabels(items, start, map[]), LabelMap(items, nodes, start), 0);
  }

  /** Every instruction is in memory at its address. */
  lemma InstructionInPlace(mem: Mem, items: seq<DataItem>, nodes: seq<Node>, start: nat, i: nat)
    requires Fits(items, nodes, start) && i < |nodes| && nodes[i].instruction.Some?
    ensures AddressOf(items, nodes, start, i) < 0x8000_0000
    ensures EncodeIn(items, nodes, start, i)
            == Ok(Load(Image(mem, items, nodes, start), AddressOf(items, nodes, start, i)))
  {
    AssembleAt(nodes, DataLabels(items, start, map[]), LabelMap(items, nodes, start), i);
    ImageIsExact(mem, items, nodes, start);
    hide Encode, Load, Image, Assemble, LabelsOf, DataLabels, DataWords;
  }

  /** Two passes agree: a label's address from pass 1 is where pass 2 puts the instruction that defines the label. */
  lemma LabelInPlace(mem: Mem, items: seq<DataItem>, nodes: seq<Node>, start: nat, symbol: string) returns (i: nat)
    requires Fits(items, nodes, start) && symbol in LabelMap(items, nodes, start)
    ensures Defines(nodes, i, symbol)
    ensures LabelMap(items, nodes, start)[symbol] == AddressOf(items, nodes, start, i) < 0x8000_0000
    ensures EncodeIn(items, nodes, start, i)
            == Ok(Load(Image(mem, items, nodes, start), LabelMap(items, nodes, start)[symbol]))
  {
    hide Encode, Load, Image, Fits;
    LabelsExactly(nodes, CodeStart(items, start), symbol);
    i :| Defines(nodes, i, symbol);
    InstructionInPlace(mem, items, nodes, start, i);
  }

  /** Address of the first word of a data item. */
  function DataAddress(items: seq<DataItem>, start: nat, i: nat): nat
    requires i <= |items|
  {
    start + 4 * |DataWords(items[..i])|
  }

  /** The labels of all items are known, and no others. */
  lemma {:induction false} DataLabelsExactly(items: seq<DataItem>, start: int, symbol: string)
    ensures symbol in DataLabels(items, start, map[]) <==> exists i :: 0 <= i < |items| && items[i].name == Some(symbol)
  {
    if items != [] {
      var n := |items| - 1;
      DataLabelsExactly(items[..n], start, symbol);
      assert items[n].name == Some(symbol) || forall i | 0 <= i < |items| && items[i].name == Some(symbol) :: i < n;
    }
  }

  /** A data label stands for the last item that has it; the words of every item are at its address. */
  lemma {:induction false} DataInPlace(items: seq<DataItem>, start: nat, symbol: string) returns (i: nat)
    requires symbol in DataLabels(items, start, map[])
    ensures i < |items| && items[i].name == Some(symbol)
    ensures forall k | i < k < |items| :: items[k].name != Some(symbol)
    ensures DataLabels(items, start, map[])[symbol] == DataAddress(items, start, i)
    ensures |DataWords(items[..i])| + |items[i].words| <= |DataWords(items)|
    ensures forall k | 0 <= k < |items[i].words| :: DataWords(items)[|DataWords(items[..i])| + k] == items[i].words[k]
  {
    var n := |items| - 1;
    if items[n].name == Some(symbol) {
      i := n;
    } else {
      i := DataInPlace(items[..n], start, symbol);
      assert items[..n][..i] == items[..i];
    }
  }

  // ---------------------------------------------------------------------------------------------------------------
  // Decoding what was encoded
  // ---------------------------------------------------------------------------------------------------------------

  /** What an instruction needs, by its format: a label must be known, and where one can be given in several ways the
      first that is present counts. */
  predicate Complete(n: Node, dataMap: Labels, labelMap: Labels)
    requires n.instruction.Some?
  {
    var target := if n.name1.Some? then n.name1 else n.name;
    match n.instruction.value
    case END | PRINT => true
    case ADD | SUB | AND | OR | MULT | DIV => n.rd.Some? && n.rs.Some? && n.rt.Some?
    case SLL | SRL => n.rd.Some? && n.rt.Some? && n.shamt.Some?
    case JR => n.rs.Some?
    case ADDI | ANDI | ORI | SLTI => n.rs.Some? && n.rt.Some? && n.immediate.Some?
    case LI => n.rt.Some? && n.immediate.Some?
    case LW | SW =>
      n.rt.Some? && (n.addr.Some? || n.baseReg.Some? || (n.base.Some? && n.base.value in dataMap))
    case BEQ | BNE | BGT | BLT =>
      && n.rs.Some? && n.rt.Some?
      && if target.Some? && target.value != "" then target.value in labelMap else n.offset.Some?
    case J | JAL => if target.Some? then target.value in labelMap else n.address.Some?
    case UNKNOWN => false
  }

  /** Exactly the complete instructions are encoded, and an unknown label is reported by its name. */
  lemma EncodesExactly(n: Node, dataMap: Labels, labelMap: Labels)
    requires n.instruction.Some?
    ensures Encode(n, dataMap, labelMap).Ok? <==> Complete(n, dataMap, labelMap)
    ensures var e := Encode(n, dataMap, labelMap);
            && (e == Fail(UnknownInstruction) <==> n.instruction.value == UNKNOWN)
            && (e.Fail? && e.error.UnknownLabel? ==>
                  if n.instruction.value in {LW, SW} then n.base == Some(e.error.name) && e.error.name !in dataMap
                  else (n.name1 == Some(e.error.name) || n.name == Some(e.error.name)) && e.error.name !in labelMap)
  {
    hide BuildR, BuildI, BuildJ, OpcodeOf, FunctCode;
  }

  lemma RegisterFields(rs: Reg, rt: Reg, rd: Reg, low: nat)
    requires low < 0x800
    ensures var w := rs * 0x20_0000 + rt * 0x1_0000 + rd * 0x800 + low;
            Opcode(w) == 0 && Rs(w) == rs && Rt(w) == rt && Rd(w) == rd
  {
  }

  lemma FunctField(high: nat, funct: nat)
    requires funct < 64 && high * 64 + funct < 0x1_0000_0000
    ensures Funct(high * 64 + funct) == funct
  {
  }

  lemma FieldsOfR(rs: Reg, rt: Reg, rd: Reg, shamt: int, funct: nat)
    requires funct < 64
    ensures var w := BuildR(rs, rt, rd, shamt, funct);
            Opcode(w) == 0 && Rs(w) == rs && Rt(w) == rt && Rd(w) == rd && Funct(w) == funct
  {
    hide Opcode, Rs, Rt, Rd, Funct;
    var s: nat := shamt % 32;
    RegisterFields(rs, rt, rd, s * 64 + funct);
    FunctField(rs * 0x8000 + rt * 0x400 + rd * 0x20 + s, funct);
  }

  lemma FieldsOfI(opcode: nat, rs: Reg, rt: Reg, immediate: int)
    requires opcode < 64
    ensures var w := BuildI(opcode, rs, rt, immediate);
            Opcode(w) == opcode && Rs(w) == rs && Rt(w) == rt && Imm16(w) == immediate % 0x1_0000
  {
    hide Opcode, Rs, Rt, Imm16;
    ImmediateFields(opcode, rs, rt, immediate % 0x1_0000);
  }

  lemma ImmediateFields(opcode: nat, rs: Reg, rt: Reg, low: nat)
    requires opcode < 64 && low < 0x1_0000
    ensures var w := opcode * 0x400_0000 + rs * 0x20_0000 + rt * 0x1_0000 + low;
            Opcode(w) == opcode && Rs(w) == rs && Rt(w) == rt && Imm16(w) == low
  {
    var registers := rs * 0x20_0000 + rt * 0x1_0000 + low;
    assert (opcode * 0x400_0000 + registers) / 0x400_0000 == opcode;
    AboveBit21(opcode * 32 + rs, rt * 0x1_0000 + low);
    AboveBit16((opcode * 32 + rs) * 32 + rt, low);
  }

  lemma AboveBit21(high: nat, low: nat)
    requires low < 0x20_0000
    ensures (high * 0x20_0000 + low) / 0x20_0000 == high
  {
  }

  lemma AboveBit16(high: nat, low: nat)
    requires low < 0x1_0000
    ensures (high * 0x1_0000 + low) / 0x1_0000 == high && (high * 0x1_0000 + low) % 0x1_0000 == low
  {
  }

  lemma FieldsOfJ(opcode: nat, address: int)
    requires opcode < 64
    ensures var w := BuildJ(opcode, address); Opcode(w) == opcode && Imm26(w) == address % 0x400_0000
  {
  }

  /** The decoder's name for what a mnemonic means, if it has one. */
  function Meant(m: Mnemonic): Option<Op> {
    match m
    case ADD => Some(Add)
    case SUB => Some(Sub)
    case MULT => Some(Mult)
    case DIV => Some(Div)
    case ADDI => Some(Addi)
    case SLTI => Some(Slti)
    case LI => Some(Addi)
    case LW => Some(Lw)
    case SW => Some(Sw)
    case BEQ => Some(Beq)
    case BNE => Some(Bne)
    case BGT => Some(Bgt)
    case BLT => Some(Blt)
    case J => Some(Op.J)
    case JAL => Some(Jal)
    case ANDI => Some(Andi)
    case PRINT => Some(Print)
    case END => Some(End)
    case _ => None
  }

  /** The opcode of an encoded instruction. */
  lemma EncodedOpcode(n: Node, dataMap: Labels, labelMap: Labels)
    requires n.instruction.Some? && Encode(n, dataMap, labelMap).Ok?
    ensures var m, w := n.instruction.value, Encode(n, dataMap, labelMap).value;
            if HasFunct(m) then Opcode(w) == 0 && Funct(w) == FunctCode(m)
            else Opcode(w) == if m == LI then OpcodeOf(ADDI) else OpcodeOf(m)
  {
    hide Opcode, Funct, Rs, Rt, Rd, Imm16, Imm26, BuildR, BuildI, BuildJ;
    var m := n.instruction.value;
    if m == END || m == PRINT {
      PlainOpcode(OpcodeOf(m));
    } else if HasFunct(m) {
      EncodedOpcodeR(m, n);
    } else if m == Mnemonic.J || m == JAL {
      EncodedOpcodeJ(m, n, labelMap);
    } else {
      EncodedOpcodeI(n, dataMap, labelMap);
    }
  }

  lemma PlainOpcode(opcode: nat)
    requires opcode < 64
    ensures Opcode(opcode * 0x400_0000) == opcode
  {
  }

  lemma EncodedOpcodeR(m: Mnemonic, n: Node)
    requires HasFunct(m) && EncodeR(m, n).Ok?
    ensures var w := EncodeR(m, n).value; Opcode(w) == 0 && Funct(w) == FunctCode(m)
  {
    hide Opcode, Funct, Rs, Rt, Rd, BuildR;
    if m == SLL || m == SRL {
      FieldsOfR(0, n.rt.value, n.rd.value, n.shamt.value, FunctCode(m));
    } else if m == JR {
      FieldsOfR(n.rs.value, 0, 0, 0, FunctCode(m));
    } else {
      FieldsOfR(n.rs.value, n.rt.value, n.rd.value, 0, FunctCode(m));
    }
  }

  lemma EncodedOpcodeJ(m: Mnemonic, n: Node, labelMap: Labels)
    requires EncodeJump(m, n, labelMap).Ok?
    ensures Opcode(EncodeJump(m, n, labelMap).value) == OpcodeOf(m)
  {
    hide Opcode, Imm26, BuildJ;
    if n.name.Some? || n.name1.Some? {
      FieldsOfJ(OpcodeOf(m), labelMap[TargetName(n)]);
    } else {
      FieldsOfJ(OpcodeOf(m), n.address.value);
    }
  }

  /** An I-type word has the opcode it was built with. */
  lemma EncodedOpcodeI(n: Node, dataMap: Labels, labelMap: Labels)
    requires n.instruction.Some? && Encode(n, dataMap, labelMap).Ok?
    requires n.instruction.value !in {END, PRINT, Mnemonic.J, JAL} && !HasFunct(n.instruction.value)
    ensures var m := n.instruction.value;
            Opcode(Encode(n, dataMap, labelMap).value) == if m == LI then OpcodeOf(ADDI) else OpcodeOf(m)
  {
    hide Opcode, Rs, Rt, Imm16, BuildI;
    var m := n.instruction.value;
    forall opcode: nat, rs: Reg, rt: Reg, immediate: int | opcode < 64
      ensures Opcode(BuildI(opcode, rs, rt, immediate)) == opcode
    {
      FieldsOfI(opcode, rs, rt, immediate);
    }
  }

  /** The codes of the instruction set, mnemonic by mnemonic; `li` has the code of `addi`. */
  lemma {:induction false} CodesWritten(n: Node, dataMap: Labels, labelMap: Labels)
    requires n.instruction.Some? && Encode(n, dataMap, labelMap).Ok?
    ensures var m, w := n.instruction.value, Encode(n, dataMap, labelMap).value;
            && (m in {ADD, SUB, AND, OR, MULT, DIV, SLL, SRL, JR} <==> Opcode(w) == 0)
            && (m == ADD ==> Funct(w) == 0x20) && (m == SUB ==> Funct(w) == 0x22) && (m == AND ==> Funct(w) == 0x24)
            && (m == OR ==> Funct(w) == 0x25) && (m == MULT ==> Funct(w) == 0x18) && (m == DIV ==> Funct(w) == 0x1A)
            && (m == SLL ==> Funct(w) == 0x00) && (m == SRL ==> Funct(w) == 0x02) && (m == JR ==> Funct(w) == 0x08)
            && (m == Mnemonic.J <==> Opcode(w) == 0x02) && (m == JAL <==> Opcode(w) == 0x03)
            && (m == BEQ <==> Opcode(w) == 0x04) && (m == BNE <==> Opcode(w) == 0x05)
            && (m == BGT <==> Opcode(w) == 0x07) && (m == BLT <==> Opcode(w) == 0x09)
            && (m in {ADDI, LI} <==> Opcode(w) == 0x08) && (m == SLTI <==> Opcode(w) == 0x0A)
            && (m == ANDI <==> Opcode(w) == 0x0C) && (m == ORI <==> Opcode(w) == 0x0D)
            && (m == LW <==> Opcode(w) == 0x23) && (m == SW <==> Opcode(w) == 0x2B)
            && (m == PRINT <==> w == 0xF800_0000) && (m == END <==> w == 0xFC00_0000)
  {
    assert n.instruction.value != UNKNOWN;
    hide Encode, Opcode, Funct;
    EncodedOpcode(n, dataMap, labelMap);
  }

  /** The exact set of mnemonics on which assembler and decoder agree: `blt` is taken for another operation, and the
      decoder does not know the code of `print`, `ori`, `and`, `or`, the shifts and `jr`. */
  lemma TablesAgreeExactly(n: Node, dataMap: Labels, labelMap: Labels)
    requires n.instruction.Some? && Encode(n, dataMap, labelMap).Ok?
    ensures var m, op := n.instruction.value, Identify(Encode(n, dataMap, labelMap).value);
            && (Meant(m) == Some(op) <==> m !in {BLT, PRINT, ORI, AND, OR, SLL, SRL, JR})
            && (m == BLT ==> op == Addiu)
            && (m in {PRINT, ORI, AND, OR, SLL, SRL, JR} ==> op == Nop)
  {
    assert n.instruction.value != UNKNOWN;
    hide Encode, Opcode, Funct;
    EncodedOpcode(n, dataMap, labelMap);
  }

  /** The registers of the R-type instructions the decoder does not know, and the amount of a shift. */
  lemma {:induction false} RegistersWritten(n: Node, dataMap: Labels, labelMap: Labels)
    requires n.instruction.Some? && n.instruction.value in {AND, OR, SLL, SRL, JR} && Encode(n, dataMap, labelMap).Ok?
    ensures var m, w := n.instruction.value, Encode(n, dataMap, labelMap).value;
            && (m in {AND, OR} ==> n.rs == Some(Rs(w)) && n.rt == Some(Rt(w)) && n.rd == Some(Rd(w)))
            && (m in {SLL, SRL} ==>
                  && n.rt == Some(Rt(w)) && n.rd == Some(Rd(w)) && Rs(w) == 0
                  && n.shamt.Some? && w / 64 % 32 == n.shamt.value % 32)
            && (m == JR ==> n.rs == Some(Rs(w)) && Rt(w) == Rd(w) == 0)
  {
    hide Opcode, Funct, Rs, Rt, Rd, BuildR;
    var m := n.instruction.value;
    if m == SLL || m == SRL {
      FieldsOfR(0, n.rt.value, n.rd.value, n.shamt.value, FunctCode(m));
      ShiftField(n.rt.value, n.rd.value, n.shamt.value, FunctCode(m));
    } else if m == JR {
      FieldsOfR(n.rs.value, 0, 0, 0, FunctCode(m));
    } else {
      FieldsOfR(n.rs.value, n.rt.value, n.rd.value, 0, FunctCode(m));
    }
  }

  lemma {:induction false} ShiftField(rt: Reg, rd: Reg, shamt: int, funct: nat)
    requires funct < 64
    ensures BuildR(0, rt, rd, shamt, funct) / 64 % 32 == shamt % 32
  {
    var s: nat := shamt % 32;
    var high: nat := rt * 0x20 + rd;
    assert BuildR(0, rt, rd, shamt, funct) == (high * 32 + s) * 64 + funct;
    assert ((high * 32 + s) * 64 + funct) / 64 == high * 32 + s;
  }

  /** Decoding gives back operation and registers of three-register arithmetic. */
  lemma RoundTripR(n: Node, dataMap: Labels, labelMap: Labels)
    requires n.instruction.Some? && n.instruction.value in {ADD, SUB, MULT, DIV} && Encode(n, dataMap, labelMap).Ok?
    ensures n.rd.Some? && n.rs.Some? && n.rt.Some?
    ensures DecodeWord(Encode(n, dataMap, labelMap).value)
            == Instr(Meant(n.instruction.value).value, n.rs.value, n.rt.value, n.rd.value, 0, 0)
  {
    hide Opcode, Funct, Rs, Rt, Rd, BuildR;
    FieldsOfR(n.rs.value, n.rt.value, n.rd.value, 0, FunctCode(n.instruction.value));
  }

  /** The instruction an I-type word decodes to. */
  function InstrI(op: Op, rs: Reg, rt: Reg, immediate: int): Instr {
    Instr(op, rs, rt, 0, immediate % 0x1_0000, SignExtend16(immediate % 0x1_0000))
  }

  lemma DecodeI(m: Mnemonic, rs: Reg, rt: Reg, immediate: int)
    requires m in {ADDI, SLTI, LW, SW, BEQ, BNE, BGT}
    ensures DecodeWord(BuildI(OpcodeOf(m), rs, rt, immediate)) == InstrI(Meant(m).value, rs, rt, immediate)
  {
    hide Opcode, Funct, Rs, Rt, Rd, Imm16, BuildI;
    FieldsOfI(OpcodeOf(m), rs, rt, immediate);
  }

  /** `addi` and `slti` come back as they were written, and `li` as `addi` from $zero. */
  lemma RoundTripImmediate(n: Node, dataMap: Labels, labelMap: Labels)
    requires n.instruction.Some? && n.instruction.value in {ADDI, SLTI, LI} && Encode(n, dataMap, labelMap).Ok?
    ensures n.rt.Some? && n.immediate.Some? && (n.instruction.value != LI ==> n.rs.Some?)
    ensures var m := n.instruction.value;
            DecodeWord(Encode(n, dataMap, labelMap).value)
            == InstrI(Meant(m).value, if m == LI then 0 else n.rs.value, n.rt.value, n.immediate.value)
  {
    hide DecodeWord, BuildI, InstrI;
    var m := n.instruction.value;
    DecodeI(if m == LI then ADDI else m, if m == LI then 0 else n.rs.value, n.rt.value, n.immediate.value);
  }

  /** `lw` and `sw` come back with their base register and offset: as written together, as written one by one, the
      offset 0 if it is missing, or $zero and the address of a data label plus the offset. */
  lemma RoundTripMemory(n: Node, dataMap: Labels, labelMap: Labels)
    requires n.instruction.Some? && n.instruction.value in {LW, SW} && Encode(n, dataMap, labelMap).Ok?
    ensures n.rt.Some? && (n.addr.None? && n.baseReg.None? ==> n.base.Some? && n.base.value in dataMap)
    ensures var i := DecodeWord(Encode(n, dataMap, labelMap).value);
            var op := if n.instruction.value == LW then Lw else Sw;
            var offset := if n.offset == None then 0 else n.offset.value;
            && (n.addr.Some? ==> i == InstrI(op, n.addr.value.1, n.rt.value, n.addr.value.0))
            && (n.addr.None? && n.baseReg.Some? ==> i == InstrI(op, n.baseReg.value, n.rt.value, offset))
            && (n.addr.None? && n.baseReg.None? ==>
                  i == InstrI(op, 0, n.rt.value, dataMap[n.base.value] + offset))
  {
    hide DecodeWord, BuildI, InstrI, OpcodeOf;
    var m, offset := n.instruction.value, OffsetOr0(n);
    assert Encode(n, dataMap, labelMap) == EncodeMemory(m, n, dataMap);
    if n.addr.Some? {
      DecodeI(m, n.addr.value.1, n.rt.value, n.addr.value.0);
    } else if n.baseReg.Some? {
      DecodeI(m, n.baseReg.value, n.rt.value, offset);
    } else {
      DecodeI(m, 0, n.rt.value, dataMap[n.base.value] + offset);
    }
  }

  /** The label a branch or jump goes to. */
  predicate GoesTo(n: Node, symbol: string) {
    if n.name1.Some? then n.name1 == Some(symbol) else n.name == Some(symbol)
  }

  /** `beq`, `bne` and `bgt` come back with the address of the label they go to, or with their offset if they go to
      none. */
  lemma RoundTripBranch(n: Node, dataMap: Labels, labelMap: Labels, symbol: string)
    requires n.instruction.Some? && n.instruction.value in {BEQ, BNE, BGT} && Encode(n, dataMap, labelMap).Ok?
    requires GoesTo(n, symbol) || (n.name.None? && n.name1.None? && symbol == "")
    ensures n.rs.Some? && n.rt.Some? && if symbol != "" then symbol in labelMap else n.offset.Some?
    ensures DecodeWord(Encode(n, dataMap, labelMap).value)
            == InstrI(Meant(n.instruction.value).value, n.rs.value, n.rt.value,
                      if symbol != "" then labelMap[symbol] else n.offset.value)
  {
    hide DecodeWord, BuildI, InstrI;
    DecodeI(n.instruction.value, n.rs.value, n.rt.value, if symbol != "" then labelMap[symbol] else n.offset.value);
  }

  /** `j` comes back with the address of the label it goes to, or with its own, reduced to 26 bits. */
  lemma RoundTripJump(n: Node, dataMap: Labels, labelMap: Labels, symbol: string)
    requires n.instruction == Some(Mnemonic.J) && Encode(n, dataMap, labelMap).Ok?
    requires GoesTo(n, symbol) || (n.name.None? && n.name1.None?)
    ensures if GoesTo(n, symbol) then symbol in labelMap else n.address.Some?
    ensures var a := (if GoesTo(n, symbol) then labelMap[symbol] else n.address.value) % 0x400_0000;
            DecodeWord(Encode(n, dataMap, labelMap).value) == Instr(Op.J, 0, 0, 0, a, a)
  {
    hide Opcode, Funct, Imm26, BuildJ;
    FieldsOfJ(OpcodeOf(Mnemonic.J), if GoesTo(n, symbol) then labelMap[symbol] else n.address.value);
  }

  /** Operands of the other instructions the decoder drops or takes for another operation. */
  lemma {:induction false} OperandsWritten(n: Node, dataMap: Labels, labelMap: Labels, symbol: string)
    requires n.instruction.Some? && n.instruction.value in {ANDI, ORI, BLT, JAL} && Encode(n, dataMap, labelMap).Ok?
    ensures var m, w := n.instruction.value, Encode(n, dataMap, labelMap).value;
            && (m != JAL ==> n.rs == Some(Rs(w)) && n.rt == Some(Rt(w)))
            && (m in {ANDI, ORI} ==> n.immediate.Some? && Imm16(w) == n.immediate.value % 0x1_0000)
            && (m == BLT && symbol != "" && GoesTo(n, symbol) ==>
                  symbol in labelMap && Imm16(w) == labelMap[symbol] % 0x1_0000)
            && (m == JAL && GoesTo(n, symbol) ==> symbol in labelMap && Imm26(w) == labelMap[symbol] % 0x400_0000)
  {
    hide Opcode, Funct, Rs, Rt, Rd, Imm16, Imm26, BuildI, BuildJ;
    var opcode := OpcodeOf(n.instruction.value);
    forall rs: Reg, rt: Reg, immediate: int
      ensures var w := BuildI(opcode, rs, rt, immediate);
              Rs(w) == rs && Rt(w) == rt && Imm16(w) == immediate % 0x1_0000
    {
      FieldsOfI(opcode, rs, rt, immediate);
    }
    forall address: int
      ensures Imm26(BuildJ(opcode, address)) == address % 0x400_0000
    {
      FieldsOfJ(opcode, address);
    }
  }

  /** `end` becomes the word fetching stops at. */
  lemma RoundTripEnd(n: Node, dataMap: Labels, labelMap: Labels)
    requires n.instruction == Some(END)
    ensures Encode(n, dataMap, labelMap) == Ok(END_SENTINEL) && Identify(END_SENTINEL) == End
  {
  }

  // ---------------------------------------------------------------------------------------------------------------
  // Running what was assembled
  // ---------------------------------------------------------------------------------------------------------------

  /** The process is about to execute an entry of the program, which is still in memory as loaded. */
  ghost predicate AtEntry(q: Arch, mem: Mem, items: seq<DataItem>, nodes: seq<Node>, start: nat, i: nat) {
    && i < |nodes| && nodes[i].instruction.Some?
    && q.pc == AddressOf(items, nodes, start, i)
    && forall a: Word | CodeStart(items, start) <= a < CodeStart(items, start) + 4 * CodeLength(nodes) ::
         Load(q.mem, a) == Load(Image(mem, items, nodes, start), a)
  }

  lemma CurrentIsDecoded(q: Arch, mem: Mem, items: seq<DataItem>, nodes: seq<Node>, start: nat, i: nat)
    requires Fits(items, nodes, start) && AtEntry(q, mem, items, nodes, start, i)
    ensures EncodeIn(items, nodes, start, i).Ok? && Current(q) == DecodeWord(EncodeIn(items, nodes, start, i).value)
  {
    InstructionInPlace(mem, items, nodes, start, i);
    AssembleAt(nodes, DataLabels(items, start, map[]), LabelMap(items, nodes, start), i);
    hide Encode, DecodeWord, Load, Image, Assemble, LabelsOf, DataLabels, DataWords;
  }

  /** The condition of a branch. */
  predicate Holds(m: Mnemonic, a: Word, b: Word) {
    match m
    case BEQ => a == b
    case BNE => a != b
    case _ => Signed(a) > Signed(b)
  }

  lemma BranchTarget(address: nat)
    requires address < 0x8000_0000
    ensures ToWord(SignExtend16(address % 0x1_0000)) == address <==> address < 0x8000
  {
  }

  lemma BranchExec(m: Mnemonic, rs: Reg, rt: Reg, address: nat, q: Arch)
    requires m in {BEQ, BNE, BGT} && address < 0x8000_0000
    ensures var r := Exec(InstrI(Meant(m).value, rs, rt, address), q);
            && (!Holds(m, q.regs[rs], q.regs[rt]) ==> r.pc == ToWord(q.pc + 4))
            && (Holds(m, q.regs[rs], q.regs[rt]) ==> (r.pc == address <==> address < 0x8000))
  {
    hide Signed;
    BranchTarget(address);
  }

  /** A branch reaches its label: a taken `beq`, `bne` or `bgt` sets the PC to the address of the last entry that
      carries the label exactly when that address is below 0x8000, and the word there is that entry's; an untaken one
      goes on to the next instruction. */
  lemma BranchReachesLabelExactly(q: Arch, mem: Mem, items: seq<DataItem>, nodes: seq<Node>, start: nat, i: nat,
                                  symbol: string)
      returns (target: nat)
    requires Fits(items, nodes, start) && AtEntry(q, mem, items, nodes, start, i)
    requires nodes[i].instruction.value in {BEQ, BNE, BGT} && GoesTo(nodes[i], symbol) && symbol != ""
    ensures nodes[i].rs.Some? && nodes[i].rt.Some? && Defines(nodes, target, symbol)
    ensures var a, next := AddressOf(items, nodes, start, target), Step(q).pc;
            if Holds(nodes[i].instruction.value, q.regs[nodes[i].rs.value], q.regs[nodes[i].rt.value]) then
              && (next == a <==> a < 0x8000)
              && (next == a ==>
                    EncodeIn(items, nodes, start, target) == Ok(Load(Image(mem, items, nodes, start), next)))
            else next == ToWord(q.pc + 4)
  {
    hide Encode, DecodeWord, Load, Image, Exec, Holds, Fits, InstrI;
    CurrentIsDecoded(q, mem, items, nodes, start, i);
    var labels := LabelMap(items, nodes, start);
    RoundTripBranch(nodes[i], DataLabels(items, start, map[]), labels, symbol);
    target := LabelInPlace(mem, items, nodes, start, symbol);
    BranchExec(nodes[i].instruction.value, nodes[i].rs.value, nodes[i].rt.value, labels[symbol], q);
  }

  lemma JumpExec(address: nat, q: Arch)
    requires address < 0x8000_0000
    ensures var a := address % 0x400_0000;
            Exec(Instr(Op.J, 0, 0, 0, a, a), q).pc == address <==> address < 0x400_0000
  {
  }

  /** A `j` reaches the last entry that carries its label exactly when that entry's address fits in 26 bits. */
  lemma JumpReachesLabelExactly(q: Arch, mem: Mem, items: seq<DataItem>, nodes: seq<Node>, start: nat, i: nat,
                                symbol: string)
      returns (target: nat)
    requires Fits(items, nodes, start) && AtEntry(q, mem, items, nodes, start, i)
    requires nodes[i].instruction.value == Mnemonic.J && GoesTo(nodes[i], symbol)
    ensures Defines(nodes, target, symbol)
    ensures var a, next := AddressOf(items, nodes, start, target), Step(q).pc;
            && (next == a <==> a < 0x400_0000)
            && (next == a ==> EncodeIn(items, nodes, start, target) == Ok(Load(Image(mem, items, nodes, start), next)))
  {
    hide Encode, DecodeWord, Load, Image, Exec, Fits;
    CurrentIsDecoded(q, mem, items, nodes, start, i);
    var labels := LabelMap(items, nodes, start);
    RoundTripJump(nodes[i], DataLabels(items, start, map[]), labels, symbol);
    target := LabelInPlace(mem, items, nodes, start, symbol);
    JumpExec(labels[symbol], q);
  }

  lemma LoadExec(rt: Reg, address: int, q: Arch)
    ensures Exec(InstrI(Lw, 0, rt, address), q).regs == Put(q.regs, rt, Load(q.mem, address % 0x1_0000))
  {
  }

  /** A `lw` of a data label reads the address of the item the label stands for plus the offset, whatever the offset,
      reduced to 16 bits; and if that is a word of the data section, it reads that word. */
  lemma LoadReadsData(q: Arch, mem: Mem, items: seq<DataItem>, nodes: seq<Node>, start: nat, i: nat)
      returns (item: nat)
    requires Fits(items, nodes, start) && AtEntry(q, mem, items, nodes, start, i)
    requires var n := nodes[i]; n.instruction.value == LW && n.addr.None? && n.baseReg.None?
    requires forall a: Word | start <= a < CodeStart(items, start) ::
               Load(q.mem, a) == Load(Image(mem, items, nodes, start), a)
    ensures nodes[i].rt.Some? && nodes[i].base.Some? && item < |items| && items[item].name == nodes[i].base
    ensures var a := DataAddress(items, start, item) + if nodes[i].offset == None then 0 else nodes[i].offset.value;
            var d := a - start;
            && Step(q).regs == Put(q.regs, nodes[i].rt.value, Load(q.mem, a % 0x1_0000))
            && (0 <= d < 4 * |DataWords(items)| && d % 4 == 0 && a < 0x1_0000 ==>
                  Load(q.mem, a % 0x1_0000) == DataWords(items)[d / 4])
  {
    hide Encode, DecodeWord, Load, Image, Exec, Assemble, LabelsOf, InstrI;
    CurrentIsDecoded(q, mem, items, nodes, start, i);
    var labels := DataLabels(items, start, map[]);
    RoundTripMemory(nodes[i], labels, LabelMap(items, nodes, start));
    item := DataInPlace(items, start, nodes[i].base.value);
    var a := DataAddress(items, start, item) + OffsetOr0(nodes[i]);
    LoadExec(nodes[i].rt.value, a, q);
    var d := a - start;
    if 0 <= d < 4 * |DataWords(items)| && d % 4 == 0 && a < 0x1_0000 {
      DataWord(mem, items, nodes, start, d / 4);
      assert start + 4 * (d / 4) == a == a % 0x1_0000;
    }
  }

  /** A word of the data section in the image. */
  lemma DataWord(mem: Mem, items: seq<DataItem>, nodes: seq<Node>, start: nat, k: nat)
    requires Fits(items, nodes, start) && k < |DataWords(items)|
    ensures var a := start + 4 * k;
            start <= a < CodeStart(items, start) && Load(Image(mem, items, nodes, start), a) == DataWords(items)[k]
  {
    ImageIsExact(mem, items, nodes, start);
    hide Load, Image, Assemble, LabelsOf, DataLabels, DataWords, Fits;
  }

  /** `li` leaves the sign-extended immediate. */
  lemma LoadImmediate(q: Arch, mem: Mem, items: seq<DataItem>, nodes: seq<Node>, start: nat, i: nat)
    requires Fits(items, nodes, start) && AtEntry(q, mem, items, nodes, start, i) && q.regs[0] == 0
    requires nodes[i].instruction.value == LI
    ensures nodes[i].rt.Some? && nodes[i].immediate.Some?
    ensures Step(q).regs == Put(q.regs, nodes[i].rt.value, ToWord(SignExtend16(nodes[i].immediate.value % 0x1_0000)))
  {
    hide Encode, DecodeWord, Load, Image, Fits;
    CurrentIsDecoded(q, mem, items, nodes, start, i);
    RoundTripImmediate(nodes[i], DataLabels(items, start, map[]), LabelMap(items, nodes, start));
  }
}
