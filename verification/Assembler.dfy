/** The two-pass assembler (src/parser_json/parser_json.cpp) on a program already read from JSON. */
module Assembler {
  import opened Words

  datatype Mnemonic =
    | ADD | SUB | AND | OR | MULT | DIV | SLL | SRL | JR
    | ADDI | ANDI | ORI | SLTI | LW | SW | BEQ | BNE | BGT | BLT | LI
    | PRINT | END | J | JAL
    | UNKNOWN

  /** An entry of the program list with the fields that may be present; register names are already numbers. An entry
      without instruction produces no code. `name` is the field "label" and `name1` the field "label1". */
  datatype Node = Node(
    instruction: Option<Mnemonic>, name: Option<string>, name1: Option<string>,
    rd: Option<Reg>, rs: Option<Reg>, rt: Option<Reg>, shamt: Option<int>, immediate: Option<int>, offset: Option<int>,
    address: Option<nat>, addr: Option<(int, Reg)>, baseReg: Option<Reg>, base: Option<string>)

  /** A data entry: its words, reachable by its label if it has one. */
  datatype DataItem = DataItem(name: Option<string>, words: seq<Word>)

  datatype Error = MissingField | UnknownLabel(name: string) | UnknownInstruction

  datatype Outcome<+T> = Ok(value: T) | Fail(error: Error)

  type Labels = map<string, int>

  // ---------------------------------------------------------------------------------------------------------------
  // Encoding
  // ---------------------------------------------------------------------------------------------------------------

  /** The functions coded with opcode 0. */
  predicate HasFunct(m: Mnemonic) {
    m in {ADD, SUB, AND, OR, MULT, DIV, SLL, SRL, JR}
  }

  function FunctCode(m: Mnemonic): nat {
    match m
    case ADD => 0x20
    case SUB => 0x22
    case AND => 0x24
    case OR => 0x25
    case MULT => 0x18
    case DIV => 0x1A
    case SRL => 0x02
    case JR => 0x08
    case _ => 0x00
  }

  function OpcodeOf(m: Mnemonic): (opcode: nat)
    ensures opcode < 64
  {
    match m
    case ADDI => 0x08
    case ANDI => 0x0C
    case ORI => 0x0D
    case SLTI => 0x0A
    case LW => 0x23
    case SW => 0x2B
    case BEQ => 0x04
    case BNE => 0x05
    case BGT => 0x07
    case BLT => 0x09
    case LI => 0x0F
    case PRINT => 0x3E
    case END => 0x3F
    case J => 0x02
    case JAL => 0x03
    case _ => 0x00
  }

  predicate IsBranchOrJump(m: Mnemonic) {
    m in {J, JAL, BEQ, BNE, BGT, BLT}
  }

  function BuildR(rs: Reg, rt: Reg, rd: Reg, shamt: int, funct: nat): Word
    requires funct < 64
  {
    rs * 0x20_0000 + rt * 0x1_0000 + rd * 0x800 + shamt % 32 * 64 + funct
  }

  function BuildI(opcode: nat, rs: Reg, rt: Reg, immediate: int): Word
    requires opcode < 64
  {
    opcode * 0x400_0000 + rs * 0x20_0000 + rt * 0x1_0000 + immediate % 0x1_0000
  }

  function BuildJ(opcode: nat, address: int): Word
    requires opcode < 64
  {
    opcode * 0x400_0000 + address % 0x400_0000
  }

  function EncodeR(m: Mnemonic, n: Node): Outcome<Word>
    requires HasFunct(m)
  {
    if m == SLL || m == SRL then
      if n.rd.None? || n.rt.None? || n.shamt.None? then Fail(MissingField)
      else Ok(BuildR(0, n.rt.value, n.rd.value, n.shamt.value, FunctCode(m)))
    else if m == JR then
      if n.rs.None? then Fail(MissingField) else Ok(BuildR(n.rs.value, 0, 0, 0, FunctCode(m)))
    else if n.rd.None? || n.rs.None? || n.rt.None? then Fail(MissingField)
    else Ok(BuildR(n.rs.value, n.rt.value, n.rd.value, 0, FunctCode(m)))
  }

  function OffsetOr0(n: Node): int {
    if n.offset.Some? then n.offset.value else 0
  }

  /** Loads and stores: an explicit base register and offset, or a data label and offset. */
  function EncodeMemory(m: Mnemonic, n: Node, dataMap: Labels): Outcome<Word> {
    if n.rt.None? then Fail(MissingField)
    else if n.addr.Some? then Ok(BuildI(OpcodeOf(m), n.addr.value.1, n.rt.value, n.addr.value.0))
    else if n.baseReg.Some? then Ok(BuildI(OpcodeOf(m), n.baseReg.value, n.rt.value, OffsetOr0(n)))
    else if n.base.Some? then
      if n.base.value !in dataMap then Fail(UnknownLabel(n.base.value))
      else Ok(BuildI(OpcodeOf(m), 0, n.rt.value, dataMap[n.base.value] + OffsetOr0(n)))
    else Fail(MissingField)
  }

  /** The label a branch or jump goes to, or the empty name. */
  function TargetName(n: Node): string {
    if n.name1.Some? then n.name1.value else if n.name.Some? then n.name.value else ""
  }

  function EncodeBranch(m: Mnemonic, n: Node, labelMap: Labels): Outcome<Word> {
    if n.rs.None? || n.rt.None? then Fail(MissingField)
    else if TargetName(n) != "" then
      if TargetName(n) !in labelMap then Fail(UnknownLabel(TargetName(n)))
      else Ok(BuildI(OpcodeOf(m), n.rs.value, n.rt.value, labelMap[TargetName(n)]))
    else if n.offset.Some? then Ok(BuildI(OpcodeOf(m), n.rs.value, n.rt.value, n.offset.value))
    else Fail(MissingField)
  }

  function EncodeJump(m: Mnemonic, n: Node, labelMap: Labels): Outcome<Word> {
    if n.name.Some? || n.name1.Some? then
      if TargetName(n) !in labelMap then Fail(UnknownLabel(TargetName(n)))
      else Ok(BuildJ(OpcodeOf(m), labelMap[TargetName(n)]))
    else if n.address.Some? then Ok(BuildJ(OpcodeOf(m), n.address.value))
    else Fail(MissingField)
  }

  /** The word an instruction becomes. */
  function Encode(n: Node, dataMap: Labels, labelMap: Labels): Outcome<Word>
    requires n.instruction.Some?
  {
    var m := n.instruction.value;
    if m == END || m == PRINT then Ok(OpcodeOf(m) * 0x400_0000)
    else if HasFunct(m) then EncodeR(m, n)
    else if m == J || m == JAL then EncodeJump(m, n, labelMap)
    else if m == UNKNOWN then Fail(UnknownInstruction)
    else if m == LI then
      if n.rt.None? || n.immediate.None? then Fail(MissingField)
      else Ok(BuildI(OpcodeOf(ADDI), 0, n.rt.value, n.immediate.value))
    else if m == LW || m == SW then EncodeMemory(m, n, dataMap)
    else if m in {BEQ, BNE, BGT, BLT} then EncodeBranch(m, n, labelMap)
    else if n.rt.None? || n.rs.None? || n.immediate.None? then Fail(MissingField)
    else Ok(BuildI(OpcodeOf(m), n.rs.value, n.rt.value, n.immediate.value))
  }

  // ---------------------------------------------------------------------------------------------------------------
  // Layout
  // ---------------------------------------------------------------------------------------------------------------

  /** Whether `name` names the entry rather than the target of its jump. */
  predicate DefinesLabel(n: Node) {
    n.instruction.Some? && n.name.Some? && (IsBranchOrJump(n.instruction.value) ==> n.name1.Some?)
  }

  /** How many entries produce code. */
  function CodeLength(nodes: seq<Node>): (n: nat)
    ensures n <= |nodes|
  {
    if nodes == [] then 0
    else CodeLength(nodes[..|nodes| - 1]) + if nodes[|nodes| - 1].instruction.Some? then 1 else 0
  }

  /** Pass 1: addresses of labels; the last definition of a label counts. */
  function LabelsOf(nodes: seq<Node>, start: int, known: Labels): Labels {
    if nodes == [] then known
    else
      var n, before := nodes[|nodes| - 1], nodes[..|nodes| - 1];
      var labels := LabelsOf(before, start, known);
      if DefinesLabel(n) then labels[n.name.value := start + 4 * CodeLength(before)] else labels
  }

  /** Words produced, up to the first error. */
  datatype Assembly = Assembly(words: seq<Word>, error: Option<Error>)

  /** Pass 2: the encoded instructions in order. */
  function Assemble(nodes: seq<Node>, dataMap: Labels, labelMap: Labels): Assembly {
    if nodes == [] then Assembly([], None)
    else
      var n, before := nodes[|nodes| - 1], Assemble(nodes[..|nodes| - 1], dataMap, labelMap);
      if before.error.Some? || n.instruction.None? then before
      else
        match Encode(n, dataMap, labelMap)
        case Ok(w) => before.(words := before.words + [w])
        case Fail(e) => before.(error := Some(e))
  }

  /** All data words in order, and the addresses of their labels. */
  function DataWords(items: seq<DataItem>): seq<Word> {
    if items == [] then [] else DataWords(items[..|items| - 1]) + items[|items| - 1].words
  }

  function DataLabels(items: seq<DataItem>, start: int, known: Labels): Labels {
    if items == [] then known
    else
      var item, before := items[|items| - 1], items[..|items| - 1];
      var labels := DataLabels(before, start, known);
      if item.name.Some? then labels[item.name.value := start + 4 * |DataWords(before)|] else labels
  }

  /** Memory with words stored at successive addresses. */
  function Stored(mem: Mem, start: int, words: seq<Word>): Mem {
    if words == [] then mem
    else
      var n := |words| - 1;
      Stored(mem, start, words[..n])[ToWord(start + 4 * n) := words[n]]
  }

  lemma NoItems(mem: Mem, start: int, known: Labels)
    ensures DataWords([]) == [] && Stored(mem, start, []) == mem && DataLabels([], start, known) == known
  {
  }

  /** One more item of the data section. */
  lemma NextItem(items: seq<DataItem>, i: nat, mem: Mem, start: int, known: Labels)
    requires i < |items|
    ensures DataWords(items[..i + 1]) == DataWords(items[..i]) + items[i].words
    ensures Stored(Stored(mem, start, DataWords(items[..i])), start + 4 * |DataWords(items[..i])|, items[i].words)
            == Stored(mem, start, DataWords(items[..i + 1]))
    ensures var labels := DataLabels(items[..i], start, known);
            DataLabels(items[..i + 1], start, known)
            == if items[i].name.Some? then labels[items[i].name.value := start + 4 * |DataWords(items[..i])|]
               else labels
  {
    hide Stored;
    assert items[..i + 1][..i] == items[..i];
    StoredTwice(mem, start, DataWords(items[..i]), items[i].words);
  }

  lemma StoredNone(mem: Mem, start: int)
    ensures Stored(mem, start, []) == mem
  {
  }

  lemma StoredNext(mem: Mem, start: int, words: seq<Word>, w: Word)
    ensures Stored(mem, start, words + [w]) == Stored(mem, start, words)[ToWord(start + 4 * |words|) := w]
  {
    assert (words + [w])[..|words|] == words;
  }

  lemma {:induction false} StoredTwice(mem: Mem, start: int, a: seq<Word>, b: seq<Word>)
    ensures Stored(Stored(mem, start, a), start + 4 * |a|, b) == Stored(mem, start, a + b)
  {
    if b == [] {
      assert a + b == a;
    } else {
      var n := |b| - 1;
      StoredTwice(mem, start, a, b[..n]);
      assert (a + b)[..|a| + n] == a + b[..n];
    }
  }

  // ---------------------------------------------------------------------------------------------------------------
  // The loader
  // ---------------------------------------------------------------------------------------------------------------

  /** Loads a program into the memory of a process and sets its PC and estimated run time. */
  class Loader {
    var mem: Mem
    var dataMap: Labels
    var labelMap: Labels
    var pc: Word
    var burstTime: int

    constructor (mem: Mem)
      ensures this.mem == mem && dataMap == labelMap == map[] && pc == 0 && burstTime == 0
    {
      this.mem, dataMap, labelMap, pc, burstTime := mem, map[], map[], 0, 0;
    }

    method ParseData(items: seq<DataItem>, start: int) returns (end: int)
      modifies this`mem, this`dataMap
      ensures end == start + 4 * |DataWords(items)|
      ensures mem == Stored(old(mem), start, DataWords(items))
      ensures dataMap == DataLabels(items, start, old(dataMap))
    {
      NoItems(mem, start, dataMap);
      hide DataWords, DataLabels, Stored;
      end := start;
      for i := 0 to |items|
        invariant end == start + 4 * |DataWords(items[..i])|
        invariant mem == Stored(old(mem), start, DataWords(items[..i]))
        invariant dataMap == DataLabels(items[..i], start, old(dataMap))
      {
        NextItem(items, i, old(mem), start, old(dataMap));
        var item := items[i];
        if item.name.Some? {
          dataMap := dataMap[item.name.value := end];
        }
        end := StoreWords(item.words, end);
      }
      assert items[..|items|] == items;
    }

    method StoreWords(words: seq<Word>, start: int) returns (end: int)
      modifies this`mem
      ensures end == start + 4 * |words| && mem == Stored(old(mem), start, words)
    {
      end := start;
      for k := 0 to |words|
        invariant end == start + 4 * k && mem == Stored(old(mem), start, words[..k])
      {
        assert words[..k + 1][..k] == words[..k];
        mem := mem[ToWord(end) := words[k]];
        end := end + 4;
      }
      assert words[..|words|] == words;
    }

    /** Pass 1. */
    method FindLabels(nodes: seq<Node>, start: int)
      modifies this`labelMap, this`burstTime, this`pc
      ensures labelMap == LabelsOf(nodes, start, old(labelMap)) && burstTime == CodeLength(nodes)
      ensures pc == ToWord(if "start" in labelMap then labelMap["start"] else start)
    {
      var address := start;
      for i := 0 to |nodes|
        invariant address == start + 4 * CodeLength(nodes[..i])
        invariant labelMap == LabelsOf(nodes[..i], start, old(labelMap))
      {
        assert nodes[..i + 1][..i] == nodes[..i];
        var n := nodes[i];
        if n.instruction.Some? {
          if DefinesLabel(n) {
            labelMap := labelMap[n.name.value := address];
          }
          address := address + 4;
        }
      }
      assert nodes[..|nodes|] == nodes;
      burstTime := (address - start) / 4;
      pc := ToWord(if "start" in labelMap then labelMap["start"] else start);
    }

    /** Pass 2; an instruction that cannot be encoded stops it. */
    method EmitCode(nodes: seq<Node>, start: int) returns (r: Outcome<int>)
      modifies this`mem
      ensures var code := Assemble(nodes, dataMap, labelMap);
              && mem == Stored(old(mem), start, code.words)
              && r == if code.error == None then Ok(start + 4 * |code.words|) else Fail(code.error.value)
    {
      hide Encode, Stored;
      var address := start;
      ghost var words := [];
      assert Stored(mem, start, []) == mem by { StoredNone(mem, start); }
      for i := 0 to |nodes|
        invariant Assemble(nodes[..i], dataMap, labelMap) == Assembly(words, None)
        invariant address == start + 4 * |words| && mem == Stored(old(mem), start, words)
      {
        AssembleNext(nodes, i, dataMap, labelMap);
        var n := nodes[i];
        if n.instruction.Some? {
          var binary := Encode(n, dataMap, labelMap);
          if binary.Fail? {
            FirstError(nodes, i + 1, dataMap, labelMap);
            return Fail(binary.error);
          }
          mem := mem[ToWord(address) := binary.value];
          address := address + 4;
          StoredNext(old(mem), start, words, binary.value);
          words := words + [binary.value];
        }
      }
      assert nodes[..|nodes|] == nodes;
      r := Ok(address);
    }

    method ParseProgram(nodes: seq<Node>, start: int) returns (r: Outcome<int>)
      modifies this`mem, this`labelMap, this`burstTime, this`pc
      ensures labelMap == LabelsOf(nodes, start, old(labelMap)) && burstTime == CodeLength(nodes)
      ensures pc == ToWord(if "start" in labelMap then labelMap["start"] else start)
      ensures var code := Assemble(nodes, dataMap, labelMap);
              && mem == Stored(old(mem), start, code.words)
              && r == if code.error == None then Ok(start + 4 * |code.words|) else Fail(code.error.value)
    {
      hide LabelsOf, CodeLength, Assemble, Stored;
      FindLabels(nodes, start);
      r := EmitCode(nodes, start);
    }

    /** Data first, code directly behind it. */
    method LoadProgram(items: seq<DataItem>, nodes: seq<Node>, start: int) returns (r: Outcome<int>)
      modifies this
      ensures dataMap == DataLabels(items, start, map[])
      ensures labelMap == LabelsOf(nodes, start + 4 * |DataWords(items)|, map[])
      ensures pc == ToWord(if "start" in labelMap then labelMap["start"] else start + 4 * |DataWords(items)|)
      ensures var code := Assemble(nodes, dataMap, labelMap);
              && mem == Stored(old(mem), start, DataWords(items) + code.words)
              && (r.Ok? <==> code.error == None)
    {
      hide DataWords, DataLabels, LabelsOf, CodeLength, Assemble, Stored;
      dataMap, labelMap := map[], map[];
      var codeStart := ParseData(items, start);
      r := ParseProgram(nodes, codeStart);
      StoredTwice(old(mem), start, DataWords(items), Assemble(nodes, dataMap, labelMap).words);
    }
  }

  /** One more entry. */
  lemma AssembleNext(nodes: seq<Node>, i: nat, dataMap: Labels, labelMap: Labels)
    requires i < |nodes|
    ensures var before, n := Assemble(nodes[..i], dataMap, labelMap), nodes[i];
            before.error == None ==>
              Assemble(nodes[..i + 1], dataMap, labelMap)
              == if n.instruction.None? then before
                 else match Encode(n, dataMap, labelMap)
                      case Ok(w) => Assembly(before.words + [w], None)
                      case Fail(e) => Assembly(before.words, Some(e))
  {
    assert nodes[..i + 1][..i] == nodes[..i];
    hide Encode;
  }

  /** After an error the assembly does not change any more. */
  lemma {:induction false} FirstError(nodes: seq<Node>, i: nat, dataMap: Labels, labelMap: Labels)
    requires i <= |nodes| && Assemble(nodes[..i], dataMap, labelMap).error.Some?
    ensures Assemble(nodes, dataMap, labelMap) == Assemble(nodes[..i], dataMap, labelMap)
  {
    if i < |nodes| {
      assert nodes[..|nodes| - 1][..i] == nodes[..i];
      FirstError(nodes[..|nodes| - 1], i, dataMap, labelMap);
    } else {
      assert nodes[..i] == nodes;
    }
  }
}
