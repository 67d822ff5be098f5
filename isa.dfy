/** The VonNeumann instruction set: 19 opcodes, their mnemonics and argument counts,
    the five operand layouts, and the register file (VonNeumann/isa.py). */
module Isa {
  import opened Wrappers
  import opened Bits

  const NameToOpcode: map<string, int> := map[
    "MOV" := 0, "ADD" := 1, "SUB" := 2, "POP" := 3, "PUSH" := 4, "CALL" := 5,
    "FBEGIN" := 6, "FEND" := 7, "TERM" := 8, "JUMP" := 9, "JUMP_IF_GZ" := 10,
    "PRINT" := 11, "READ" := 12, "PRINTSTR" := 13, "LOADL" := 14, "LOADH" := 15,
    "ADDI" := 16, "SUBI" := 17, "INDIR_CALL" := 18]

  const OpcodeToName: seq<string> := [
    "MOV", "ADD", "SUB", "POP", "PUSH", "CALL", "FBEGIN", "FEND", "TERM", "JUMP",
    "JUMP_IF_GZ", "PRINT", "READ", "PRINTSTR", "LOADL", "LOADH", "ADDI", "SUBI",
    "INDIR_CALL"]

  const OpcodeToNumArgs: seq<int> := [2, 2, 2, 0, 1, 1, 1, 0, 0, 1, 2, 1, 1, 1, 2, 2, 2, 2, 1]

  /** The number of opcodes the tables above define. */
  const OpcodeCount := 19

  const SpecialRegisters: map<string, int> := map["ip" := 0, "sp" := 1, "rv" := 2]
  const SpecialRegistersToName: seq<string> := ["ip", "sp", "rv"]
  const IpIndex := 0
  const SpIndex := 1
  const MaxRegisters := 16

  /** Width in bits of each instruction field. */
  const OpcodeBits := 5
  const AccessBits := 3
  const RegisterBits := 4
  const RegImmBits := 20
  const ImmBits := 27
  const WordBits := 32

  predicate IsReg(addr: int) {
    addr >= 0 && addr < MaxRegisters
  }

  /** The opcodes by name, as NAME_TO_OPCODE assigns them (see OpcodeConstantsMatchTable). */
  const OpMov := 0
  const OpAdd := 1
  const OpSub := 2
  const OpPop := 3
  const OpPush := 4
  const OpCall := 5
  const OpFBegin := 6
  const OpFEnd := 7
  const OpTerm := 8
  const OpJump := 9
  const OpJumpIfGz := 10
  const OpPrint := 11
  const OpRead := 12
  const OpPrintStr := 13
  const OpLoadL := 14
  const OpLoadH := 15
  const OpAddI := 16
  const OpSubI := 17
  const OpIndirCall := 18

  const RegRegInstrs: set<int> := {OpMov, OpAdd, OpSub}
  const RegImmInstrs: set<int> := {OpAddI, OpSubI, OpLoadL, OpLoadH, OpJumpIfGz}
  const RegInstrs: set<int> := {OpPush, OpJump, OpPrint, OpRead, OpIndirCall}
  const ImmInstrs: set<int> := {OpCall, OpFBegin, OpPrintStr}
  const OpcodeOnlyInstrs: set<int> := {OpPop, OpTerm, OpFEnd}

  predicate IsRegRegInstr(opcode: int) { opcode in RegRegInstrs }
  predicate IsRegImmInstr(opcode: int) { opcode in RegImmInstrs }
  predicate IsRegInstr(opcode: int) { opcode in RegInstrs }
  predicate IsImmInstr(opcode: int) { opcode in ImmInstrs }
  predicate IsOpcodeOnlyInstr(opcode: int) { opcode in OpcodeOnlyInstrs }

  /** The five operand layouts of a 32-bit instruction word. */
  datatype Layout = RegRegLayout | RegImmLayout | RegLayout | ImmLayout | OpcodeOnlyLayout

  /** The layout the class predicates assign to an opcode, tested in the decoder's order. */
  function LayoutOf(opcode: int): Option<Layout> {
    if IsRegRegInstr(opcode) then Some(RegRegLayout)
    else if IsRegImmInstr(opcode) then Some(RegImmLayout)
    else if IsRegInstr(opcode) then Some(RegLayout)
    else if IsImmInstr(opcode) then Some(ImmLayout)
    else if IsOpcodeOnlyInstr(opcode) then Some(OpcodeOnlyLayout)
    else None
  }

  /** How many operands an instruction of a layout carries. */
  function OperandCount(l: Layout): nat {
    match l
    case RegRegLayout => 2
    case RegImmLayout => 2
    case RegLayout => 1
    case ImmLayout => 1
    case OpcodeOnlyLayout => 0
  }

  /** OPCODE_TO_NAME maps each of the 19 opcodes to a mnemonic that NAME_TO_OPCODE
      maps back to it. */
  lemma OpcodeToNameInverse()
    ensures |OpcodeToName| == OpcodeCount
    ensures forall op :: 0 <= op < OpcodeCount ==>
              OpcodeToName[op] in NameToOpcode && NameToOpcode[OpcodeToName[op]] == op
  {
  }

  /** NAME_TO_OPCODE maps each mnemonic into 0..18, and OPCODE_TO_NAME maps it back. */
  lemma NameToOpcodeInverse()
    ensures forall name :: name in NameToOpcode ==>
              0 <= NameToOpcode[name] < OpcodeCount && OpcodeToName[NameToOpcode[name]] == name
  {
  }

  /** The named opcodes are the entries of OPCODE_TO_NAME, so NAME_TO_OPCODE maps each
      mnemonic to its constant. */
  lemma OpcodeConstantsMatchTable()
    ensures OpcodeToName[OpMov] == "MOV" && OpcodeToName[OpAdd] == "ADD" && OpcodeToName[OpSub] == "SUB"
    ensures OpcodeToName[OpPop] == "POP" && OpcodeToName[OpPush] == "PUSH" && OpcodeToName[OpCall] == "CALL"
    ensures OpcodeToName[OpFBegin] == "FBEGIN" && OpcodeToName[OpFEnd] == "FEND"
    ensures OpcodeToName[OpTerm] == "TERM" && OpcodeToName[OpJump] == "JUMP"
    ensures OpcodeToName[OpJumpIfGz] == "JUMP_IF_GZ" && OpcodeToName[OpPrint] == "PRINT"
    ensures OpcodeToName[OpRead] == "READ" && OpcodeToName[OpPrintStr] == "PRINTSTR"
    ensures OpcodeToName[OpLoadL] == "LOADL" && OpcodeToName[OpLoadH] == "LOADH"
    ensures OpcodeToName[OpAddI] == "ADDI" && OpcodeToName[OpSubI] == "SUBI"
    ensures OpcodeToName[OpIndirCall] == "INDIR_CALL"
  {
  }

  /** The five class sets partition the opcodes 0..18. */
  lemma ClassesPartitionOpcodes()
    ensures RegRegInstrs !! RegImmInstrs && RegRegInstrs !! RegInstrs && RegRegInstrs !! ImmInstrs
    ensures RegRegInstrs !! OpcodeOnlyInstrs && RegImmInstrs !! RegInstrs && RegImmInstrs !! ImmInstrs
    ensures RegImmInstrs !! OpcodeOnlyInstrs && RegInstrs !! ImmInstrs && RegInstrs !! OpcodeOnlyInstrs
    ensures ImmInstrs !! OpcodeOnlyInstrs
    ensures forall op :: op in RegRegInstrs + RegImmInstrs + RegInstrs + ImmInstrs + OpcodeOnlyInstrs
              <==> 0 <= op < OpcodeCount
  {
  }

  /** Every opcode 0..18 has a layout and no other integer has one. */
  lemma LayoutDefinedExactlyOnOpcodes(opcode: int)
    ensures LayoutOf(opcode).Some? <==> 0 <= opcode < OpcodeCount
  {
    ClassesPartitionOpcodes();
  }

  /** An opcode has a layout exactly when it belongs to that layout's class. */
  lemma LayoutIsClass(opcode: int)
    ensures LayoutOf(opcode) == Some(RegRegLayout) <==> IsRegRegInstr(opcode)
    ensures LayoutOf(opcode) == Some(RegImmLayout) <==> IsRegImmInstr(opcode)
    ensures LayoutOf(opcode) == Some(RegLayout) <==> IsRegInstr(opcode)
    ensures LayoutOf(opcode) == Some(ImmLayout) <==> IsImmInstr(opcode)
    ensures LayoutOf(opcode) == Some(OpcodeOnlyLayout) <==> IsOpcodeOnlyInstr(opcode)
  {
    ClassesPartitionOpcodes();
  }

  /** OPCODE_TO_NUM_ARGS agrees with the operand layout of each opcode. */
  lemma NumArgsMatchesLayout(opcode: int)
    requires 0 <= opcode < OpcodeCount
    ensures LayoutOf(opcode).Some? && OpcodeToNumArgs[opcode] == OperandCount(LayoutOf(opcode).value)
  {
  }

  /** A register index is exactly a value of the 4-bit register field. */
  lemma RegisterIsFourBitField(addr: int)
    ensures IsReg(addr) <==> 0 <= addr < Pow2(RegisterBits)
  {
    assert Pow2(RegisterBits) == 16;
  }

  /** The special register tables are inverse, and IP/SP are the indices of "ip"/"sp". */
  lemma SpecialRegistersInverse()
    ensures |SpecialRegistersToName| == |SpecialRegisters| == 3
    ensures forall i :: 0 <= i < 3 ==> SpecialRegisters[SpecialRegistersToName[i]] == i
    ensures forall name :: name in SpecialRegisters ==>
              0 <= SpecialRegisters[name] < 3 && SpecialRegistersToName[SpecialRegisters[name]] == name
    ensures IpIndex == SpecialRegisters["ip"] && SpIndex == SpecialRegisters["sp"]
  {
    assert SpecialRegisters.Keys == {"ip", "sp", "rv"};
  }

  /** The field widths of every layout add up to at most one 32-bit word. */
  lemma LayoutsFitWord()
    ensures OpcodeBits + 2 * (AccessBits + RegisterBits) <= WordBits
    ensures OpcodeBits + AccessBits + RegisterBits + RegImmBits == WordBits
    ensures OpcodeBits + ImmBits == WordBits
  {
  }

  /** Every opcode fits the 5-bit opcode field. */
  lemma OpcodesFitField()
    ensures forall name :: name in NameToOpcode ==> 0 <= NameToOpcode[name] < Pow2(OpcodeBits)
  {
    assert Pow2(OpcodeBits) == 32;
  }
}
