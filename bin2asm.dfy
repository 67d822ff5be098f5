/** The disassembler (VonNeumann/bin2asm.py): a binary image back to assembly text,
    one line per instruction, PRINTSTR operands looked up in the string table. */
module Bin2Asm {
  import opened Wrappers
  import opened Bits
  import opened Numerals
  import opened Text
  import opened Isa
  import opened Decoder

  /** decode_reg: the name of a register index, "ip"/"sp"/"rv" or "r1".."r13". */
  function RegName(regNumber: int): (r: Result<string>)
    ensures r.Ok? <==> IsReg(regNumber)
    ensures r.Ok? && regNumber < |SpecialRegistersToName| ==> r.value == SpecialRegistersToName[regNumber]
    ensures r.Ok? && regNumber >= |SpecialRegistersToName| ==>
              r.value == "r" + NatToString(regNumber - |SpecialRegistersToName| + 1)
  {
    if !IsReg(regNumber) then Err("AssertionError: not a register")
    else if regNumber < |SpecialRegistersToName| then Ok(SpecialRegistersToName[regNumber])
    else Ok("r" + NatToString(regNumber - |SpecialRegistersToName| + 1))
  }

  /** A register operand as written in assembly: one '*' per level of indirection. */
  function OperandText(access: nat, regNumber: int): (r: Result<string>)
    ensures r.Ok? <==> IsReg(regNumber)
    ensures r.Ok? ==> r.value == Repeat('*', access) + RegName(regNumber).value
  {
    var name :- RegName(regNumber);
    Ok(Repeat('*', access) + name)
  }

  /** decode_one_arg: a register operand for the one-register class, otherwise
      (asserted to be the one-immediate class) the immediate in decimal. */
  function DecodeOneArg(instruction: string, opcode: int, args: seq<nat>): (r: Result<string>)
    ensures r.Ok? <==> (IsRegInstr(opcode) && |args| >= 2 && IsReg(args[1])) ||
                       (!IsRegInstr(opcode) && IsImmInstr(opcode) && |args| >= 1)
    ensures r.Ok? && IsRegInstr(opcode) ==> r.value == instruction + " " + OperandText(args[0], args[1]).value
    ensures r.Ok? && !IsRegInstr(opcode) ==> r.value == instruction + " " + NatToString(args[0])
  {
    var instruction := instruction + " ";
    if IsRegInstr(opcode) then
      if |args| < 2 then Err("IndexError: tuple index out of range")
      else
        var operand :- OperandText(args[0], args[1]);
        Ok(instruction + operand)
    else if !IsImmInstr(opcode) then Err("AssertionError: not a one-immediate instruction")
    else if |args| < 1 then Err("IndexError: tuple index out of range")
    else Ok(instruction + NatToString(args[0]))
  }

  /** decode_two_args: two register operands for the register-register class,
      otherwise (asserted to be the register-immediate class) a register operand and
      the immediate in decimal. */
  function DecodeTwoArgs(instruction: string, opcode: int, args: seq<nat>): (r: Result<string>)
    ensures r.Ok? <==> (IsRegRegInstr(opcode) && |args| >= 4 && IsReg(args[1]) && IsReg(args[3])) ||
                       (!IsRegRegInstr(opcode) && IsRegImmInstr(opcode) && |args| >= 3 && IsReg(args[1]))
    ensures r.Ok? && IsRegRegInstr(opcode) ==>
              r.value == instruction + " " + OperandText(args[0], args[1]).value + " " +
                         OperandText(args[2], args[3]).value
    ensures r.Ok? && !IsRegRegInstr(opcode) ==>
              r.value == instruction + " " + OperandText(args[0], args[1]).value + " " + NatToString(args[2])
  {
    var instruction := instruction + " ";
    if IsRegRegInstr(opcode) then
      if |args| < 4 then Err("IndexError: tuple index out of range")
      else
        var first :- OperandText(args[0], args[1]);
        var second :- OperandText(args[2], args[3]);
        Ok(instruction + first + " " + second)
    else if !IsRegImmInstr(opcode) then Err("AssertionError: not a register-immediate instruction")
    else if |args| < 3 then Err("IndexError: tuple index out of range")
    else
      var first :- OperandText(args[0], args[1]);
      Ok(instruction + first + " " + NatToString(args[2]))
  }

  /** chr() of a table cell. Dafny characters are Unicode scalar values, so a
      surrogate code point is refused along with the values chr() refuses. */
  predicate IsCodePoint(n: nat) {
    n < 0xD800 || 0xE000 <= n < 0x11_0000
  }

  /** The first `count` characters stored from cell `start` on. */
  function ReadChars(staticData: seq<nat>, start: nat, count: nat): (r: Result<string>)
    ensures r.Ok? ==> |r.value| == count
  {
    if count == 0 then Ok("")
    else
      var prefix :- ReadChars(staticData, start, count - 1);
      var index := start + count - 1;
      if index >= |staticData| then Err("IndexError: index out of bounds")
      else if !IsCodePoint(staticData[index]) then Err("ValueError: chr() arg not in range")
      else Ok(prefix + [staticData[index] as char])
  }

  /** get_from_string_table: cell `num` holds the offset of the string, the cell at
      the offset its length, and the cells after that its characters. */
  function StringAt(staticData: seq<nat>, num: nat): (r: Result<string>)
    ensures r.Ok? ==> num < |staticData| && staticData[num] < |staticData| &&
                      |r.value| == staticData[staticData[num]]
  {
    if num >= |staticData| then Err("IndexError: index out of bounds")
    else
      var offset := staticData[num];
      if offset >= |staticData| then Err("IndexError: index out of bounds")
      else ReadChars(staticData, offset + 1, staticData[offset])
  }

  /** The loop of get_from_string_table, proved to compute StringAt. */
  method GetFromStringTable(staticData: seq<nat>, num: nat) returns (r: Result<string>)
    ensures r == StringAt(staticData, num)
  {
    if num >= |staticData| {
      return Err("IndexError: index out of bounds");
    }
    var offset := staticData[num];
    if offset >= |staticData| {
      return Err("IndexError: index out of bounds");
    }
    var strlen := staticData[offset];
    var str := "";
    for i := 0 to strlen
      invariant ReadChars(staticData, offset + 1, i) == Ok(str)
    {
      var index := offset + i + 1;
      if index >= |staticData| {
        ReadCharsStopsAt(staticData, offset + 1, i + 1, strlen);
        return Err("IndexError: index out of bounds");
      }
      if !IsCodePoint(staticData[index]) {
        ReadCharsStopsAt(staticData, offset + 1, i + 1, strlen);
        return Err("ValueError: chr() arg not in range");
      }
      str := str + [staticData[index] as char];
    }
    return Ok(str);
  }

  /** Once a character cannot be read, reading more of them fails the same way. */
  lemma {:induction false} ReadCharsStopsAt(staticData: seq<nat>, start: nat, k: nat, count: nat)
    requires k <= count && ReadChars(staticData, start, k).Err?
    ensures ReadChars(staticData, start, count) == ReadChars(staticData, start, k)
    decreases count
  {
    if k < count {
      ReadCharsStopsAt(staticData, start, k, count - 1);
    }
  }

  /** One line of the disassembly, without its newline: the mnemonic, then the operands
      by OPCODE_TO_NUM_ARGS, or for PRINTSTR the string the immediate indexes. */
  function RenderInstruction(d: Decoded, staticData: seq<nat>): (r: Result<string>)
    requires d.opcode < |OpcodeToName|
  {
    var instruction := OpcodeToName[d.opcode];
    if d.opcode == OpPrintStr then
      if |d.Operands()| < 1 then Err("IndexError: tuple index out of range")
      else
        var s :- StringAt(staticData, d.Operands()[0]);
        Ok(instruction + " " + s)
    else
      var numArgs := OpcodeToNumArgs[d.opcode];
      if numArgs == 1 then DecodeOneArg(instruction, d.opcode, d.Operands())
      else if numArgs == 2 then DecodeTwoArgs(instruction, d.opcode, d.Operands())
      else Ok(instruction)
  }

  /** Decode and render one instruction word as a line of the disassembly. */
  function RenderWord(instr: Word, staticData: seq<nat>): Result<string> {
    var d :- Decode(instr);
    OpcodeToNameInverse();
    LayoutDefinedExactlyOnOpcodes(d.opcode);
    var line :- RenderInstruction(d, staticData);
    Ok(line + "\n")
  }

  /** Decode and render the word at index i of the image. */
  function DisassembleWord(code: seq<Word>, i: nat, staticData: seq<nat>): Result<string> {
    if i >= |code| then Err("IndexError: index out of bounds") else RenderWord(code[i], staticData)
  }

  /** The lines produced for entries 1..count by `line`, stopping at the first error. */
  function Lines(line: nat -> Result<string>, count: nat): (r: Result<seq<string>>)
    ensures r.Ok? ==> |r.value| == count
  {
    if count == 0 then Ok([])
    else
      var lines :- Lines(line, count - 1);
      var last :- line(count);
      Ok(lines + [last])
  }

  /** The lines of words 1..count. */
  function DisassembleWords(code: seq<Word>, count: nat, staticData: seq<nat>): (r: Result<seq<string>>)
    ensures r.Ok? ==> |r.value| == count
  {
    Lines((i: nat) => DisassembleWord(code, i, staticData), count)
  }

  /** The cells after the instructions: numpy's code[code_length + 1:] is empty when
      the image is shorter. */
  function StaticData(code: seq<Word>): seq<nat>
    requires |code| > 0
  {
    if code[0] + 1 <= |code| then code[code[0] + 1..] else []
  }

  /** main: code[0] instructions follow; the rest of the image is the string table. */
  function Disassemble(code: seq<Word>): (r: Result<seq<string>>)
    ensures r.Ok? ==> |code| > 0 && |r.value| == code[0] && code[0] < |code|
  {
    if |code| == 0 then Err("IndexError: index out of bounds")
    else
      var lines :- DisassembleWords(code, code[0], StaticData(code));
      DisassembledWordsInImage(code, code[0], StaticData(code));
      Ok(lines)
  }

  /** The lines of `count` entries succeed only if every entry succeeds. */
  lemma {:induction false} LinesOk(line: nat -> Result<string>, count: nat, i: nat)
    requires Lines(line, count).Ok? && 1 <= i <= count
    ensures line(i).Ok?
    decreases count
  {
    if i < count {
      LinesOk(line, count - 1, i);
    }
  }

  /** Disassembling `count` words succeeds only if they all lie in the image. */
  lemma DisassembledWordsInImage(code: seq<Word>, count: nat, staticData: seq<nat>)
    requires DisassembleWords(code, count, staticData).Ok?
    ensures count < |code| || count == 0
  {
    if count > 0 {
      LinesOk((i: nat) => DisassembleWord(code, i, staticData), count, count);
    }
  }

  /** Once an entry fails, the lines of more entries fail the same way. */
  lemma {:induction false} LinesStopAt(line: nat -> Result<string>, k: nat, count: nat)
    requires k <= count && Lines(line, k).Err?
    ensures Lines(line, count) == Lines(line, k)
    decreases count
  {
    if k < count {
      LinesStopAt(line, k, count - 1);
    }
  }

  /** The loop of main, proved to compute Disassemble. */
  method DisassembleMain(code: seq<Word>) returns (r: Result<seq<string>>)
    ensures r == Disassemble(code)
  {
    if |code| == 0 {
      return Err("IndexError: index out of bounds");
    }
    var codeLength: nat := code[0];
    var staticData := StaticData(code);
    var disasm: seq<string> := [];
    for i := 1 to codeLength + 1
      invariant DisassembleWords(code, i - 1, staticData) == Ok(disasm)
    {
      var line := DisassembleWord(code, i, staticData);
      if line.Err? {
        LinesStopAt((i: nat) => DisassembleWord(code, i, staticData), i, codeLength);
        return Err(line.error);
      }
      disasm := disasm + [line.value];
    }
    DisassembledWordsInImage(code, codeLength, staticData);
    return Ok(disasm);
  }
}
