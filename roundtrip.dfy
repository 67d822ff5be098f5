/** How the VonNeumann assembler, decoder and disassembler fit together: register
    operands, instruction words, disassembled lines and the string table all come back
    unchanged when one tool reads what another wrote. */
module RoundTrip {
  import opened Wrappers
  import opened Bits
  import opened Numerals
  import opened Text
  import opened Isa
  import opened Asm2Bin
  import opened Decoder
  import opened Bin2Asm

  // ---------------------------------------------------------------- string table

  /** Every character's code point is one chr() gives back. */
  lemma CharIsCodePoint(c: char)
    ensures IsCodePoint(c as nat) && (c as nat) as char == c
  {
  }

  /** Reading the cells that hold the code points of `s` gives the characters of `s`. */
  lemma {:induction false} ReadCharsOfCells(cells: seq<nat>, start: nat, s: string, count: nat)
    requires count <= |s| && start + |s| <= |cells|
    requires forall k :: 0 <= k < |s| ==> cells[start + k] == s[k] as nat
    ensures ReadChars(cells, start, count) == Ok(s[..count])
    decreases count
  {
    if count > 0 {
      ReadCharsOfCells(cells, start, s, count - 1);
      CharIsCodePoint(s[count - 1]);
      assert cells[start + count - 1] == s[count - 1] as nat;
      assert s[..count] == s[..count - 1] + [s[count - 1]];
    }
  }

  /** get_from_string_table on the table generate_string_table builds gives back each
      string. */
  lemma StringAtTable(xs: seq<string>, i: nat)
    requires i < |xs|
    ensures StringAt(StringTable(xs), i) == Ok(xs[i])
  {
    var t := StringTable(xs);
    StringTableLookup(xs, i);
    ReadCharsOfCells(t, t[i] + 1, xs[i], |xs[i]|);
    assert xs[i][..|xs[i]|] == xs[i];
  }

  /** The disassembler reads the image the assembler writes the way it was laid out:
      code[0] instructions, word i the i-th instruction, and the rest of the image the
      string table. */
  lemma DisassembleImage(a: Assembled, code: seq<Word>)
    requires code == Image(a)
    ensures code[0] == |a.instructions| && StaticData(code) == StringTable(a.strings)
    ensures forall i :: 1 <= i <= |a.instructions| ==>
              DisassembleWord(code, i, StaticData(code)) == RenderWord(a.instructions[i - 1], StringTable(a.strings))
  {
    var n := |a.instructions|;
    assert code[n + 1..] == StringTable(a.strings);
    forall i | 1 <= i <= n
      ensures code[i] == a.instructions[i - 1]
    {
      assert code[1..1 + n][i - 1] == a.instructions[i - 1];
    }
  }

  // ---------------------------------------------------------------- operands

  /** The disassembler's names of the registers are read back by the assembler as the
      same register index, by the checked and the as-written decode_reg alike. */
  lemma RegNameRoundTrip(index: int)
    requires IsReg(index)
    ensures IsToken(RegName(index).value) && RegName(index).value[0] != '*'
    ensures DecodeRegChecked(RegName(index).value) == Ok(Some(index))
    ensures DecodeReg(RegName(index).value) == Ok(Some(index))
  {
    var name := RegName(index).value;
    if index < |SpecialRegistersToName| {
      assert SpecialRegisters.Keys == {"ip", "sp", "rv"};
      assert name == ["ip", "sp", "rv"][index];
    } else {
      DecodeNumberedRegister(index - 2);
      var digits := NatToString(index - 2);
      assert name == "r" + digits;
      forall i | 0 <= i < |name|
        ensures !IsSpace(name[i])
      {
        if i > 0 {
          assert name[i] == digits[i - 1];
        }
      }
    }
  }

  /** The assembler counts exactly the stars the disassembler writes in front of a name. */
  lemma {:induction false} LeadingStarsOfOperand(access: nat, name: string)
    requires |name| > 0 && name[0] != '*'
    ensures LeadingStars(Repeat('*', access) + name) == access
    ensures (Repeat('*', access) + name)[access..] == name
    decreases access
  {
    var s := Repeat('*', access) + name;
    if access > 0 {
      assert s[1..] == Repeat('*', access - 1) + name;
      LeadingStarsOfOperand(access - 1, name);
    }
  }

  /** The operand text the disassembler writes is one token that the assembler reads back
      as the same access level and register. */
  lemma OperandTextRoundTrip(access: nat, index: int)
    requires access < Pow2(AccessBits) && IsReg(index)
    ensures IsToken(OperandText(access, index).value)
    ensures RegWithAccessLevel(OperandText(access, index).value) == Ok(RegOperand(access, index))
  {
    RegNameRoundTrip(index);
    var name := RegName(index).value;
    var text := OperandText(access, index).value;
    LeadingStarsOfOperand(access, name);
    assert text == Repeat('*', access) + name;
    forall i | 0 <= i < |text|
      ensures !IsSpace(text[i])
    {
      if i >= access {
        assert text[i] == name[i - access];
      }
    }
  }

  /** A decimal numeral is one token. */
  lemma NumeralIsToken(n: nat)
    ensures IsToken(NatToString(n))
  {
    var s := NatToString(n);
    forall i | 0 <= i < |s|
      ensures !IsSpace(s[i])
    {
      assert IsDigit(s[i]);
    }
  }

  /** Every mnemonic is one token. */
  lemma MnemonicIsToken(op: int)
    requires 0 <= op < OpcodeCount
    ensures IsToken(OpcodeToName[op])
  {
  }

  /** Only PRINTSTR's own mnemonic is "PRINTSTR". */
  lemma MnemonicIsPrintStr(op: int)
    requires 0 <= op < OpcodeCount
    ensures OpcodeToName[op] == "PRINTSTR" <==> op == OpPrintStr
  {
    OpcodeToNameInverse();
  }

  // ---------------------------------------------------------------- words

  /** A field holding the digits of n reads back as n. */
  lemma FieldOfDigits(bits: seq<char>, lo: nat, width: nat, n: nat)
    requires IsBinary(bits) && lo + width <= |bits| && n < Pow2(width)
    requires bits[lo..lo + width] == ToBits(n, width)
    ensures Field(bits, lo, lo + width) == n
  {
    FromToBitsExact(n, width);
  }

  /** The 32 digits of a register-register word: opcode, two operands, zero padding. */
  function RegRegDigits(op: nat, a1: nat, i1: nat, a2: nat, i2: nat): (bits: seq<char>)
    ensures IsBinary(bits) && |bits| == WordBits
  {
    ToBits(op, OpcodeBits) + ToBits(a1, AccessBits) + ToBits(i1, RegisterBits) +
    ToBits(a2, AccessBits) + ToBits(i2, RegisterBits) + Zeros(13)
  }

  /** The opcode and first operand fields of a register-register word. */
  lemma RegRegDigitsHigh(op: nat, a1: nat, i1: nat, a2: nat, i2: nat)
    requires op < Pow2(OpcodeBits) && a1 < Pow2(AccessBits) && i1 < Pow2(RegisterBits)
    ensures var bits := RegRegDigits(op, a1, i1, a2, i2);
            Field(bits, 0, 5) == op && Field(bits, 5, 8) == a1 && Field(bits, 8, 12) == i1
  {
    var bits := RegRegDigits(op, a1, i1, a2, i2);
    assert bits[0..5] == ToBits(op, OpcodeBits);
    FieldOfDigits(bits, 0, OpcodeBits, op);
    assert bits[5..8] == ToBits(a1, AccessBits);
    FieldOfDigits(bits, 5, AccessBits, a1);
    assert bits[8..12] == ToBits(i1, RegisterBits);
    FieldOfDigits(bits, 8, RegisterBits, i1);
  }

  /** The second operand fields of a register-register word. */
  lemma RegRegDigitsLow(op: nat, a1: nat, i1: nat, a2: nat, i2: nat)
    requires a2 < Pow2(AccessBits) && i2 < Pow2(RegisterBits)
    ensures var bits := RegRegDigits(op, a1, i1, a2, i2);
            Field(bits, 12, 15) == a2 && Field(bits, 15, 19) == i2
  {
    var bits := RegRegDigits(op, a1, i1, a2, i2);
    assert bits[12..15] == ToBits(a2, AccessBits);
    FieldOfDigits(bits, 12, AccessBits, a2);
    assert bits[15..19] == ToBits(i2, RegisterBits);
    FieldOfDigits(bits, 15, RegisterBits, i2);
  }

  /** The word a register-register instruction's fields are written to decodes to
      those fields. */
  lemma DecodeRegRegDigits(op: nat, a1: nat, i1: nat, a2: nat, i2: nat)
    requires IsRegRegInstr(op) && a1 < Pow2(AccessBits) && IsReg(i1) && a2 < Pow2(AccessBits) && IsReg(i2)
    ensures DecodeDigits(RegRegDigits(op, a1, i1, a2, i2)) == Ok(RegReg(op, a1, i1, a2, i2))
  {
    var bits := RegRegDigits(op, a1, i1, a2, i2);
    DecodeDigitsByLayout(bits);
    RegisterIsFourBitField(i1);
    RegisterIsFourBitField(i2);
    assert Pow2(OpcodeBits) == 32;
    RegRegDigitsHigh(op, a1, i1, a2, i2);
    RegRegDigitsLow(op, a1, i1, a2, i2);
  }

  /** The word _encode_reg_reg builds holds the opcode and both operands' fields. */
  lemma EncodeRegRegDigits(name: string, reg1: string, reg2: string)
    requires EncodeRegReg(name, reg1, reg2).Ok?
    ensures var o1, o2 := RegWithAccessLevel(reg1).value, RegWithAccessLevel(reg2).value;
            EncodeRegReg(name, reg1, reg2).value ==
            FromBits(RegRegDigits(NameToOpcode[name], o1.access, o1.index, o2.access, o2.index))
  {
    var o1, o2 := RegWithAccessLevel(reg1).value, RegWithAccessLevel(reg2).value;
    var f1, f2 := EncodedRegWithAccessLevel(reg1).value, EncodedRegWithAccessLevel(reg2).value;
    var encoded := OpcodeField(name) + f1.0 + f1.1 + f2.0 + f2.1;
    assert OpcodeField(name) == ToBits(NameToOpcode[name], OpcodeBits);
    assert encoded + Zeros(WordBits - |encoded|) == RegRegDigits(NameToOpcode[name], o1.access, o1.index, o2.access, o2.index);
  }

  /** The word _encode_reg_reg builds decodes to its opcode and both register operands. */
  lemma EncodeRegRegRoundTrip(name: string, reg1: string, reg2: string)
    requires name in NameToOpcode && IsRegRegInstr(NameToOpcode[name])
    requires EncodeRegReg(name, reg1, reg2).Ok?
    ensures var o1, o2 := RegWithAccessLevel(reg1).value, RegWithAccessLevel(reg2).value;
            Decode(EncodeRegReg(name, reg1, reg2).value) ==
            Ok(RegReg(NameToOpcode[name], o1.access, o1.index, o2.access, o2.index))
  {
    var o1, o2 := RegWithAccessLevel(reg1).value, RegWithAccessLevel(reg2).value;
    RegisterIsFourBitField(o1.index);
    RegisterIsFourBitField(o2.index);
    EncodeRegRegDigits(name, reg1, reg2);
    DecodeOfDigits(RegRegDigits(NameToOpcode[name], o1.access, o1.index, o2.access, o2.index));
    DecodeRegRegDigits(NameToOpcode[name], o1.access, o1.index, o2.access, o2.index);
  }

  /** The 32 digits of a register-immediate word: opcode, operand, 20-bit immediate. */
  function RegImmDigits(op: nat, access: nat, index: nat, imm: nat): (bits: seq<char>)
    ensures IsBinary(bits) && |bits| == WordBits
  {
    ToBits(op, OpcodeBits) + ToBits(access, AccessBits) + ToBits(index, RegisterBits) + ToBits(imm, RegImmBits)
  }

  /** The opcode and access fields of a register-immediate word. */
  lemma RegImmDigitsHigh(op: nat, access: nat, index: nat, imm: nat)
    requires op < Pow2(OpcodeBits) && access < Pow2(AccessBits)
    ensures var bits := RegImmDigits(op, access, index, imm);
            Field(bits, 0, 5) == op && Field(bits, 5, 8) == access
  {
    var bits := RegImmDigits(op, access, index, imm);
    assert bits[0..5] == ToBits(op, OpcodeBits);
    FieldOfDigits(bits, 0, OpcodeBits, op);
    assert bits[5..8] == ToBits(access, AccessBits);
    FieldOfDigits(bits, 5, AccessBits, access);
  }

  /** The register and immediate fields of a register-immediate word. */
  lemma RegImmDigitsLow(op: nat, access: nat, index: nat, imm: nat)
    requires index < Pow2(RegisterBits) && imm < Pow2(RegImmBits)
    ensures var bits := RegImmDigits(op, access, index, imm);
            Field(bits, 8, 12) == index && Field(bits, 12, 32) == imm
  {
    var bits := RegImmDigits(op, access, index, imm);
    assert bits[8..12] == ToBits(index, RegisterBits);
    FieldOfDigits(bits, 8, RegisterBits, index);
    assert bits[12..32] == ToBits(imm, RegImmBits);
    FieldOfDigits(bits, 12, RegImmBits, imm);
  }

  /** The word a register-immediate instruction's fields are written to decodes to
      those fields. */
  lemma DecodeRegImmDigits(op: nat, access: nat, index: nat, imm: nat)
    requires IsRegImmInstr(op) && access < Pow2(AccessBits) && IsReg(index) && imm < Pow2(RegImmBits)
    ensures DecodeDigits(RegImmDigits(op, access, index, imm)) == Ok(RegImm(op, access, index, imm))
  {
    var bits := RegImmDigits(op, access, index, imm);
    DecodeDigitsByLayout(bits);
    RegisterIsFourBitField(index);
    assert Pow2(OpcodeBits) == 32;
    RegImmDigitsHigh(op, access, index, imm);
    RegImmDigitsLow(op, access, index, imm);
  }

  /** The immediate get_imm writes is the digits of the number read. */
  lemma ImmDigits(imm: string, bits: nat)
    requires GetImmText(imm, bits).Ok?
    ensures GetImmText(imm, bits).value == ToBits(ParseInt(imm).value, bits)
  {
    ToFromBits(GetImmText(imm, bits).value);
  }

  /** The word _encode_reg_imm builds holds the opcode, the operand and the immediate. */
  lemma EncodeRegImmDigits(name: string, reg: string, imm: string)
    requires EncodeRegImm(name, reg, imm).Ok?
    ensures var o := RegWithAccessLevel(reg).value;
            EncodeRegImm(name, reg, imm).value ==
            FromBits(RegImmDigits(NameToOpcode[name], o.access, o.index, ParseInt(imm).value))
  {
    var o := RegWithAccessLevel(reg).value;
    var f := EncodedRegWithAccessLevel(reg).value;
    ImmDigits(imm, RegImmBits);
    assert OpcodeField(name) == ToBits(NameToOpcode[name], OpcodeBits);
    assert OpcodeField(name) + f.0 + f.1 + GetImmText(imm, RegImmBits).value ==
           RegImmDigits(NameToOpcode[name], o.access, o.index, ParseInt(imm).value);
  }

  /** The word _encode_reg_imm builds decodes to its opcode, operand and immediate. */
  lemma EncodeRegImmRoundTrip(name: string, reg: string, imm: string)
    requires name in NameToOpcode && IsRegImmInstr(NameToOpcode[name])
    requires EncodeRegImm(name, reg, imm).Ok?
    ensures var o := RegWithAccessLevel(reg).value;
            Decode(EncodeRegImm(name, reg, imm).value) ==
            Ok(RegImm(NameToOpcode[name], o.access, o.index, ParseInt(imm).value))
  {
    var o := RegWithAccessLevel(reg).value;
    RegisterIsFourBitField(o.index);
    EncodeRegImmDigits(name, reg, imm);
    DecodeOfDigits(RegImmDigits(NameToOpcode[name], o.access, o.index, ParseInt(imm).value));
    DecodeRegImmDigits(NameToOpcode[name], o.access, o.index, ParseInt(imm).value);
  }

  /** The 32 digits of a one-register word: opcode, operand, zero padding. */
  function RegDigits(op: nat, access: nat, index: nat): (bits: seq<char>)
    ensures IsBinary(bits) && |bits| == WordBits
  {
    ToBits(op, OpcodeBits) + ToBits(access, AccessBits) + ToBits(index, RegisterBits) + Zeros(20)
  }

  /** The fields of a one-register word. */
  lemma RegDigitsFields(op: nat, access: nat, index: nat)
    requires op < Pow2(OpcodeBits) && access < Pow2(AccessBits) && index < Pow2(RegisterBits)
    ensures var bits := RegDigits(op, access, index);
            Field(bits, 0, 5) == op && Field(bits, 5, 8) == access && Field(bits, 8, 12) == index
  {
    var bits := RegDigits(op, access, index);
    assert bits[0..5] == ToBits(op, OpcodeBits);
    FieldOfDigits(bits, 0, OpcodeBits, op);
    assert bits[5..8] == ToBits(access, AccessBits);
    FieldOfDigits(bits, 5, AccessBits, access);
    assert bits[8..12] == ToBits(index, RegisterBits);
    FieldOfDigits(bits, 8, RegisterBits, index);
  }

  /** The word a one-register instruction's fields are written to decodes to them. */
  lemma DecodeRegDigits(op: nat, access: nat, index: nat)
    requires IsRegInstr(op) && access < Pow2(AccessBits) && IsReg(index)
    ensures DecodeDigits(RegDigits(op, access, index)) == Ok(Reg(op, access, index))
  {
    var bits := RegDigits(op, access, index);
    DecodeDigitsByLayout(bits);
    RegisterIsFourBitField(index);
    assert Pow2(OpcodeBits) == 32;
    RegDigitsFields(op, access, index);
  }

  /** The word _encode_reg builds holds the opcode and the operand. */
  lemma EncodeRegDigits(name: string, reg: string)
    requires EncodeReg(name, reg).Ok?
    ensures var o := RegWithAccessLevel(reg).value;
            EncodeReg(name, reg).value == FromBits(RegDigits(NameToOpcode[name], o.access, o.index))
  {
    var o := RegWithAccessLevel(reg).value;
    var f := EncodedRegWithAccessLevel(reg).value;
    var encoded := OpcodeField(name) + f.0 + f.1;
    assert OpcodeField(name) == ToBits(NameToOpcode[name], OpcodeBits);
    assert encoded + Zeros(WordBits - |encoded|) == RegDigits(NameToOpcode[name], o.access, o.index);
  }

  /** The word _encode_reg builds decodes to its opcode and operand. */
  lemma EncodeRegRoundTrip(name: string, reg: string)
    requires name in NameToOpcode && IsRegInstr(NameToOpcode[name])
    requires EncodeReg(name, reg).Ok?
    ensures var o := RegWithAccessLevel(reg).value;
            Decode(EncodeReg(name, reg).value) == Ok(Reg(NameToOpcode[name], o.access, o.index))
  {
    var o := RegWithAccessLevel(reg).value;
    RegisterIsFourBitField(o.index);
    EncodeRegDigits(name, reg);
    DecodeOfDigits(RegDigits(NameToOpcode[name], o.access, o.index));
    DecodeRegDigits(NameToOpcode[name], o.access, o.index);
  }

  /** The 32 digits of a one-immediate word: opcode and 27-bit immediate. */
  function ImmDigitsOf(op: nat, imm: nat): (bits: seq<char>)
    ensures IsBinary(bits) && |bits| == WordBits
  {
    ToBits(op, OpcodeBits) + ToBits(imm, ImmBits)
  }

  /** The fields of a one-immediate word. */
  lemma ImmDigitsFields(op: nat, imm: nat)
    requires op < Pow2(OpcodeBits) && imm < Pow2(ImmBits)
    ensures var bits := ImmDigitsOf(op, imm);
            Field(bits, 0, 5) == op && Field(bits, 5, 32) == imm
  {
    var bits := ImmDigitsOf(op, imm);
    assert bits[0..5] == ToBits(op, OpcodeBits);
    FieldOfDigits(bits, 0, OpcodeBits, op);
    assert bits[5..32] == ToBits(imm, ImmBits);
    FieldOfDigits(bits, 5, ImmBits, imm);
  }

  /** The word a one-immediate instruction's fields are written to decodes to them. */
  lemma DecodeImmDigits(op: nat, imm: nat)
    requires IsImmInstr(op) && imm < Pow2(ImmBits)
    ensures DecodeDigits(ImmDigitsOf(op, imm)) == Ok(Imm(op, imm))
  {
    var bits := ImmDigitsOf(op, imm);
    DecodeDigitsByLayout(bits);
    assert Pow2(OpcodeBits) == 32;
    ImmDigitsFields(op, imm);
  }

  /** The word _encode_imm builds decodes to its opcode and immediate. */
  lemma EncodeImmRoundTrip(name: string, imm: int)
    requires name in NameToOpcode && IsImmInstr(NameToOpcode[name])
    requires EncodeImm(name, imm).Ok?
    ensures Decode(EncodeImm(name, imm).value) == Ok(Imm(NameToOpcode[name], imm as nat))
  {
    ToFromBits(GetImm(imm, ImmBits).value);
    assert OpcodeField(name) == ToBits(NameToOpcode[name], OpcodeBits);
    assert EncodeImm(name, imm).value == FromBits(ImmDigitsOf(NameToOpcode[name], imm as nat));
    DecodeOfDigits(ImmDigitsOf(NameToOpcode[name], imm as nat));
    DecodeImmDigits(NameToOpcode[name], imm as nat);
  }

  /** The 32 digits of an opcode-only word: opcode and zero padding. */
  function OpcodeOnlyDigits(op: nat): (bits: seq<char>)
    ensures IsBinary(bits) && |bits| == WordBits
  {
    ToBits(op, OpcodeBits) + Zeros(ImmBits)
  }

  /** The word holding only an opcode decodes to it. */
  lemma DecodeOpcodeOnlyDigits(op: nat)
    requires IsOpcodeOnlyInstr(op)
    ensures DecodeDigits(OpcodeOnlyDigits(op)) == Ok(OpcodeOnly(op))
  {
    var bits := OpcodeOnlyDigits(op);
    DecodeDigitsByLayout(bits);
    assert Pow2(OpcodeBits) == 32;
    assert bits[0..5] == ToBits(op, OpcodeBits);
    FieldOfDigits(bits, 0, OpcodeBits, op);
  }

  /** The word _encode_opcode_only builds decodes to its opcode. */
  lemma EncodeOpcodeOnlyRoundTrip(name: string)
    requires name in NameToOpcode && IsOpcodeOnlyInstr(NameToOpcode[name])
    ensures EncodeOpcodeOnly(name).Ok?
    ensures Decode(EncodeOpcodeOnly(name).value) == Ok(OpcodeOnly(NameToOpcode[name]))
  {
    var op := NameToOpcode[name];
    assert OpcodeField(name) == ToBits(op, OpcodeBits);
    assert EncodeOpcodeOnly(name).value == FromBits(OpcodeOnlyDigits(op));
    DecodeOfDigits(OpcodeOnlyDigits(op));
    DecodeOpcodeOnlyDigits(op);
  }

  // ---------------------------------------------------------------- lines

  /** The wrapper ENCODERS holds for a layout and mnemonic. */
  function EncoderFor(l: Layout, name: string): (e: Encoder)
    ensures e.name == name && EncoderLayout(e) == l
  {
    match l
    case RegRegLayout => RegRegEncoder(name)
    case RegImmLayout => RegImmEncoder(name)
    case RegLayout => RegEncoder(name)
    case ImmLayout => ImmEncoder(name)
    case OpcodeOnlyLayout => OpcodeOnlyEncoder(name)
  }

  /** The mnemonic the disassembler prints for an opcode names, in ENCODERS, the wrapper
      of that opcode's layout. */
  lemma EncoderOfOpcode(op: int)
    requires 0 <= op < OpcodeCount
    ensures OpcodeToName[op] in NameToOpcode && NameToOpcode[OpcodeToName[op]] == op
    ensures LayoutOf(op).Some? && OpcodeToName[op] in Encoders
    ensures Encoders[OpcodeToName[op]] == EncoderFor(LayoutOf(op).value, OpcodeToName[op])
  {
    var name := OpcodeToName[op];
    OpcodeToNameInverse();
    EncodersCoverMnemonics();
    EncodersUseOwnMnemonic();
    LayoutDefinedExactlyOnOpcodes(op);
    EncoderLayoutMatchesClass(name);
  }

  /** A line of blank-separated fields that neither begins nor ends with a blank, and
      does not start with PRINTSTR, is assembled as a command of those fields. */
  lemma AssembleFields(acc: Assembled, fields: seq<string>)
    requires IsFieldLine(fields) && fields[0] != "PRINTSTR"
    ensures AssembleLine(acc, Join(fields, ' ') + "\n") == AssembleCommand(acc, fields)
  {
    FieldsOfLine(fields);
    CommandLineAssembles(acc, Join(fields, ' ') + "\n");
  }

  /** Reading back a disassembled line: assembling it appends one word, which decodes
      to `d`, and leaves everything before it and the strings as they were. */
  predicate Reassembles(acc: Assembled, line: string, d: Decoded) {
    var r := AssembleLine(acc, line + "\n");
    r.Ok? && r.value.strings == acc.strings && |r.value.instructions| == |acc.instructions| + 1 &&
    r.value.instructions[..|acc.instructions|] == acc.instructions &&
    Decode(r.value.instructions[|acc.instructions|]) == Ok(d)
  }

  /** The wrapper ENCODERS holds for each class of opcodes. */
  lemma EncoderOfClass(op: int)
    requires 0 <= op < OpcodeCount
    ensures IsRegRegInstr(op) ==> Encoders[OpcodeToName[op]] == RegRegEncoder(OpcodeToName[op])
    ensures IsRegImmInstr(op) ==> Encoders[OpcodeToName[op]] == RegImmEncoder(OpcodeToName[op])
    ensures IsRegInstr(op) ==> Encoders[OpcodeToName[op]] == RegEncoder(OpcodeToName[op])
    ensures IsImmInstr(op) ==> Encoders[OpcodeToName[op]] == ImmEncoder(OpcodeToName[op])
    ensures IsOpcodeOnlyInstr(op) ==> Encoders[OpcodeToName[op]] == OpcodeOnlyEncoder(OpcodeToName[op])
  {
    EncoderOfOpcode(op);
    ClassesPartitionOpcodes();
  }

  /** What each wrapper of ENCODERS calls with a right number of arguments. */
  lemma ApplyEncoderCases(e: Encoder, args: seq<string>)
    requires |args| == OperandCount(EncoderLayout(e))
    ensures e.RegRegEncoder? ==> ApplyEncoder(e, args) == EncodeRegReg(e.name, args[0], args[1])
    ensures e.RegImmEncoder? ==> ApplyEncoder(e, args) == EncodeRegImm(e.name, args[0], args[1])
    ensures e.RegEncoder? ==> ApplyEncoder(e, args) == EncodeReg(e.name, args[0])
    ensures e.ImmEncoder? ==> ApplyEncoder(e, args) == EncodeImmText(e.name, args[0])
    ensures e.OpcodeOnlyEncoder? ==> ApplyEncoder(e, args) == EncodeOpcodeOnly(e.name)
  {
  }

  /** A line of blank-separated fields, not a PRINTSTR line, whose encoder yields a
      word that decodes to `d`. */
  predicate CommandLine(tokens: seq<string>, d: Decoded) {
    IsFieldLine(tokens) && tokens[0] != "PRINTSTR" &&
    tokens[0] in Encoders && ApplyEncoder(Encoders[tokens[0]], tokens[1..]).Ok? &&
    Decode(ApplyEncoder(Encoders[tokens[0]], tokens[1..]).value) == Ok(d)
  }

  /** A command line reassembles to the instruction its encoder's word decodes to. */
  lemma CommandReassembles(acc: Assembled, tokens: seq<string>, d: Decoded)
    requires CommandLine(tokens, d)
    ensures Reassembles(acc, Join(tokens, ' '), d)
  {
    AssembleFields(acc, tokens);
    var r := AssembleCommand(acc, tokens);
    var w := ApplyEncoder(Encoders[tokens[0]], tokens[1..]).value;
    assert r.Ok? && r.value.instructions == acc.instructions + [w];
    assert r.value.instructions[|acc.instructions|] == w;
    assert r.value.instructions[..|acc.instructions|] == acc.instructions;
  }

  /** A line of tokens is a command line when its encoder yields a word decoding to `d`. */
  lemma TokensCommandLine(tokens: seq<string>, d: Decoded)
    requires |tokens| >= 1 && tokens[0] != "PRINTSTR"
    requires forall k :: 0 <= k < |tokens| ==> IsToken(tokens[k])
    requires tokens[0] in Encoders && ApplyEncoder(Encoders[tokens[0]], tokens[1..]).Ok?
    requires Decode(ApplyEncoder(Encoders[tokens[0]], tokens[1..]).value) == Ok(d)
    ensures CommandLine(tokens, d)
  {
    TokensLine(tokens);
  }

  // ---------------------------------------------------------------- printed tokens

  /** A decoded instruction as the decoder can produce it: a defined opcode, the layout
      of its class, and operands that fit their fields. */
  predicate WellFormed(d: Decoded) {
    0 <= d.opcode < OpcodeCount && LayoutOf(d.opcode) == Some(d.Layout()) && FieldsInRange(d)
  }

  /** The blank-separated tokens of the line the disassembler prints for an instruction
      other than PRINTSTR: the mnemonic, then each operand. */
  function Tokens(d: Decoded): (tokens: seq<string>)
    requires 0 <= d.opcode < OpcodeCount && FieldsInRange(d)
    ensures |tokens| == OperandCount(d.Layout()) + 1 && tokens[0] == OpcodeToName[d.opcode]
  {
    var name := OpcodeToName[d.opcode];
    match d
    case RegReg(_, a1, r1, a2, r2) => [name, OperandText(a1, r1).value, OperandText(a2, r2).value]
    case RegImm(_, a, r, imm) => [name, OperandText(a, r).value, NatToString(imm)]
    case Reg(_, a, r) => [name, OperandText(a, r).value]
    case Imm(_, imm) => [name, NatToString(imm)]
    case OpcodeOnly(_) => [name]
  }

  /** The operand tokens of an instruction are single tokens. */
  lemma OperandsAreTokens(d: Decoded)
    requires WellFormed(d)
    ensures forall k :: 1 <= k < |Tokens(d)| ==> IsToken(Tokens(d)[k])
  {
    match d
    case RegReg(_, _, _, _, _) => RegRegOperandsAreTokens(d);
    case RegImm(_, _, _, _) => RegImmOperandsAreTokens(d);
    case Reg(_, _, _) => RegOperandIsToken(d);
    case Imm(_, _) => ImmOperandIsToken(d);
    case OpcodeOnly(_) =>
  }

  lemma RegOperandIsToken(d: Decoded)
    requires WellFormed(d) && d.Reg?
    ensures forall k :: 1 <= k < |Tokens(d)| ==> IsToken(Tokens(d)[k])
  {
    OperandTextRoundTrip(d.access, d.reg);
    assert Tokens(d)[1] == OperandText(d.access, d.reg).value;
  }

  lemma ImmOperandIsToken(d: Decoded)
    requires WellFormed(d) && d.Imm?
    ensures forall k :: 1 <= k < |Tokens(d)| ==> IsToken(Tokens(d)[k])
  {
    NumeralIsToken(d.imm);
    assert Tokens(d)[1] == NatToString(d.imm);
  }

  lemma RegRegOperandsAreTokens(d: Decoded)
    requires WellFormed(d) && d.RegReg?
    ensures forall k :: 1 <= k < |Tokens(d)| ==> IsToken(Tokens(d)[k])
  {
    OperandTextRoundTrip(d.access1, d.reg1);
    OperandTextRoundTrip(d.access2, d.reg2);
  }

  lemma RegImmOperandsAreTokens(d: Decoded)
    requires WellFormed(d) && d.RegImm?
    ensures forall k :: 1 <= k < |Tokens(d)| ==> IsToken(Tokens(d)[k])
  {
    OperandTextRoundTrip(d.access, d.reg);
    NumeralIsToken(d.imm);
  }

  /** Every printed token is one token, and the first is PRINTSTR only for PRINTSTR. */
  lemma TokensAreTokens(d: Decoded)
    requires WellFormed(d) && d.opcode != OpPrintStr
    ensures Tokens(d)[0] != "PRINTSTR"
    ensures forall k :: 0 <= k < |Tokens(d)| ==> IsToken(Tokens(d)[k])
  {
    MnemonicIsToken(d.opcode);
    MnemonicIsPrintStr(d.opcode);
    OperandsAreTokens(d);
  }

  /** The disassembler prints a register-register instruction as its three tokens. */
  lemma RenderRegReg(d: Decoded, staticData: seq<nat>)
    requires WellFormed(d) && d.RegReg?
    ensures RenderInstruction(d, staticData) == Ok(Join(Tokens(d), ' '))
  {
    NumArgsMatchesLayout(d.opcode);
    JoinThree(OpcodeToName[d.opcode], OperandText(d.access1, d.reg1).value, OperandText(d.access2, d.reg2).value, ' ');
  }

  /** The disassembler prints a register-immediate instruction as its three tokens. */
  lemma RenderRegImm(d: Decoded, staticData: seq<nat>)
    requires WellFormed(d) && d.RegImm?
    ensures RenderInstruction(d, staticData) == Ok(Join(Tokens(d), ' '))
  {
    NumArgsMatchesLayout(d.opcode);
    var name := OpcodeToName[d.opcode];
    var args := d.Operands();
    assert args == [d.access, d.reg, d.imm];
    var text := DecodeTwoArgs(name, d.opcode, args);
    assert text == Ok(name + " " + OperandText(d.access, d.reg).value + " " + NatToString(d.imm));
    assert RenderInstruction(d, staticData) == text;
    JoinThree(name, OperandText(d.access, d.reg).value, NatToString(d.imm), ' ');
  }

  /** The disassembler prints a one-register instruction as its two tokens. */
  lemma RenderReg(d: Decoded, staticData: seq<nat>)
    requires WellFormed(d) && d.Reg?
    ensures RenderInstruction(d, staticData) == Ok(Join(Tokens(d), ' '))
  {
    NumArgsMatchesLayout(d.opcode);
    JoinTwo(OpcodeToName[d.opcode], OperandText(d.access, d.reg).value, ' ');
  }

  /** The disassembler prints CALL and FBEGIN as the mnemonic and the immediate. */
  lemma RenderImm(d: Decoded, staticData: seq<nat>)
    requires WellFormed(d) && d.Imm? && d.opcode != OpPrintStr
    ensures RenderInstruction(d, staticData) == Ok(Join(Tokens(d), ' '))
  {
    NumArgsMatchesLayout(d.opcode);
    var name := OpcodeToName[d.opcode];
    assert d.Operands() == [d.imm];
    assert !IsRegInstr(d.opcode) && IsImmInstr(d.opcode);
    var text := DecodeOneArg(name, d.opcode, d.Operands());
    assert text == Ok(name + " " + NatToString(d.imm));
    assert RenderInstruction(d, staticData) == text;
    JoinTwo(name, NatToString(d.imm), ' ');
  }

  /** The disassembler prints an opcode-only instruction as its mnemonic alone. */
  lemma RenderOpcodeOnly(d: Decoded, staticData: seq<nat>)
    requires WellFormed(d) && d.OpcodeOnly?
    ensures RenderInstruction(d, staticData) == Ok(Join(Tokens(d), ' '))
  {
    NumArgsMatchesLayout(d.opcode);
    assert Join([OpcodeToName[d.opcode]], ' ') == OpcodeToName[d.opcode];
  }

  /** The disassembler prints an instruction other than PRINTSTR as its tokens separated
      by single blanks. */
  lemma RenderTokens(d: Decoded, staticData: seq<nat>)
    requires WellFormed(d) && d.opcode != OpPrintStr
    ensures RenderInstruction(d, staticData) == Ok(Join(Tokens(d), ' '))
  {
    match d
    case RegReg(_, _, _, _, _) => RenderRegReg(d, staticData);
    case RegImm(_, _, _, _) => RenderRegImm(d, staticData);
    case Reg(_, _, _) => RenderReg(d, staticData);
    case Imm(_, _) => RenderImm(d, staticData);
    case OpcodeOnly(_) => RenderOpcodeOnly(d, staticData);
  }

  // ---------------------------------------------------------------- encoding printed tokens

  /** The register-register encoder turns the printed operands back into `d`. */
  lemma EncodeRegRegTokens(d: Decoded)
    requires WellFormed(d) && d.RegReg?
    ensures var tokens := Tokens(d);
            tokens[0] in Encoders && ApplyEncoder(Encoders[tokens[0]], tokens[1..]).Ok? &&
            Decode(ApplyEncoder(Encoders[tokens[0]], tokens[1..]).value) == Ok(d)
  {
    var name := OpcodeToName[d.opcode];
    EncoderOfOpcode(d.opcode);
    EncoderOfClass(d.opcode);
    OperandTextRoundTrip(d.access1, d.reg1);
    OperandTextRoundTrip(d.access2, d.reg2);
    var t1, t2 := OperandText(d.access1, d.reg1).value, OperandText(d.access2, d.reg2).value;
    assert Tokens(d)[1..] == [t1, t2];
    ApplyEncoderCases(Encoders[name], [t1, t2]);
    EncodeRegRegRoundTrip(name, t1, t2);
  }

  /** The register-immediate wrapper of ENCODERS, given an operand and a numeral it
      accepts, builds a word that decodes to them. */
  lemma RegImmEncoding(name: string, t: string, n: string, op: nat, o: RegOperand, imm: nat)
    requires name in NameToOpcode && NameToOpcode[name] == op && IsRegImmInstr(op)
    requires name in Encoders && Encoders[name] == RegImmEncoder(name)
    requires RegWithAccessLevel(t) == Ok(o) && ParseInt(n) == Some(imm) && imm < Pow2(RegImmBits)
    ensures ApplyEncoder(Encoders[name], [t, n]).Ok?
    ensures Decode(ApplyEncoder(Encoders[name], [t, n]).value) == Ok(RegImm(op, o.access, o.index, imm))
  {
    ApplyEncoderCases(Encoders[name], [t, n]);
    EncodeRegImmRoundTrip(name, t, n);
  }

  /** The register-immediate encoder turns the printed operand and immediate back into `d`. */
  lemma EncodeRegImmTokens(d: Decoded)
    requires WellFormed(d) && d.RegImm?
    ensures var tokens := Tokens(d);
            tokens[0] in Encoders && ApplyEncoder(Encoders[tokens[0]], tokens[1..]).Ok? &&
            Decode(ApplyEncoder(Encoders[tokens[0]], tokens[1..]).value) == Ok(d)
  {
    var name := OpcodeToName[d.opcode];
    var t, n := OperandText(d.access, d.reg).value, NatToString(d.imm);
    assert Tokens(d)[1..] == [t, n];
    assert name in NameToOpcode && NameToOpcode[name] == d.opcode &&
           name in Encoders && Encoders[name] == RegImmEncoder(name) by {
      EncoderOfOpcode(d.opcode);
      EncoderOfClass(d.opcode);
    }
    assert RegWithAccessLevel(t) == Ok(RegOperand(d.access, d.reg)) by {
      OperandTextRoundTrip(d.access, d.reg);
    }
    assert ParseInt(n) == Some(d.imm as int) by {
      ParseNatToString(d.imm);
    }
    assert IsRegImmInstr(d.opcode) by {
      LayoutIsClass(d.opcode);
    }
    assert d.imm < Pow2(RegImmBits);
    RegImmEncoding(name, t, n, d.opcode, RegOperand(d.access, d.reg), d.imm);
  }

  /** The one-register encoder turns the printed operand back into `d`. */
  lemma EncodeRegTokens(d: Decoded)
    requires WellFormed(d) && d.Reg?
    ensures var tokens := Tokens(d);
            tokens[0] in Encoders && ApplyEncoder(Encoders[tokens[0]], tokens[1..]).Ok? &&
            Decode(ApplyEncoder(Encoders[tokens[0]], tokens[1..]).value) == Ok(d)
  {
    var name := OpcodeToName[d.opcode];
    EncoderOfOpcode(d.opcode);
    EncoderOfClass(d.opcode);
    OperandTextRoundTrip(d.access, d.reg);
    var t := OperandText(d.access, d.reg).value;
    assert Tokens(d)[1..] == [t];
    ApplyEncoderCases(Encoders[name], [t]);
    EncodeRegRoundTrip(name, t);
  }

  /** The one-immediate encoder turns the printed immediate back into `d`. */
  lemma EncodeImmTokens(d: Decoded)
    requires WellFormed(d) && d.Imm?
    ensures var tokens := Tokens(d);
            tokens[0] in Encoders && ApplyEncoder(Encoders[tokens[0]], tokens[1..]).Ok? &&
            Decode(ApplyEncoder(Encoders[tokens[0]], tokens[1..]).value) == Ok(d)
  {
    var name := OpcodeToName[d.opcode];
    var n := NatToString(d.imm);
    assert Tokens(d)[1..] == [n];
    assert name in NameToOpcode && NameToOpcode[name] == d.opcode &&
           name in Encoders && Encoders[name] == ImmEncoder(name) by {
      EncoderOfOpcode(d.opcode);
      EncoderOfClass(d.opcode);
    }
    assert IsImmInstr(d.opcode) by {
      LayoutIsClass(d.opcode);
    }
    assert EncodeImmText(name, n) == EncodeImm(name, d.imm) by {
      ParseNatToString(d.imm);
    }
    ApplyEncoderCases(Encoders[name], [n]);
    EncodeImmRoundTrip(name, d.imm);
  }

  /** The opcode-only encoder turns the printed mnemonic back into `d`. */
  lemma EncodeOpcodeOnlyTokens(d: Decoded)
    requires WellFormed(d) && d.OpcodeOnly?
    ensures var tokens := Tokens(d);
            tokens[0] in Encoders && ApplyEncoder(Encoders[tokens[0]], tokens[1..]).Ok? &&
            Decode(ApplyEncoder(Encoders[tokens[0]], tokens[1..]).value) == Ok(d)
  {
    var name := OpcodeToName[d.opcode];
    assert Tokens(d)[1..] == [];
    assert name in NameToOpcode && NameToOpcode[name] == d.opcode &&
           name in Encoders && Encoders[name] == OpcodeOnlyEncoder(name) by {
      EncoderOfOpcode(d.opcode);
      EncoderOfClass(d.opcode);
    }
    assert IsOpcodeOnlyInstr(d.opcode) by {
      LayoutIsClass(d.opcode);
    }
    ApplyEncoderCases(Encoders[name], []);
    EncodeOpcodeOnlyRoundTrip(name);
  }

  /** The encoder ENCODERS holds for the printed mnemonic turns the printed operands of
      an instruction other than PRINTSTR back into it. */
  lemma EncodeTokens(d: Decoded)
    requires WellFormed(d)
    ensures var tokens := Tokens(d);
            tokens[0] in Encoders && ApplyEncoder(Encoders[tokens[0]], tokens[1..]).Ok? &&
            Decode(ApplyEncoder(Encoders[tokens[0]], tokens[1..]).value) == Ok(d)
  {
    match d
    case RegReg(_, _, _, _, _) => EncodeRegRegTokens(d);
    case RegImm(_, _, _, _) => EncodeRegImmTokens(d);
    case Reg(_, _, _) => EncodeRegTokens(d);
    case Imm(_, _) => EncodeImmTokens(d);
    case OpcodeOnly(_) => EncodeOpcodeOnlyTokens(d);
  }

  // ---------------------------------------------------------------- reassembling lines

  /** The printed tokens of an instruction other than PRINTSTR form a command line. */
  lemma PrintedCommandLine(d: Decoded)
    requires WellFormed(d) && d.opcode != OpPrintStr
    ensures CommandLine(Tokens(d), d)
  {
    TokensAreTokens(d);
    EncodeTokens(d);
    TokensCommandLine(Tokens(d), d);
  }

  /** An instruction other than PRINTSTR, as the disassembler prints it, assembles back
      to a word that decodes to the same instruction. */
  lemma ReassembleInstruction(acc: Assembled, d: Decoded, staticData: seq<nat>)
    requires WellFormed(d) && d.opcode != OpPrintStr
    ensures RenderInstruction(d, staticData).Ok?
    ensures Reassembles(acc, RenderInstruction(d, staticData).value, d)
  {
    PrintedCommandLine(d);
    CommandReassembles(acc, Tokens(d), d);
    RenderTokens(d, staticData);
  }

  /** Every word the decoder accepts, other than a PRINTSTR, is disassembled to a line
      that the assembler turns back into a word with the same decoding. */
  lemma ReassembleWord(acc: Assembled, instr: Word, d: Decoded, staticData: seq<nat>)
    requires Decode(instr) == Ok(d) && d.opcode != OpPrintStr
    ensures WellFormed(d)
    ensures RenderInstruction(d, staticData).Ok?
    ensures RenderWord(instr, staticData) == Ok(RenderInstruction(d, staticData).value + "\n")
    ensures Reassembles(acc, RenderInstruction(d, staticData).value, d)
  {
    LayoutDefinedExactlyOnOpcodes(d.opcode);
    ReassembleInstruction(acc, d, staticData);
  }

  // ---------------------------------------------------------------- PRINTSTR lines

  /** A PRINTSTR line strips to the mnemonic, a blank and the string, which split(' ', 1)
      separates again, whatever blanks the string holds inside. */
  lemma PrintStrFields(s: string)
    requires |s| > 0 && !IsSpace(s[|s| - 1])
    ensures Strip("PRINTSTR " + s + "\n") == "PRINTSTR " + s
    ensures SplitOnce(Strip("PRINTSTR " + s + "\n"), ' ') == ["PRINTSTR", s]
  {
    var text := "PRINTSTR " + s;
    assert text == "PRINTSTR" + [' '] + s;
    StripLine(text);
    IndexOfAfterField("PRINTSTR", ' ', s);
    assert text[..8] == "PRINTSTR" && text[9..] == s;
  }

  /** The word a PRINTSTR line appends is encode_printstr of the new string's index. */
  lemma PrintStrWord(acc: Assembled, high: seq<string>)
    requires AssemblePrintStr(acc, high).Ok?
    ensures Decode(AssemblePrintStr(acc, high).value.instructions[|acc.instructions|]) ==
            Ok(Imm(OpPrintStr, |acc.strings|))
  {
    assert NameToOpcode["PRINTSTR"] == OpPrintStr;
    EncodeImmRoundTrip("PRINTSTR", |acc.strings|);
  }

  /** A PRINTSTR line of a string that survives str.strip() appends the string and a
      PRINTSTR of its index. */
  lemma AssemblePrintStrLine(acc: Assembled, s: string)
    requires |s| > 0 && !IsSpace(s[|s| - 1]) && |acc.strings| < Pow2(ImmBits)
    ensures var r := AssembleLine(acc, "PRINTSTR " + s + "\n");
            r.Ok? && r.value.strings == acc.strings + [s] &&
            |r.value.instructions| == |acc.instructions| + 1 &&
            r.value.instructions[..|acc.instructions|] == acc.instructions &&
            Decode(r.value.instructions[|acc.instructions|]) == Ok(Imm(OpPrintStr, |acc.strings|))
  {
    var line := "PRINTSTR " + s + "\n";
    assert AssembleLine(acc, line) == AssemblePrintStr(acc, ["PRINTSTR", s]) by {
      PrintStrFields(s);
    }
    PrintStrWord(acc, ["PRINTSTR", s]);
  }

  /** The disassembler prints PRINTSTR followed by the string its immediate indexes. */
  lemma RenderPrintStr(index: nat, staticData: seq<nat>)
    requires StringAt(staticData, index).Ok?
    ensures RenderInstruction(Imm(OpPrintStr, index), staticData) ==
            Ok("PRINTSTR " + StringAt(staticData, index).value)
  {
    assert OpcodeToName[OpPrintStr] == "PRINTSTR";
    assert Imm(OpPrintStr, index).Operands() == [index];
    assert "PRINTSTR" + " " == "PRINTSTR ";
  }

  /** A PRINTSTR instruction as the disassembler prints it, its string looked up in the
      table, assembles back to a PRINTSTR of the next free string index, with the string
      appended to the assembler's list. A string that is empty or ends in whitespace
      does not survive str.strip(), so it is excluded. */
  lemma ReassemblePrintStr(acc: Assembled, index: nat, staticData: seq<nat>)
    requires StringAt(staticData, index).Ok?
    requires var s := StringAt(staticData, index).value; |s| > 0 && !IsSpace(s[|s| - 1])
    requires |acc.strings| < Pow2(ImmBits)
    ensures var s := StringAt(staticData, index).value;
            RenderInstruction(Imm(OpPrintStr, index), staticData) == Ok("PRINTSTR " + s)
    ensures var s := StringAt(staticData, index).value;
            var r := AssembleLine(acc, "PRINTSTR " + s + "\n");
            r.Ok? && r.value.strings == acc.strings + [s] &&
            |r.value.instructions| == |acc.instructions| + 1 &&
            r.value.instructions[..|acc.instructions|] == acc.instructions &&
            Decode(r.value.instructions[|acc.instructions|]) == Ok(Imm(OpPrintStr, |acc.strings|))
  {
    RenderPrintStr(index, staticData);
    AssemblePrintStrLine(acc, StringAt(staticData, index).value);
  }
}
