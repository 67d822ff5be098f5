/** The instruction decoder (VonNeumann/decoder.py): a 32-bit word is written out as
    32 binary digits and cut into the fields of its opcode's layout. */
module Decoder {
  import opened Wrappers
  import opened Bits
  import opened Isa

  /** The tuple decode returns, one constructor per layout. */
  datatype Decoded =
    | RegReg(opcode: nat, access1: nat, reg1: nat, access2: nat, reg2: nat)
    | RegImm(opcode: nat, access: nat, reg: nat, imm: nat)
    | Reg(opcode: nat, access: nat, reg: nat)
    | Imm(opcode: nat, imm: nat)
    | OpcodeOnly(opcode: nat)
  {
    /** The layout a decoded tuple has. */
    function Layout(): Layout {
      match this
      case RegReg(_, _, _, _, _) => RegRegLayout
      case RegImm(_, _, _, _) => RegImmLayout
      case Reg(_, _, _) => RegLayout
      case Imm(_, _) => ImmLayout
      case OpcodeOnly(_) => OpcodeOnlyLayout
    }

    /** The tuple without its opcode (`instr_decoded[1:]`). */
    function Operands(): (args: seq<nat>)
      ensures |args| == (match this
                         case RegReg(_, _, _, _, _) => 4
                         case RegImm(_, _, _, _) => 3
                         case Reg(_, _, _) => 2
                         case Imm(_, _) => 1
                         case OpcodeOnly(_) => 0)
    {
      match this
      case RegReg(_, a1, r1, a2, r2) => [a1, r1, a2, r2]
      case RegImm(_, a, r, i) => [a, r, i]
      case Reg(_, a, r) => [a, r]
      case Imm(_, i) => [i]
      case OpcodeOnly(_) => []
    }
  }

  /** The operands of a decoded tuple fit the fields they were cut from: access levels
      3 bits, registers 4 bits (so every one names a register), immediates 20 or 27 bits. */
  predicate FieldsInRange(d: Decoded) {
    match d
    case RegReg(_, a1, r1, a2, r2) => a1 < Pow2(AccessBits) && IsReg(r1) && a2 < Pow2(AccessBits) && IsReg(r2)
    case RegImm(_, a, r, imm) => a < Pow2(AccessBits) && IsReg(r) && imm < Pow2(RegImmBits)
    case Reg(_, a, r) => a < Pow2(AccessBits) && IsReg(r)
    case Imm(_, imm) => imm < Pow2(ImmBits)
    case OpcodeOnly(_) => true
  }

  /** int(binary[lo:hi], 2) */
  function Field(binary: seq<char>, lo: nat, hi: nat): (r: nat)
    requires IsBinary(binary) && lo <= hi <= |binary|
    ensures r < Pow2(hi - lo)
  {
    BinarySlice(binary, lo, hi);
    FromBits(binary[lo..hi])
  }

  /** decode after format(instr, "032b"): the opcode field selects the layout; an
      opcode of no class raises "Unknown instruction". */
  function DecodeDigits(binary: seq<char>): (r: Result<Decoded>)
    requires IsBinary(binary) && |binary| == WordBits
    ensures r.Ok? <==> LayoutOf(Field(binary, 0, 5)).Some?
    ensures r.Ok? ==> r.value.opcode == Field(binary, 0, 5) && LayoutOf(r.value.opcode) == Some(r.value.Layout())
    ensures r.Ok? ==> FieldsInRange(r.value)
  {
    assert Pow2(RegisterBits) == 16;
    var opcode := Field(binary, 0, 5);
    if IsRegRegInstr(opcode) then
      Ok(RegReg(opcode, Field(binary, 5, 8), Field(binary, 8, 12), Field(binary, 12, 15), Field(binary, 15, 19)))
    else if IsRegImmInstr(opcode) then
      Ok(RegImm(opcode, Field(binary, 5, 8), Field(binary, 8, 12), Field(binary, 12, 32)))
    else if IsRegInstr(opcode) then
      Ok(Reg(opcode, Field(binary, 5, 8), Field(binary, 8, 12)))
    else if IsImmInstr(opcode) then
      Ok(Imm(opcode, Field(binary, 5, 32)))
    else if IsOpcodeOnlyInstr(opcode) then
      Ok(OpcodeOnly(opcode))
    else
      Err("Unknown instruction: " + binary)
  }

  /** decode: a word written out as 32 binary digits and cut into fields. */
  function Decode(instr: Word): (r: Result<Decoded>)
    ensures r.Ok? ==> LayoutOf(r.value.opcode) == Some(r.value.Layout()) && FieldsInRange(r.value)
  {
    DecodeDigits(ToBits(instr, WordBits))
  }

  /** A word decodes as the 32 digits it is written out as. */
  lemma DecodeOfDigits(binary: seq<char>)
    requires IsBinary(binary) && |binary| == WordBits
    ensures FromBits(binary) < 0x1_0000_0000
    ensures Decode(FromBits(binary)) == DecodeDigits(binary)
  {
    Pow2Of32();
    ToFromBits(binary);
  }

  /** The tuple decode builds for each layout, by the fields it cuts. */
  lemma DecodeDigitsByLayout(binary: seq<char>)
    requires IsBinary(binary) && |binary| == WordBits
    ensures var op := Field(binary, 0, 5);
            IsRegRegInstr(op) ==> DecodeDigits(binary) == Ok(RegReg(op, Field(binary, 5, 8),
              Field(binary, 8, 12), Field(binary, 12, 15), Field(binary, 15, 19)))
    ensures var op := Field(binary, 0, 5);
            IsRegImmInstr(op) ==> DecodeDigits(binary) == Ok(RegImm(op, Field(binary, 5, 8),
              Field(binary, 8, 12), Field(binary, 12, 32)))
    ensures var op := Field(binary, 0, 5);
            IsRegInstr(op) ==> DecodeDigits(binary) == Ok(Reg(op, Field(binary, 5, 8), Field(binary, 8, 12)))
    ensures var op := Field(binary, 0, 5);
            IsImmInstr(op) ==> DecodeDigits(binary) == Ok(Imm(op, Field(binary, 5, 32)))
    ensures var op := Field(binary, 0, 5);
            IsOpcodeOnlyInstr(op) ==> DecodeDigits(binary) == Ok(OpcodeOnly(op))
  {
    ClassesPartitionOpcodes();
  }

  /** A field of the 32-digit form of a word is a shift and a mask of the word. */
  lemma FieldOfWord(instr: Word, lo: nat, hi: nat)
    requires lo <= hi <= WordBits
    ensures Field(ToBits(instr, WordBits), lo, hi) == (instr / Pow2(WordBits - hi)) % Pow2(hi - lo)
  {
    Pow2Of32();
    FromToBitsExact(instr, WordBits);
    SliceValue(ToBits(instr, WordBits), lo, hi);
  }

  /** The opcode is the top five bits, and a word decodes exactly when they name one of
      the 19 opcodes. */
  lemma DecodeOpcode(instr: Word)
    ensures Decode(instr).Ok? <==> instr / Pow2(ImmBits) < OpcodeCount
    ensures Decode(instr).Ok? ==> Decode(instr).value.opcode == instr / Pow2(ImmBits)
  {
    var op := Field(ToBits(instr, WordBits), 0, 5);
    assert op == instr / Pow2(ImmBits) by {
      FieldOfWord(instr, 0, 5);
      Pow2Of32();
      Pow2Add(ImmBits, OpcodeBits);
      DivBelow(instr, Pow2(ImmBits), Pow2(OpcodeBits));
    }
    assert Decode(instr) == DecodeDigits(ToBits(instr, WordBits));
    LayoutDefinedExactlyOnOpcodes(op);
  }

  lemma DivBelow(n: nat, d: nat, m: nat)
    requires d > 0 && n < d * m
    ensures n / d < m && (n / d) % m == n / d
  {
    var q := n / d;
    assert n == d * q + n % d;
    if q >= m {
      MulMonotone(d, m, q);
      assert false;
    }
    DivModUnique(q, m, 0, q);
  }

  /** The operand fields of a register-register word. */
  lemma DecodeRegRegFields(instr: Word)
    requires Decode(instr).Ok? && Decode(instr).value.RegReg?
    ensures var d := Decode(instr).value;
            d.access1 == (instr / Pow2(24)) % Pow2(3) && d.reg1 == (instr / Pow2(20)) % Pow2(4) &&
            d.access2 == (instr / Pow2(17)) % Pow2(3) && d.reg2 == (instr / Pow2(13)) % Pow2(4)
  {
    var binary := ToBits(instr, WordBits);
    var op := Field(binary, 0, 5);
    DecodeDigitsByLayout(binary);
    assert Decode(instr).value == RegReg(op, Field(binary, 5, 8), Field(binary, 8, 12), Field(binary, 12, 15), Field(binary, 15, 19));
    FieldOfWord(instr, 5, 8);
    FieldOfWord(instr, 8, 12);
    FieldOfWord(instr, 12, 15);
    FieldOfWord(instr, 15, 19);
  }

  /** The operand fields of a register-immediate word: the immediate is the low 20 bits. */
  lemma DecodeRegImmFields(instr: Word)
    requires Decode(instr).Ok? && Decode(instr).value.RegImm?
    ensures var d := Decode(instr).value;
            d.access == (instr / Pow2(24)) % Pow2(3) && d.reg == (instr / Pow2(20)) % Pow2(4) &&
            d.imm == instr % Pow2(20)
  {
    var binary := ToBits(instr, WordBits);
    var op := Field(binary, 0, 5);
    DecodeDigitsByLayout(binary);
    assert Decode(instr).value == RegImm(op, Field(binary, 5, 8), Field(binary, 8, 12), Field(binary, 12, 32));
    FieldOfWord(instr, 5, 8);
    FieldOfWord(instr, 8, 12);
    FieldOfWord(instr, 12, 32);
    assert Pow2(0) == 1 && instr / 1 == instr;
  }

  /** The operand fields of a one-register word. */
  lemma DecodeRegFields(instr: Word)
    requires Decode(instr).Ok? && Decode(instr).value.Reg?
    ensures var d := Decode(instr).value;
            d.access == (instr / Pow2(24)) % Pow2(3) && d.reg == (instr / Pow2(20)) % Pow2(4)
  {
    var binary := ToBits(instr, WordBits);
    var op := Field(binary, 0, 5);
    DecodeDigitsByLayout(binary);
    assert Decode(instr).value == Reg(op, Field(binary, 5, 8), Field(binary, 8, 12));
    FieldOfWord(instr, 5, 8);
    FieldOfWord(instr, 8, 12);
  }

  /** The immediate of a one-immediate word is its low 27 bits. */
  lemma DecodeImmField(instr: Word)
    requires Decode(instr).Ok? && Decode(instr).value.Imm?
    ensures Decode(instr).value.imm == instr % Pow2(27)
  {
    var binary := ToBits(instr, WordBits);
    var op := Field(binary, 0, 5);
    DecodeDigitsByLayout(binary);
    assert Decode(instr).value == Imm(op, Field(binary, 5, 32));
    FieldOfWord(instr, 5, 32);
    assert Pow2(0) == 1 && instr / 1 == instr;
  }
}
