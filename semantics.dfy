/** The interpreter of VonNeumann/runtime.py as functions on a value: the memory as a
    sequence of int32 cells (IP in cell 0, SP in cell 1), the table of function start
    points, and the flag that is set while a function body is being skipped. Each
    handler returns the machine after the instruction, or the exception it raises. */
module Semantics {
  import opened Wrappers
  import opened Bits
  import opened Isa
  import opened Decoder

  /** A numpy.int32 value. */
  type Int32 = x: int | -0x8000_0000 <= x < 0x8000_0000

  /** The int32 with the same low 32 bits as x: numpy's two's complement wrap-around. */
  function Wrap(x: int): (r: Int32)
    ensures (r - x) % 0x1_0000_0000 == 0
    ensures -0x8000_0000 <= x < 0x8000_0000 ==> r == x
  {
    var r := (x + 0x8000_0000) % 0x1_0000_0000 - 0x8000_0000;
    assert r - x == 0x1_0000_0000 * -((x + 0x8000_0000) / 0x1_0000_0000);
    r
  }

  datatype Machine = Machine(mem: seq<Int32>, startpoints: map<int, Int32>, reading: bool)

  /** The result of one dispatch: the machine after it, and whether execution goes on. */
  datatype Step = Step(next: Machine, running: bool)

  /** numpy indexing of an array of `size` cells: negative addresses count from the end. */
  function Locate(size: nat, address: int): (r: Result<nat>)
    ensures r.Ok? <==> -(size as int) <= address < size
    ensures r.Ok? ==> r.value < size && (r.value == address || r.value == size + address)
  {
    if 0 <= address < size then Ok(address)
    else if -(size as int) <= address < 0 then Ok((size as int + address) as nat)
    else Err("IndexError: index out of bounds")
  }

  /** Memory.read_word */
  function Read(mem: seq<Int32>, address: int): Result<Int32> {
    var i :- Locate(|mem|, address);
    Ok(mem[i])
  }

  /** Memory.write_word: the cell keeps the value modulo 2^32, as an int32. */
  function Store(mem: seq<Int32>, address: int, value: int): (r: Result<seq<Int32>>)
    ensures r.Ok? <==> Locate(|mem|, address).Ok?
    ensures r.Ok? ==> |r.value| == |mem|
  {
    var i :- Locate(|mem|, address);
    Ok(mem[i := Wrap(value)])
  }

  /** get_value: read_word applied `access` times, starting from `value`. */
  function GetValue(mem: seq<Int32>, value: int, access: nat): Result<int>
    decreases access
  {
    if access == 0 then Ok(value)
    else
      var v :- Read(mem, value);
      GetValue(mem, v, access - 1)
  }

  /** next_command: IP := IP + 1. */
  function Advance(m: Machine): Result<Machine> {
    var ip :- Read(m.mem, IpIndex);
    var mem :- Store(m.mem, IpIndex, ip + 1);
    Ok(m.(mem := mem))
  }

  /** ip_value and sp_value */
  function IpValue(mem: seq<Int32>): int
    requires |mem| > IpIndex
  {
    mem[IpIndex]
  }

  function SpValue(mem: seq<Int32>): int
    requires |mem| > SpIndex
  {
    mem[SpIndex]
  }

  /** write_word at an address, then next_command when `advance` is set. */
  function WriteThen(m: Machine, address: int, value: int, advance: bool): (r: Result<Machine>)
    ensures r.Ok? <==> Locate(|m.mem|, address).Ok? && (advance ==> |m.mem| > IpIndex)
  {
    var mem :- Store(m.mem, address, value);
    if advance then Advance(m.(mem := mem)) else Ok(m.(mem := mem))
  }

  function NotRegister(): Result<Machine> {
    Err("AssertionError: not a register")
  }

  /** mov: the value of the source operand to the address of the destination operand. */
  function Mov(m: Machine, destAccess: nat, dest: nat, srcAccess: nat, src: nat): Result<Machine> {
    if !IsReg(dest) || !IsReg(src) then NotRegister()
    else
      var destAddress :- GetValue(m.mem, dest, destAccess);
      var srcValue :- GetValue(m.mem, src, srcAccess);
      WriteThen(m, destAddress, srcValue, true)
  }

  /** add and sub: the left operand is the register itself, not the cell it addresses. */
  function Add(m: Machine, destAccess: nat, dest: nat, termAccess: nat, term: nat): Result<Machine> {
    if !IsReg(dest) || !IsReg(term) then NotRegister()
    else
      var destAddress :- GetValue(m.mem, dest, destAccess);
      var additionValue :- GetValue(m.mem, term, termAccess);
      var raw :- Read(m.mem, dest);
      WriteThen(m, destAddress, raw + additionValue, true)
  }

  function Sub(m: Machine, destAccess: nat, dest: nat, subAccess: nat, sub: nat): Result<Machine> {
    if !IsReg(dest) || !IsReg(sub) then NotRegister()
    else
      var destAddress :- GetValue(m.mem, dest, destAccess);
      var subValue :- GetValue(m.mem, sub, subAccess);
      var raw :- Read(m.mem, dest);
      WriteThen(m, destAddress, raw - subValue, true)
  }

  /** addi and subi, with the `advance` flag the other handlers pass as False. */
  function AddI(m: Machine, destAccess: nat, dest: nat, term: int, advance: bool): Result<Machine> {
    if !IsReg(dest) then NotRegister()
    else
      var destAddress :- GetValue(m.mem, dest, destAccess);
      var raw :- Read(m.mem, dest);
      WriteThen(m, destAddress, raw + term, advance)
  }

  function SubI(m: Machine, destAccess: nat, dest: nat, sub: int, advance: bool): Result<Machine> {
    if !IsReg(dest) then NotRegister()
    else
      var destAddress :- GetValue(m.mem, dest, destAccess);
      var raw :- Read(m.mem, dest);
      WriteThen(m, destAddress, raw - sub, advance)
  }

  /** jump: IP := the operand's value. */
  function Jump(m: Machine, destAccess: nat, dest: nat): Result<Machine> {
    if !IsReg(dest) then NotRegister()
    else
      var instructionNumber :- GetValue(m.mem, dest, destAccess);
      var mem :- Store(m.mem, IpIndex, instructionNumber);
      Ok(m.(mem := mem))
  }

  /** jump_if_gz: IP += imm when the operand is positive, IP += 1 otherwise. */
  function JumpIfGz(m: Machine, valAccess: nat, val: nat, imm: nat): Result<Machine> {
    if !IsReg(val) then NotRegister()
    else
      var value :- GetValue(m.mem, val, valAccess);
      if value > 0 then AddI(m, 0, IpIndex, imm, false) else Advance(m)
  }

  /** pop: SP += 1, then IP += 1. */
  function Pop(m: Machine): Result<Machine> {
    var m' :- AddI(m, 0, SpIndex, 1, false);
    Advance(m')
  }

  /** push: SP -= 1, then the operand's value (read after the decrement) into mem[SP]. */
  function Push(m: Machine, valAccess: nat, val: int, advance: bool): Result<Machine> {
    var sp :- Read(m.mem, SpIndex);
    var mem :- Store(m.mem, SpIndex, sp - 1);
    var top :- Read(mem, SpIndex);
    var value :- GetValue(mem, val, valAccess);
    var mem' :- Store(mem, top, value);
    if advance then Advance(m.(mem := mem')) else Ok(m.(mem := mem'))
  }

  /** IP := the start point of a function: a missing one is a KeyError. */
  function EnterFunction(m: Machine, functionNumber: int): Result<Machine> {
    if functionNumber !in m.startpoints then Err("KeyError: unknown function")
    else
      var mem :- Store(m.mem, IpIndex, m.startpoints[functionNumber]);
      Ok(m.(mem := mem))
  }

  /** call: push IP + 1, then jump to the start of the function. */
  function Call(m: Machine, functionNumber: nat): Result<Machine> {
    var ip :- Read(m.mem, IpIndex);
    var m' :- Push(m, 0, ip + 1, false);
    EnterFunction(m', functionNumber)
  }

  /** indir_call: call the function whose number is the operand's value. */
  function IndirCall(m: Machine, valAccess: nat, val: nat): Result<Machine> {
    var functionNumber :- GetValue(m.mem, val, valAccess);
    var ip :- Read(m.mem, IpIndex);
    var m' :- Push(m, 0, ip + 1, false);
    EnterFunction(m', functionNumber)
  }

  /** fbegin: record that the function starts after this instruction and skip its body. */
  function FBegin(m: Machine, functionNumber: nat): Result<Machine> {
    if m.reading then Err("RuntimeError: Nested functions are not implemented")
    else
      var ip :- Read(m.mem, IpIndex);
      Advance(m.(startpoints := m.startpoints[functionNumber := Wrap(ip + 1)], reading := true))
  }

  /** fend: stop skipping. */
  function FEnd(m: Machine): Result<Machine> {
    Advance(m.(reading := false))
  }

  /** load_l and load_h: the 32 binary digits of the cell with one half replaced by the
      16 digits of the immediate. */
  function LoadLow(prev: int, imm: nat): (r: nat)
    requires imm < 0x1_0000
    ensures r == (prev % 0x1_0000_0000) / 0x1_0000 * 0x1_0000 + imm
  {
    var prevBin := ToBits(prev % 0x1_0000_0000, 32);
    KeepHigh(prev % 0x1_0000_0000, imm);
    FromBits(prevBin[0..16] + ToBits(imm, 16))
  }

  function LoadHigh(prev: int, imm: nat): (r: nat)
    requires imm < 0x1_0000
    ensures r == imm * 0x1_0000 + (prev % 0x1_0000_0000) % 0x1_0000
  {
    var prevBin := ToBits(prev % 0x1_0000_0000, 32);
    KeepLow(prev % 0x1_0000_0000, imm);
    FromBits(ToBits(imm, 16) + prevBin[16..])
  }

  /** Python's format(x, "032b") of an int32: a negative x is a '-' followed by the
      digits of -x, zero-padded to 32 characters in all, so -2**31 takes 33. */
  function Format32(x: Int32): (s: seq<char>)
    ensures x >= 0 ==> s == ToBits(x, 32)
    ensures x < 0 ==> |s| == (if x == -0x8000_0000 then 33 else 32) && s[0] == '-' &&
                      IsBinary(s[1..]) && FromBits(s[1..]) == -(x as int)
  {
    Pow2Of32();
    var magnitude: nat := if x < 0 then -(x as int) else 0;
    if x >= 0 then ToBits(x, 32)
    else if x == -0x8000_0000 then
      var s := "-" + ToBits(magnitude, 32);
      assert s[1..] == ToBits(magnitude, 32);
      FromToBitsExact(magnitude, 32);
      s
    else
      var s := "-" + ToBits(magnitude, 31);
      assert s[1..] == ToBits(magnitude, 31);
      assert Pow2(32) == 2 * Pow2(31);
      FromToBitsExact(magnitude, 31);
      s
  }

  /** Python's int(s, 2) of binary digits with an optional leading '-'. */
  function IntOfBits(s: seq<char>): (v: int)
    requires if |s| > 0 && s[0] == '-' then IsBinary(s[1..]) else IsBinary(s)
    ensures |s| > 0 && s[0] == '-' ==> v <= 0 && -v < Pow2(|s| - 1)
    ensures !(|s| > 0 && s[0] == '-') ==> 0 <= v < Pow2(|s|)
  {
    if |s| > 0 && s[0] == '-' then -(FromBits(s[1..]) as int) else FromBits(s)
  }

  /** int(format(x, "032b"), 2) gives x back. */
  lemma Format32RoundTrip(x: Int32)
    ensures IntOfBits(Format32(x)) == x
  {
    if x >= 0 {
      Pow2Of32();
      FromToBitsExact(x, 32);
      var s := Format32(x);
      assert s[0] == '0' || s[0] == '1';
    }
  }

  /** load_l as the source writes it: the first 16 characters of format(prev, "032b")
      and the 16 digits of the immediate, read by int(…, 2). For a negative prev the
      first character is the sign, so the result is the negated magnitude instead of
      the two's-complement digits. */
  function LoadLowAsWritten(prev: Int32, imm: nat): (r: int)
    requires imm < 0x1_0000
    ensures prev >= 0 ==> r == LoadLow(prev, imm)
    ensures -0x8000_0000 < prev < 0 ==> r == -((-prev) / 0x1_0000 * 0x1_0000 + imm)
    ensures prev == -0x8000_0000 ==> r == -(0x4000_0000 + imm)
  {
    LoadLowText(prev, imm);
    IntOfBits(Format32(prev)[0..16] + ToBits(imm, 16))
  }

  /** The characters load_l reads back, and their value. */
  lemma LoadLowText(prev: Int32, imm: nat)
    requires imm < 0x1_0000
    ensures var text := Format32(prev)[0..16] + ToBits(imm, 16);
            (if |text| > 0 && text[0] == '-' then IsBinary(text[1..]) else IsBinary(text)) &&
            (prev >= 0 ==> text[0] != '-' && FromBits(text) == LoadLow(prev, imm)) &&
            (prev < 0 ==> text[0] == '-' &&
                          FromBits(text[1..]) == if prev == -0x8000_0000 then 0x4000_0000 + imm
                                                 else (-prev) / 0x1_0000 * 0x1_0000 + imm)
  {
    if prev >= 0 {
      LoadLowTextOfNonNegative(prev, imm);
    } else {
      var prevBin := Format32(prev);
      var digits := prevBin[1..];
      var text := prevBin[0..16] + ToBits(imm, 16);
      LoadLowTextOfNegative(prev, imm);
      assert text[1..] == digits[0..15] + ToBits(imm, 16);
    }
  }

  lemma LoadLowTextOfNonNegative(prev: Int32, imm: nat)
    requires imm < 0x1_0000 && prev >= 0
    ensures var text := Format32(prev)[0..16] + ToBits(imm, 16);
            IsBinary(text) && text[0] != '-' && FromBits(text) == LoadLow(prev, imm)
  {
    var prevBin := Format32(prev);
    var text := prevBin[0..16] + ToBits(imm, 16);
    BinarySlice(prevBin, 0, 16);
    BinaryConcat(prevBin[0..16], ToBits(imm, 16));
    assert text[0] == prevBin[0];
    assert prevBin[0] == '0' || prevBin[0] == '1';
    DivModUnique(prev, 0x1_0000_0000, 0, prev);
  }

  /** After the sign, load_l reads the magnitude's leading 15 digits and the immediate. */
  lemma LoadLowTextOfNegative(prev: Int32, imm: nat)
    requires imm < 0x1_0000 && prev < 0
    ensures var digits := Format32(prev)[1..];
            IsBinary(digits[0..15] + ToBits(imm, 16)) &&
            FromBits(digits[0..15] + ToBits(imm, 16)) ==
              if prev == -0x8000_0000 then 0x4000_0000 + imm else (-prev) / 0x1_0000 * 0x1_0000 + imm
  {
    var digits := Format32(prev)[1..];
    LeadingDigitsOfMagnitude(prev);
    AppendImmediate(digits[0..15], imm);
  }

  /** Sixteen digits of an immediate appended to a binary string. */
  lemma AppendImmediate(high: seq<char>, imm: nat)
    requires IsBinary(high) && imm < 0x1_0000
    ensures IsBinary(high + ToBits(imm, 16))
    ensures FromBits(high + ToBits(imm, 16)) == FromBits(high) * 0x1_0000 + imm
  {
    Pow2Of16();
    FromToBitsExact(imm, 16);
    FromBitsAppend(high, ToBits(imm, 16));
  }

  /** The 15 digits after the sign of format(prev, "032b") for a negative prev. */
  lemma LeadingDigitsOfMagnitude(prev: Int32)
    requires prev < 0
    ensures IsBinary(Format32(prev)[1..][0..15])
    ensures FromBits(Format32(prev)[1..][0..15]) ==
              if prev == -0x8000_0000 then 0x4000 else (-prev) / 0x1_0000
  {
    var digits := Format32(prev)[1..];
    SliceValue(digits, 0, 15);
    Pow2Of16();
    assert Pow2(16) == 2 * Pow2(15);
    var m: nat := -(prev as int);
    if prev == -0x8000_0000 {
      assert |digits| - 15 == 17 && Pow2(17) == 2 * Pow2(16);
      DivModUnique(m, 0x2_0000, 0x4000, 0);
      DivModUnique(0x4000, 0x8000, 0, 0x4000);
    } else {
      assert |digits| - 15 == 16;
      DivModUnique(m, 0x1_0000, m / 0x1_0000, m % 0x1_0000);
      DivModUnique(m / 0x1_0000, 0x8000, 0, m / 0x1_0000);
    }
  }

  /** load_h as the source writes it: the immediate's 16 digits and everything of
      format(prev, "032b") from index 16 on, read by int(…, 2). For a negative prev
      these are digits of the magnitude -prev, not of the two's-complement word. */
  function LoadHighAsWritten(prev: Int32, imm: nat): (r: nat)
    requires imm < 0x1_0000
    ensures prev >= 0 ==> r == LoadHigh(prev, imm)
    ensures -0x8000_0000 < prev < 0 ==> r == imm * 0x1_0000 + (-prev) % 0x1_0000
  {
    LoadHighText(prev, imm);
    IntOfBits(ToBits(imm, 16) + Format32(prev)[16..])
  }

  /** The digits load_h reads back, and their value. */
  lemma LoadHighText(prev: Int32, imm: nat)
    requires imm < 0x1_0000
    ensures var text := ToBits(imm, 16) + Format32(prev)[16..];
            IsBinary(text) && text[0] != '-' &&
            (prev >= 0 ==> FromBits(text) == LoadHigh(prev, imm)) &&
            (-0x8000_0000 < prev < 0 ==> FromBits(text) == imm * 0x1_0000 + (-prev) % 0x1_0000)
  {
    var high := ToBits(imm, 16);
    assert high[0] == '0' || high[0] == '1';
    if prev >= 0 {
      LoadHighTextOfNonNegative(prev, imm);
    } else {
      var prevBin := Format32(prev);
      assert prevBin[16..] == prevBin[1..][15..];
      BinarySlice(prevBin[1..], 15, |prevBin| - 1);
      BinaryConcat(high, prevBin[16..]);
      if prev != -0x8000_0000 {
        LoadHighTextOfNegative(prev, imm);
      }
    }
  }

  lemma LoadHighTextOfNonNegative(prev: Int32, imm: nat)
    requires imm < 0x1_0000 && prev >= 0
    ensures IsBinary(ToBits(imm, 16) + Format32(prev)[16..])
    ensures FromBits(ToBits(imm, 16) + Format32(prev)[16..]) == LoadHigh(prev, imm)
  {
    var prevBin := Format32(prev);
    assert prevBin[16..] == prevBin[16..32];
    BinarySlice(prevBin, 16, 32);
    BinaryConcat(ToBits(imm, 16), prevBin[16..]);
    DivModUnique(prev, 0x1_0000_0000, 0, prev);
  }

  lemma LoadHighTextOfNegative(prev: Int32, imm: nat)
    requires imm < 0x1_0000 && -0x8000_0000 < prev < 0
    ensures IsBinary(ToBits(imm, 16) + Format32(prev)[16..])
    ensures FromBits(ToBits(imm, 16) + Format32(prev)[16..]) == imm * 0x1_0000 + (-prev) % 0x1_0000
  {
    TrailingDigitsOfMagnitude(prev);
    Pow2Of16();
    PrependImmediate(imm, Format32(prev)[16..]);
  }

  /** The last 16 digits of format(prev, "032b") for a negative prev other than -2**31. */
  lemma TrailingDigitsOfMagnitude(prev: Int32)
    requires -0x8000_0000 < prev < 0
    ensures |Format32(prev)[16..]| == 16 && IsBinary(Format32(prev)[16..])
    ensures FromBits(Format32(prev)[16..]) == (-prev) % 0x1_0000
  {
    var digits := Format32(prev)[1..];
    assert Format32(prev)[16..] == digits[15..31];
    SliceValue(digits, 15, 31);
    assert FromBits(digits) / Pow2(0) == -prev;
    Pow2Of16();
  }

  /** Sixteen digits of an immediate put before a binary string. */
  lemma PrependImmediate(imm: nat, low: seq<char>)
    requires IsBinary(low) && imm < 0x1_0000
    ensures IsBinary(ToBits(imm, 16) + low)
    ensures FromBits(ToBits(imm, 16) + low) == imm * Pow2(|low|) + FromBits(low)
  {
    Pow2Of16();
    FromToBitsExact(imm, 16);
    FromBitsAppend(ToBits(imm, 16), low);
  }

  /** Where the two readings part on the low half: after LOADH r, 0x8000 the cell
      holds -2**31, and LOADL r, imm then stores -(2**30 + imm) (the sign, '1' and
      fourteen zeros, then the digits of imm) where replacing the low half gives
      -2**31 + imm; with imm = 1, -1073741825 against -2147483647. */
  lemma LoadLowAsWrittenLosesTwosComplement(prev: Int32, imm: nat)
    requires prev == -0x8000_0000 && imm < 0x1_0000
    ensures LoadLowAsWritten(prev, imm) == -0x4000_0000 - imm
    ensures Wrap(LoadLow(prev, imm)) == -0x8000_0000 + imm
  {
    DivModUnique(prev, 0x1_0000_0000, -1, 0x8000_0000);
    DivModUnique(0x8000_0000, 0x1_0000, 0x8000, 0);
    WrapOfWord(0x8000_0000 + imm);
  }

  /** Where they part on the high half: LOADH keeps the low half of the magnitude -prev
      instead of the word's; on -1, LOADH r, 0 leaves 1 instead of 0xFFFF. */
  lemma LoadHighAsWrittenLosesTwosComplement(prev: Int32, imm: nat)
    requires -0x1_0000 < prev < 0 && prev != -0x8000 && imm < 0x1_0000
    ensures LoadHighAsWritten(prev, imm) == imm * 0x1_0000 - prev
    ensures Wrap(LoadHigh(prev, imm)) == Wrap(imm * 0x1_0000 + 0x1_0000 + prev)
    ensures Wrap(LoadHighAsWritten(prev, imm)) != Wrap(LoadHigh(prev, imm))
  {
    LoadHighAsWrittenOfSmallNegative(prev, imm);
    LoadHighOfSmallNegative(prev, imm);
    var high := imm * 0x1_0000;
    assert 0 <= high <= 0xFFFF_0000;
    WrapOfWord(high - prev);
    WrapOfWord(high + 0x1_0000 + prev);
  }

  /** As written, a cell in (-2^16, 0) keeps its magnitude as the low half. */
  lemma LoadHighAsWrittenOfSmallNegative(prev: Int32, imm: nat)
    requires -0x1_0000 < prev < 0 && imm < 0x1_0000
    ensures LoadHighAsWritten(prev, imm) == imm * 0x1_0000 - prev
  {
    DivModUnique(-prev, 0x1_0000, 0, -prev);
  }

  /** The two's-complement low half of a cell in (-2^16, 0) is 2^16 + prev. */
  lemma LoadHighOfSmallNegative(prev: Int32, imm: nat)
    requires -0x1_0000 < prev < 0 && imm < 0x1_0000
    ensures LoadHigh(prev, imm) == imm * 0x1_0000 + 0x1_0000 + prev
  {
    DivModUnique(prev, 0x1_0000_0000, -1, prev + 0x1_0000_0000);
    DivModUnique(prev + 0x1_0000_0000, 0x1_0000, 0xFFFF, prev + 0x1_0000);
  }

  /** Wrap of an unsigned 32-bit value: the upper half of the range goes negative. */
  lemma WrapOfWord(x: int)
    requires 0 <= x < 0x1_0000_0000
    ensures Wrap(x) == if x < 0x8000_0000 then x else x - 0x1_0000_0000
  {
    if x < 0x8000_0000 {
      DivModUnique(x + 0x8000_0000, 0x1_0000_0000, 0, x + 0x8000_0000);
    } else {
      DivModUnique(x + 0x8000_0000, 0x1_0000_0000, 1, x - 0x8000_0000);
    }
  }

  function LoadL(m: Machine, destAccess: nat, dest: nat, imm: nat): Result<Machine> {
    if !IsReg(dest) then NotRegister()
    else if imm >= 0x1_0000 then Err("AssertionError: immediate out of range")
    else
      var destAddress :- GetValue(m.mem, dest, destAccess);
      var prev :- Read(m.mem, destAddress);
      WriteThen(m, destAddress, LoadLow(prev, imm), true)
  }

  function LoadH(m: Machine, destAccess: nat, dest: nat, imm: nat): Result<Machine> {
    if !IsReg(dest) then NotRegister()
    else if imm >= 0x1_0000 then Err("AssertionError: immediate out of range")
    else
      var destAddress :- GetValue(m.mem, dest, destAccess);
      var prev :- Read(m.mem, destAddress);
      WriteThen(m, destAddress, LoadHigh(prev, imm), true)
  }

  /** A handler that returns True. */
  function Continue(r: Result<Machine>): (s: Result<Step>)
    ensures s.Ok? <==> r.Ok?
    ensures s.Ok? ==> s.value == Step(r.value, true)
  {
    var m :- r;
    Ok(Step(m, true))
  }

  function InputOutput(): Result<Step> {
    Err("input/output is not part of this model")
  }

  /** The dispatch table, called with the decoded operands. */
  function Handle(m: Machine, d: Decoded): Result<Step>
    requires LayoutOf(d.opcode) == Some(d.Layout())
  {
    match d
    case RegReg(op, a1, r1, a2, r2) =>
      if op == OpMov then Continue(Mov(m, a1, r1, a2, r2))
      else if op == OpAdd then Continue(Add(m, a1, r1, a2, r2))
      else Continue(Sub(m, a1, r1, a2, r2))
    case RegImm(op, a, r, imm) =>
      if op == OpJumpIfGz then Continue(JumpIfGz(m, a, r, imm))
      else if op == OpLoadL then Continue(LoadL(m, a, r, imm))
      else if op == OpLoadH then Continue(LoadH(m, a, r, imm))
      else if op == OpAddI then Continue(AddI(m, a, r, imm, true))
      else Continue(SubI(m, a, r, imm, true))
    case Reg(op, a, r) =>
      if op == OpPush then Continue(Push(m, a, r, true))
      else if op == OpJump then Continue(Jump(m, a, r))
      else if op == OpIndirCall then Continue(IndirCall(m, a, r))
      else InputOutput()
    case Imm(op, imm) =>
      if op == OpCall then Continue(Call(m, imm))
      else if op == OpFBegin then Continue(FBegin(m, imm))
      else InputOutput()
    case OpcodeOnly(op) =>
      if op == OpPop then Continue(Pop(m))
      else if op == OpFEnd then Continue(FEnd(m))
      else Ok(Step(m, false))
  }

  /** np.uint32 of an int32: the same 32 bits read as unsigned. */
  function Unsigned(w: int): (u: Word)
    ensures 0 <= w < 0x1_0000_0000 ==> u as int == w
    ensures -0x8000_0000 <= w < 0 ==> u as int == w + 0x1_0000_0000
  {
    w % 0x1_0000_0000
  }

  /** dispatch: fetch mem[IP], decode it as an unsigned word, and run its handler;
      while a function body is being skipped, every instruction but FEND only moves IP on. */
  function Dispatch(m: Machine): Result<Step> {
    var ip :- Read(m.mem, IpIndex);
    var instruction :- GetValue(m.mem, ip, 1);
    var d :- Decode(Unsigned(instruction));
    if m.reading && d.opcode != OpFEnd then Continue(Advance(m))
    else Handle(m, d)
  }

  /** `step` applied until it reports a stop or `fuel` applications are used up. */
  function Iterate(step: Machine -> Result<Step>, m: Machine, fuel: nat): Result<Step>
    decreases fuel
  {
    if fuel == 0 then Ok(Step(m, true))
    else
      var s :- step(m);
      if !s.running then Ok(s) else Iterate(step, s.next, fuel - 1)
  }

  /** execute, for at most `fuel` dispatches: the machine when TERM is reached, or after
      the last dispatch with `running` still set. */
  function Run(m: Machine, fuel: nat): Result<Step> {
    Iterate(Dispatch, m, fuel)
  }

  // ---------------------------------------------------------------- LOADL / LOADH digits

  /** The high 16 of 32 digits, followed by 16 new ones, read as a number. */
  lemma KeepHigh(prev: nat, imm: nat)
    requires prev < 0x1_0000_0000 && imm < 0x1_0000
    ensures FromBits(ToBits(prev, 32)[0..16] + ToBits(imm, 16)) == prev / 0x1_0000 * 0x1_0000 + imm
  {
    var s := ToBits(prev, 32);
    var high, low := s[0..16], ToBits(imm, 16);
    assert FromBits(high) == prev / 0x1_0000 by {
      HalvesOfWord(prev);
    }
    assert FromBits(low) == imm by {
      Pow2Of16();
      FromToBitsExact(imm, 16);
    }
    assert FromBits(high + low) == FromBits(high) * 0x1_0000 + FromBits(low) by {
      SliceValue(s, 0, 16);
      Pow2Of16();
      FromBitsAppend(high, low);
    }
  }

  /** 16 new digits followed by the low 16 of 32 digits, read as a number. */
  lemma KeepLow(prev: nat, imm: nat)
    requires prev < 0x1_0000_0000 && imm < 0x1_0000
    ensures FromBits(ToBits(imm, 16) + ToBits(prev, 32)[16..]) == imm * 0x1_0000 + prev % 0x1_0000
  {
    var s := ToBits(prev, 32);
    var high, low := ToBits(imm, 16), s[16..];
    assert FromBits(low) == prev % 0x1_0000 by {
      HalvesOfWord(prev);
    }
    assert FromBits(high) == imm by {
      Pow2Of16();
      FromToBitsExact(imm, 16);
    }
    assert FromBits(high + low) == FromBits(high) * 0x1_0000 + FromBits(low) by {
      assert low == s[16..32];
      SliceValue(s, 16, 32);
      Pow2Of16();
      FromBitsAppend(high, low);
    }
  }

  lemma Pow2Of16()
    ensures Pow2(16) == 0x1_0000
  {
    assert Pow2(8) == 0x100;
    Pow2Add(8, 8);
  }

  /** The two halves of the 32 digits of a word are its quotient and remainder by 2^16. */
  lemma HalvesOfWord(prev: nat)
    requires prev < 0x1_0000_0000
    ensures IsBinary(ToBits(prev, 32)[0..16]) && IsBinary(ToBits(prev, 32)[16..])
    ensures FromBits(ToBits(prev, 32)[0..16]) == prev / 0x1_0000
    ensures FromBits(ToBits(prev, 32)[16..]) == prev % 0x1_0000
  {
    var s := ToBits(prev, 32);
    assert s == s[0..16] + s[16..];
    Pow2Of32();
    FromToBitsExact(prev, 32);
    HighPart(s[0..16], s[16..]);
    Pow2Of16();
  }

  // ---------------------------------------------------------------- int32 arithmetic

  /** An int32 congruent to x modulo 2^32 is Wrap(x). */
  lemma WrapUnique(x: int, r: Int32)
    requires (r - x) % 0x1_0000_0000 == 0
    ensures r == Wrap(x)
  {
    var w := Wrap(x);
    var q1, q2 := (r - x) / 0x1_0000_0000, (w - x) / 0x1_0000_0000;
    assert r - w == 0x1_0000_0000 * (q1 - q2);
  }

  /** Wrapping an intermediate sum changes nothing: int32 addition is associative. */
  lemma WrapShift(x: int, y: int)
    ensures Wrap(Wrap(x) + y) == Wrap(x + y)
  {
    var a := Wrap(x) + y;
    var q1, q2 := (Wrap(a) - a) / 0x1_0000_0000, (Wrap(x) - x) / 0x1_0000_0000;
    assert Wrap(a) - (x + y) == 0x1_0000_0000 * (q1 + q2);
    WrapUnique(x + y, Wrap(a));
  }

  /** Wrapping keeps the low 32 bits. */
  lemma WrapLowBits(x: int)
    ensures Wrap(x) % 0x1_0000_0000 == x % 0x1_0000_0000
  {
    var q := (Wrap(x) - x) / 0x1_0000_0000;
    assert Wrap(x) == x + 0x1_0000_0000 * q;
  }

  // ---------------------------------------------------------------- get_value

  /** Dereferencing j times and then k times more is dereferencing j + k times. */
  lemma {:induction false} GetValueComposes(mem: seq<Int32>, value: int, j: nat, k: nat)
    ensures GetValue(mem, value, j + k) ==
            (var r := GetValue(mem, value, j); if r.Ok? then GetValue(mem, r.value, k) else r)
    decreases j
  {
    if j > 0 {
      var v := Read(mem, value);
      if v.Ok? {
        GetValueComposes(mem, v.value, j - 1, k);
      }
    }
  }

  /** Every access level above zero yields the contents of a cell. */
  lemma {:induction false} GetValueIsCell(mem: seq<Int32>, value: int, access: nat)
    requires access > 0 && GetValue(mem, value, access).Ok?
    ensures exists i :: 0 <= i < |mem| && GetValue(mem, value, access).value == mem[i]
    decreases access
  {
    var i := Locate(|mem|, value).value;
    if access > 1 {
      GetValueIsCell(mem, mem[i], access - 1);
    }
  }

  // ---------------------------------------------------------------- what each handler changes

  /** The cells other than those at `changed` are equal. */
  predicate SameCellsExcept(mem: seq<Int32>, mem': seq<Int32>, changed: set<nat>) {
    |mem'| == |mem| && forall a :: 0 <= a < |mem| && a !in changed ==> mem'[a] == mem[a]
  }

  /** next_command changes only IP, adding one to it. */
  lemma AdvanceEffect(m: Machine)
    requires Advance(m).Ok?
    ensures Advance(m).value == m.(mem := m.mem[IpIndex := Wrap(IpValue(m.mem) + 1)])
  {
  }

  /** Writing and then advancing changes the written cell and IP, and nothing else. */
  lemma WriteThenEffect(m: Machine, address: int, value: int, advance: bool)
    requires WriteThen(m, address, value, advance).Ok?
    ensures var i := Locate(|m.mem|, address).value;
            var m' := WriteThen(m, address, value, advance).value;
            m'.startpoints == m.startpoints && m'.reading == m.reading &&
            SameCellsExcept(m.mem, m'.mem, {i, IpIndex}) &&
            (i != IpIndex ==>
               m'.mem[i] == Wrap(value) &&
               m'.mem[IpIndex] == (if advance then Wrap(IpValue(m.mem) + 1) else m.mem[IpIndex])) &&
            (i == IpIndex ==> m'.mem[IpIndex] == (if advance then Wrap(Wrap(value) + 1) else Wrap(value)))
  {
  }

  /** mov writes the source value at the destination address, adds one to IP, and changes
      no other cell. */
  lemma MovEffect(m: Machine, destAccess: nat, dest: nat, srcAccess: nat, src: nat)
    requires Mov(m, destAccess, dest, srcAccess, src).Ok?
    ensures var m' := Mov(m, destAccess, dest, srcAccess, src).value;
            var i := Locate(|m.mem|, GetValue(m.mem, dest, destAccess).value).value;
            var v := Wrap(GetValue(m.mem, src, srcAccess).value);
            m'.startpoints == m.startpoints && m'.reading == m.reading &&
            SameCellsExcept(m.mem, m'.mem, {i, IpIndex}) &&
            (i != IpIndex ==> m'.mem[i] == v && m'.mem[IpIndex] == Wrap(IpValue(m.mem) + 1)) &&
            (i == IpIndex ==> m'.mem[IpIndex] == Wrap(v + 1))
  {
    WriteThenEffect(m, GetValue(m.mem, dest, destAccess).value, GetValue(m.mem, src, srcAccess).value, true);
  }

  /** add stores the sum of the destination REGISTER (not the cell it addresses) and the
      source value at the destination address. */
  lemma AddEffect(m: Machine, destAccess: nat, dest: nat, termAccess: nat, term: nat)
    requires Add(m, destAccess, dest, termAccess, term).Ok?
    ensures var m' := Add(m, destAccess, dest, termAccess, term).value;
            var i := Locate(|m.mem|, GetValue(m.mem, dest, destAccess).value).value;
            var v := Wrap(m.mem[dest] as int + GetValue(m.mem, term, termAccess).value);
            m'.startpoints == m.startpoints && m'.reading == m.reading &&
            SameCellsExcept(m.mem, m'.mem, {i, IpIndex}) &&
            (i != IpIndex ==> m'.mem[i] == v && m'.mem[IpIndex] == Wrap(IpValue(m.mem) + 1))
  {
    WriteThenEffect(m, GetValue(m.mem, dest, destAccess).value,
                    m.mem[dest] as int + GetValue(m.mem, term, termAccess).value, true);
  }

  /** sub, likewise with the difference. */
  lemma SubEffect(m: Machine, destAccess: nat, dest: nat, subAccess: nat, sub: nat)
    requires Sub(m, destAccess, dest, subAccess, sub).Ok?
    ensures var m' := Sub(m, destAccess, dest, subAccess, sub).value;
            var i := Locate(|m.mem|, GetValue(m.mem, dest, destAccess).value).value;
            var v := Wrap(m.mem[dest] as int - GetValue(m.mem, sub, subAccess).value);
            m'.startpoints == m.startpoints && m'.reading == m.reading &&
            SameCellsExcept(m.mem, m'.mem, {i, IpIndex}) &&
            (i != IpIndex ==> m'.mem[i] == v && m'.mem[IpIndex] == Wrap(IpValue(m.mem) + 1))
  {
    WriteThenEffect(m, GetValue(m.mem, dest, destAccess).value,
                    m.mem[dest] as int - GetValue(m.mem, sub, subAccess).value, true);
  }

  /** addi writes the raw register plus the immediate at the address the operand
      resolves to; with `advance` IP then moves on by one. No other cell changes. */
  lemma AddIEffect(m: Machine, destAccess: nat, dest: nat, term: int, advance: bool)
    requires AddI(m, destAccess, dest, term, advance).Ok?
    ensures var m' := AddI(m, destAccess, dest, term, advance).value;
            var i := Locate(|m.mem|, GetValue(m.mem, dest, destAccess).value).value;
            var v := Wrap(m.mem[dest] as int + term);
            m'.startpoints == m.startpoints && m'.reading == m.reading &&
            SameCellsExcept(m.mem, m'.mem, {i, IpIndex}) &&
            (i != IpIndex ==>
               m'.mem[i] == v &&
               m'.mem[IpIndex] == (if advance then Wrap(IpValue(m.mem) + 1) else m.mem[IpIndex])) &&
            (i == IpIndex ==> m'.mem[IpIndex] == (if advance then Wrap(v + 1) else v))
  {
    WriteThenEffect(m, GetValue(m.mem, dest, destAccess).value, m.mem[dest] as int + term, advance);
  }

  /** subi, likewise with the difference. */
  lemma SubIEffect(m: Machine, destAccess: nat, dest: nat, sub: int, advance: bool)
    requires SubI(m, destAccess, dest, sub, advance).Ok?
    ensures var m' := SubI(m, destAccess, dest, sub, advance).value;
            var i := Locate(|m.mem|, GetValue(m.mem, dest, destAccess).value).value;
            var v := Wrap(m.mem[dest] as int - sub);
            m'.startpoints == m.startpoints && m'.reading == m.reading &&
            SameCellsExcept(m.mem, m'.mem, {i, IpIndex}) &&
            (i != IpIndex ==>
               m'.mem[i] == v &&
               m'.mem[IpIndex] == (if advance then Wrap(IpValue(m.mem) + 1) else m.mem[IpIndex])) &&
            (i == IpIndex ==> m'.mem[IpIndex] == (if advance then Wrap(v + 1) else v))
  {
    WriteThenEffect(m, GetValue(m.mem, dest, destAccess).value, m.mem[dest] as int - sub, advance);
  }

  /** The cell push writes: the one SP addresses after the decrement. */
  function PushTarget(m: Machine): Result<nat>
    requires |m.mem| > SpIndex
  {
    Locate(|m.mem|, Wrap(SpValue(m.mem) - 1))
  }

  /** push lowers SP by one and stores the operand's value, read with SP already lowered,
      in the cell SP then addresses. */
  lemma PushEffect(m: Machine, valAccess: nat, val: int, advance: bool)
    requires Push(m, valAccess, val, advance).Ok?
    ensures |m.mem| > SpIndex && PushTarget(m).Ok?
    ensures var m' := Push(m, valAccess, val, advance).value;
            var t := PushTarget(m).value;
            var lowered := m.mem[SpIndex := Wrap(SpValue(m.mem) - 1)];
            var v := Wrap(GetValue(lowered, val, valAccess).value);
            m'.startpoints == m.startpoints && m'.reading == m.reading &&
            SameCellsExcept(m.mem, m'.mem, {t, SpIndex, IpIndex}) &&
            (t != IpIndex && t != SpIndex ==>
               m'.mem[t] == v && m'.mem[SpIndex] == Wrap(SpValue(m.mem) - 1) &&
               m'.mem[IpIndex] == (if advance then Wrap(IpValue(m.mem) + 1) else m.mem[IpIndex]))
  {
  }

  /** pop raises SP by one and adds one to IP. */
  lemma PopEffect(m: Machine)
    requires Pop(m).Ok?
    ensures Pop(m).value == m.(mem := m.mem[SpIndex := Wrap(SpValue(m.mem) + 1)]
                                          [IpIndex := Wrap(IpValue(m.mem) + 1)])
  {
  }

  /** A push followed by a pop leaves SP as it was and IP two instructions on, unless the
      pushed value landed on IP or SP itself. */
  lemma PushThenPop(m: Machine, valAccess: nat, val: int)
    requires Push(m, valAccess, val, true).Ok? && Pop(Push(m, valAccess, val, true).value).Ok?
    requires |m.mem| > SpIndex && PushTarget(m).Ok?
    requires PushTarget(m).value != IpIndex && PushTarget(m).value != SpIndex
    ensures var m' := Pop(Push(m, valAccess, val, true).value).value;
            m'.mem[SpIndex] == m.mem[SpIndex] && m'.mem[IpIndex] == Wrap(IpValue(m.mem) + 2)
  {
    PushEffect(m, valAccess, val, true);
    var m1 := Push(m, valAccess, val, true).value;
    PopEffect(m1);
    WrapShift(SpValue(m.mem) - 1, 1);
    WrapShift(IpValue(m.mem) + 1, 1);
  }

  /** call pushes the address of the next instruction and sets IP to the start point of
      the function; a function that was never defined is a KeyError. */
  lemma CallEffect(m: Machine, functionNumber: nat)
    requires Call(m, functionNumber).Ok?
    ensures |m.mem| > SpIndex && PushTarget(m).Ok?
    ensures var m' := Call(m, functionNumber).value;
            var t := PushTarget(m).value;
            functionNumber in m.startpoints && m'.startpoints == m.startpoints &&
            m'.reading == m.reading && m'.mem[IpIndex] == m.startpoints[functionNumber] &&
            SameCellsExcept(m.mem, m'.mem, {t, SpIndex, IpIndex}) &&
            (t != IpIndex && t != SpIndex ==>
               m'.mem[t] == Wrap(IpValue(m.mem) + 1) && m'.mem[SpIndex] == Wrap(SpValue(m.mem) - 1))
  {
    var m1 := Push(m, 0, IpValue(m.mem) + 1, false).value;
    PushEffect(m, 0, IpValue(m.mem) + 1, false);
  }

  lemma CallUnknownFunction(m: Machine, functionNumber: nat)
    requires |m.mem| > SpIndex && Push(m, 0, IpValue(m.mem) + 1, false).Ok?
    requires functionNumber !in m.startpoints
    ensures Call(m, functionNumber) == Err("KeyError: unknown function")
  {
  }

  /** indir_call calls the function whose number is the operand's value. */
  lemma IndirCallEffect(m: Machine, valAccess: nat, val: nat)
    requires IndirCall(m, valAccess, val).Ok?
    ensures |m.mem| > SpIndex && PushTarget(m).Ok? && GetValue(m.mem, val, valAccess).Ok?
    ensures var m' := IndirCall(m, valAccess, val).value;
            var t := PushTarget(m).value;
            var f := GetValue(m.mem, val, valAccess).value;
            f in m.startpoints && m'.startpoints == m.startpoints &&
            m'.reading == m.reading && m'.mem[IpIndex] == m.startpoints[f] &&
            SameCellsExcept(m.mem, m'.mem, {t, SpIndex, IpIndex}) &&
            (t != IpIndex && t != SpIndex ==>
               m'.mem[t] == Wrap(IpValue(m.mem) + 1) && m'.mem[SpIndex] == Wrap(SpValue(m.mem) - 1))
  {
    PushEffect(m, 0, IpValue(m.mem) + 1, false);
  }

  /** fbegin records the instruction after it as the function's start and sets the flag;
      it refuses to begin a function while one is being read. */
  lemma FBeginEffect(m: Machine, functionNumber: nat)
    ensures m.reading ==> FBegin(m, functionNumber) == Err("RuntimeError: Nested functions are not implemented")
    ensures !m.reading && FBegin(m, functionNumber).Ok? ==>
              FBegin(m, functionNumber).value ==
              Machine(m.mem[IpIndex := Wrap(IpValue(m.mem) + 1)],
                      m.startpoints[functionNumber := Wrap(IpValue(m.mem) + 1)], true)
  {
  }

  /** fend clears the flag and adds one to IP. */
  lemma FEndEffect(m: Machine)
    requires FEnd(m).Ok?
    ensures FEnd(m).value == Machine(m.mem[IpIndex := Wrap(IpValue(m.mem) + 1)], m.startpoints, false)
  {
  }

  /** jump sets IP to the operand's value; jump_if_gz adds the immediate to IP when the
      operand is positive and one otherwise. */
  lemma JumpEffect(m: Machine, destAccess: nat, dest: nat)
    requires Jump(m, destAccess, dest).Ok?
    ensures Jump(m, destAccess, dest).value ==
            m.(mem := m.mem[IpIndex := Wrap(GetValue(m.mem, dest, destAccess).value)])
  {
  }

  lemma JumpIfGzEffect(m: Machine, valAccess: nat, val: nat, imm: nat)
    requires JumpIfGz(m, valAccess, val, imm).Ok?
    ensures GetValue(m.mem, val, valAccess).Ok?
    ensures var offset := if GetValue(m.mem, val, valAccess).value > 0 then imm else 1;
            JumpIfGz(m, valAccess, val, imm).value == m.(mem := m.mem[IpIndex := Wrap(IpValue(m.mem) + offset)])
  {
  }

  /** Storing LoadLow keeps the high 16 bits of the cell and puts the immediate in the low 16. */
  lemma LoadLowHalves(prev: int, imm: nat)
    requires imm < 0x1_0000
    ensures var stored := Wrap(LoadLow(prev, imm)) % 0x1_0000_0000;
            stored / 0x1_0000 == (prev % 0x1_0000_0000) / 0x1_0000 && stored % 0x1_0000 == imm
  {
    var n := LoadLow(prev, imm);
    var high := (prev % 0x1_0000_0000) / 0x1_0000;
    assert high < 0x1_0000 by {
      DivBelow(prev % 0x1_0000_0000, 0x1_0000, 0x1_0000);
    }
    assert Wrap(n) % 0x1_0000_0000 == n by {
      WrapLowBits(n);
      DivModUnique(n, 0x1_0000_0000, 0, n);
    }
    DivModUnique(n, 0x1_0000, high, imm);
  }

  /** Storing LoadHigh puts the immediate in the high 16 bits and keeps the low 16. */
  lemma LoadHighHalves(prev: int, imm: nat)
    requires imm < 0x1_0000
    ensures var stored := Wrap(LoadHigh(prev, imm)) % 0x1_0000_0000;
            stored / 0x1_0000 == imm && stored % 0x1_0000 == prev % 0x1_0000
  {
    var n := LoadHigh(prev, imm);
    var low := (prev % 0x1_0000_0000) % 0x1_0000;
    assert Wrap(n) % 0x1_0000_0000 == n by {
      WrapLowBits(n);
      DivModUnique(n, 0x1_0000_0000, 0, n);
    }
    assert low == prev % 0x1_0000 by {
      ModOfMod(prev);
    }
    DivModUnique(n, 0x1_0000, imm, low);
  }

  /** The low 16 bits of the low 32 bits are the low 16 bits. */
  lemma ModOfMod(x: int)
    ensures (x % 0x1_0000_0000) % 0x1_0000 == x % 0x1_0000
  {
    var q, r := x / 0x1_0000_0000, x % 0x1_0000_0000;
    assert x == 0x1_0000 * (0x1_0000 * q + r / 0x1_0000) + r % 0x1_0000;
    DivModUnique(x, 0x1_0000, 0x1_0000 * q + r / 0x1_0000, r % 0x1_0000);
  }

  /** load_l and load_h refuse an immediate of more than 16 bits. */
  lemma LoadRejectsWideImmediate(m: Machine, destAccess: nat, dest: nat, imm: nat)
    requires IsReg(dest) && imm >= 0x1_0000
    ensures LoadL(m, destAccess, dest, imm) == Err("AssertionError: immediate out of range")
    ensures LoadH(m, destAccess, dest, imm) == Err("AssertionError: immediate out of range")
  {
  }

  /** The cell at the destination address of load_l or load_h. */
  function LoadTarget(m: Machine, destAccess: nat, dest: nat): Result<nat> {
    var address :- GetValue(m.mem, dest, destAccess);
    Locate(|m.mem|, address)
  }

  /** load_l changes the cell at the destination address and IP: it keeps the high 16 bits
      of the cell and puts the immediate in the low 16. */
  lemma LoadLEffect(m: Machine, destAccess: nat, dest: nat, imm: nat)
    requires LoadL(m, destAccess, dest, imm).Ok?
    ensures imm < 0x1_0000 && LoadTarget(m, destAccess, dest).Ok?
    ensures var m' := LoadL(m, destAccess, dest, imm).value;
            var i := LoadTarget(m, destAccess, dest).value;
            m'.startpoints == m.startpoints && m'.reading == m.reading &&
            SameCellsExcept(m.mem, m'.mem, {i, IpIndex}) &&
            (i != IpIndex ==> m'.mem[i] == Wrap(LoadLow(m.mem[i], imm)))
  {
    var i := LoadTarget(m, destAccess, dest).value;
    WriteThenEffect(m, GetValue(m.mem, dest, destAccess).value, LoadLow(m.mem[i], imm), true);
  }

  /** load_h: the immediate in the high 16 bits, the low 16 kept. */
  lemma LoadHEffect(m: Machine, destAccess: nat, dest: nat, imm: nat)
    requires LoadH(m, destAccess, dest, imm).Ok?
    ensures imm < 0x1_0000 && LoadTarget(m, destAccess, dest).Ok?
    ensures var m' := LoadH(m, destAccess, dest, imm).value;
            var i := LoadTarget(m, destAccess, dest).value;
            m'.startpoints == m.startpoints && m'.reading == m.reading &&
            SameCellsExcept(m.mem, m'.mem, {i, IpIndex}) &&
            (i != IpIndex ==> m'.mem[i] == Wrap(LoadHigh(m.mem[i], imm)))
  {
    var i := LoadTarget(m, destAccess, dest).value;
    WriteThenEffect(m, GetValue(m.mem, dest, destAccess).value, LoadHigh(m.mem[i], imm), true);
  }

  // ---------------------------------------------------------------- dispatch and execute

  /** An instruction word that decodes to an opcode other than FEND. */
  predicate SkippedWord(w: Int32) {
    Decode(Unsigned(w)).Ok? && Decode(Unsigned(w)).value.opcode != OpFEnd
  }

  /** While a function body is being read, dispatch only moves IP on. */
  lemma SkipOne(m: Machine)
    requires m.reading && |m.mem| > IpIndex && 0 < IpValue(m.mem) < |m.mem|
    requires SkippedWord(m.mem[IpValue(m.mem)])
    ensures Dispatch(m) == Ok(Step(m.(mem := m.mem[IpIndex := Wrap(IpValue(m.mem) + 1)]), true))
  {
  }

  /** The machine with IP set to `ip`. */
  function AtInstruction(m: Machine, ip: Int32): Machine
    requires |m.mem| > IpIndex
  {
    m.(mem := m.mem[IpIndex := ip])
  }

  /** `step` at IP = ip only moves IP on to ip + 1. */
  predicate AdvancesAt(step: Machine -> Result<Step>, m: Machine, ip: int) {
    |m.mem| > IpIndex && -0x8000_0000 <= ip && ip + 1 < 0x8000_0000 &&
    step(AtInstruction(m, ip)) == Ok(Step(AtInstruction(m, ip + 1), true))
  }

  /** A step that only moves IP on, k times in a row, moves IP k places on. */
  lemma {:induction false} IterateAdvancing(step: Machine -> Result<Step>, m: Machine, ip: Int32, k: nat)
    requires |m.mem| > IpIndex && ip + k < 0x8000_0000
    requires forall a :: ip <= a < ip + k ==> AdvancesAt(step, m, a)
    ensures Iterate(step, AtInstruction(m, ip), k) == Ok(Step(AtInstruction(m, ip + k), true))
    decreases k
  {
    if k > 0 {
      assert AdvancesAt(step, m, ip);
      IterateAdvancing(step, m, ip + 1, k - 1);
    }
  }

  /** Reading a function body of k instructions other than FEND moves IP k places on and
      changes nothing else. */
  lemma SkipFunctionBody(m: Machine, k: nat)
    requires m.reading && |m.mem| > IpIndex && 0 < IpValue(m.mem) && IpValue(m.mem) + k <= |m.mem|
    requires IpValue(m.mem) + k < 0x8000_0000
    requires forall j :: IpValue(m.mem) <= j < IpValue(m.mem) + k ==> SkippedWord(m.mem[j])
    ensures Run(m, k) == Ok(Step(m.(mem := m.mem[IpIndex := IpValue(m.mem) + k]), true))
  {
    var ip := m.mem[IpIndex];
    forall a | ip <= a < ip + k
      ensures AdvancesAt(Dispatch, m, a)
    {
      SkipAt(m, a);
    }
    IterateAdvancing(Dispatch, m, ip, k);
    assert AtInstruction(m, ip) == m;
  }

  lemma SkipAt(m: Machine, a: int)
    requires m.reading && |m.mem| > IpIndex && 0 < a < |m.mem| && a + 1 < 0x8000_0000
    requires SkippedWord(m.mem[a])
    ensures AdvancesAt(Dispatch, m, a)
  {
    var ma := AtInstruction(m, a);
    assert IpValue(ma.mem) == a && ma.mem[a] == m.mem[a];
    SkipOne(ma);
    assert Wrap(a + 1) == a + 1;
    assert ma.(mem := ma.mem[IpIndex := a + 1]) == AtInstruction(m, a + 1);
  }

  /** FEND ends the skipping: the flag is cleared and IP moves on. */
  lemma FEndStopsSkipping(m: Machine)
    requires |m.mem| > IpIndex && 0 < IpValue(m.mem) < |m.mem|
    requires Decode(Unsigned(m.mem[IpValue(m.mem)])) == Ok(OpcodeOnly(OpFEnd))
    ensures Dispatch(m) == Ok(Step(Machine(m.mem[IpIndex := Wrap(IpValue(m.mem) + 1)], m.startpoints, false), true))
  {
  }

  /** TERM stops execute, whatever fuel is left, and changes nothing. */
  lemma RunStopsAtTerm(m: Machine, fuel: nat)
    requires !m.reading && fuel > 0 && |m.mem| > IpIndex && 0 <= IpValue(m.mem) < |m.mem|
    requires Decode(Unsigned(m.mem[IpValue(m.mem)])) == Ok(OpcodeOnly(OpTerm))
    ensures Run(m, fuel) == Ok(Step(m, false))
  {
    assert Dispatch(m) == Ok(Step(m, false));
  }

  /** Iterating a + b times is iterating a times, then b more if still running. */
  lemma {:induction false} IterateComposes(step: Machine -> Result<Step>, m: Machine, a: nat, b: nat)
    ensures Iterate(step, m, a + b) ==
            (var r := Iterate(step, m, a); if r.Ok? && r.value.running then Iterate(step, r.value.next, b) else r)
    decreases a
  {
    if a > 0 {
      var s := step(m);
      if s.Ok? && s.value.running {
        IterateComposes(step, s.value.next, a - 1, b);
      }
    }
  }

  /** Running for a + b dispatches is running for a, then for b more if still running. */
  lemma RunComposes(m: Machine, a: nat, b: nat)
    ensures Run(m, a + b) ==
            (var r := Run(m, a); if r.Ok? && r.value.running then Run(r.value.next, b) else r)
  {
    IterateComposes(Dispatch, m, a, b);
  }

  /** Once execution has stopped, more fuel changes nothing. */
  lemma RunStopped(m: Machine, a: nat, b: nat)
    requires Run(m, a).Err? || !Run(m, a).value.running
    ensures Run(m, a + b) == Run(m, a)
  {
    RunComposes(m, a, b);
  }
}
