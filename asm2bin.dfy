/** The VonNeumann assembler (VonNeumann/asm2bin.py): operand parsing, the five
    instruction encoders, the string table and the line-by-line assembly of a
    source file into a binary image. */
module Asm2Bin {
  import opened Wrappers
  import opened Bits
  import opened Numerals
  import opened Text
  import opened Isa

  // ---------------------------------------------------------------- operands

  /** decode_reg as written: a special-register name, or "r" followed by anything
      int() accepts whose value is non-zero and at most 13. A negative numeral
      passes that test too, so "r-1" names register 1 (sp). An empty string
      raises IndexError. */
  function DecodeReg(reg: string): (r: Result<Option<int>>)
    ensures r.Err? <==> reg !in SpecialRegisters && |reg| == 0
    ensures r.Ok? && r.value.Some? ==> r.value.value < MaxRegisters
  {
    if reg in SpecialRegisters then Ok(Some(SpecialRegisters[reg]))
    else if |reg| == 0 then Err("IndexError: string index out of range")
    else if reg[0] == 'r' then
      var n := match ParseInt(reg[1..]) case Some(v) => v case None => 0;
      if n != 0 && n <= MaxRegisters - |SpecialRegistersToName| then Ok(Some(|SpecialRegistersToName| + n - 1))
      else Ok(None)
    else Ok(None)
  }

  /** decode_reg as evidently intended: only r1..r13 name general registers. */
  function DecodeRegChecked(reg: string): (r: Result<Option<int>>)
    ensures r.Err? <==> reg !in SpecialRegisters && |reg| == 0
    ensures r.Ok? && r.value.Some? ==> IsReg(r.value.value)
  {
    if reg in SpecialRegisters then Ok(Some(SpecialRegisters[reg]))
    else if |reg| == 0 then Err("IndexError: string index out of range")
    else if reg[0] == 'r' then
      var n := match ParseInt(reg[1..]) case Some(v) => v case None => 0;
      if 1 <= n <= MaxRegisters - |SpecialRegistersToName| then Ok(Some(|SpecialRegistersToName| + n - 1))
      else Ok(None)
    else Ok(None)
  }

  /** "r-1" and "r-2" are accepted by decode_reg and alias sp and ip; "r-3" yields a
      negative index. The checked decoder rejects all three. */
  lemma NegativeRegisterNumeralsAlias()
    ensures DecodeReg("r-1") == Ok(Some(SpIndex)) && DecodeReg("r-2") == Ok(Some(IpIndex))
    ensures DecodeReg("r-3") == Ok(Some(-1))
    ensures DecodeRegChecked("r-1") == Ok(None) && DecodeRegChecked("r-2") == Ok(None)
    ensures DecodeRegChecked("r-3") == Ok(None)
  {
    assert "r-1"[1..] == "-1" && "-1"[1..] == "1";
    assert "r-2"[1..] == "-2" && "-2"[1..] == "2";
    assert "r-3"[1..] == "-3" && "-3"[1..] == "3";
    assert "1"[..0] == "" && "2"[..0] == "" && "3"[..0] == "";
    assert "r-1" !in SpecialRegisters && "r-2" !in SpecialRegisters && "r-3" !in SpecialRegisters;
  }

  /** On the canonical register names both decoders agree: "r<n>" is register n + 2
      for 1 <= n <= 13 and is no register otherwise. */
  lemma DecodeNumberedRegister(n: nat)
    ensures DecodeRegChecked("r" + NatToString(n)) ==
            (if 1 <= n <= 13 then Ok(Some(n + 2)) else Ok(None))
    ensures DecodeReg("r" + NatToString(n)) == DecodeRegChecked("r" + NatToString(n))
  {
    var s := "r" + NatToString(n);
    assert s[1..] == NatToString(n);
    ParseNatToString(n);
    assert s !in SpecialRegisters by {
      assert s[0] == 'r' && |s| >= 2;
      assert SpecialRegisters.Keys == {"ip", "sp", "rv"};
    }
  }

  /** get_imm: the immediate as a `bits`-digit binary string, or an error when it
      does not fit. */
  function GetImm(imm: int, bits: nat): (r: Result<seq<char>>)
    ensures r.Ok? <==> 0 <= imm < Pow2(bits)
    ensures r.Ok? ==> |r.value| == bits && IsBinary(r.value) && FromBits(r.value) == imm
  {
    if imm < 0 || imm >= Pow2(bits) then Err("Invalid immediate")
    else
      FromToBitsExact(imm, bits);
      Ok(ToBits(imm, bits))
  }

  /** get_imm on a source token: int() first, which raises ValueError on a non-numeral. */
  function GetImmText(imm: string, bits: nat): (r: Result<seq<char>>)
    ensures r.Ok? <==> ParseInt(imm).Some? && 0 <= ParseInt(imm).value < Pow2(bits)
    ensures r.Ok? ==> |r.value| == bits && IsBinary(r.value) && FromBits(r.value) == ParseInt(imm).value
  {
    match ParseInt(imm)
    case None => Err("ValueError: invalid literal for int()")
    case Some(v) => GetImm(v, bits)
  }

  /** A register operand: the number of leading '*' (levels of indirection) and the
      register index. */
  datatype RegOperand = RegOperand(access: nat, index: nat)

  /** The number of leading '*' characters. */
  function LeadingStars(s: string): (k: nat)
    ensures k <= |s| && (forall i :: 0 <= i < k ==> s[i] == '*') && (k < |s| ==> s[k] != '*')
  {
    if |s| > 0 && s[0] == '*' then 1 + LeadingStars(s[1..]) else 0
  }

  /** _get_reg_with_access_level: an operand that is all stars raises IndexError, more
      than seven stars fail the 3-bit assertion, and the rest must name a register by
      decode_reg as written, so "r-1" and "r-2" name sp and ip. A negative index
      ("r-3" and below) is returned by the source and formatted with a '-', which every
      encoder's int(bits, 2) then rejects; the model reports that ValueError here. */
  function RegWithAccessLevel(arg: string): (r: Result<RegOperand>)
    ensures r.Ok? <==> LeadingStars(arg) < |arg| && LeadingStars(arg) < Pow2(AccessBits) &&
                       DecodeReg(arg[LeadingStars(arg)..]).Ok? &&
                       DecodeReg(arg[LeadingStars(arg)..]).value.Some? &&
                       DecodeReg(arg[LeadingStars(arg)..]).value.value >= 0
    ensures r.Ok? ==> r.value.access < Pow2(AccessBits) && r.value.index < Pow2(RegisterBits) &&
                      r.value.access < |arg| && arg[..r.value.access] == Repeat('*', r.value.access) &&
                      DecodeReg(arg[r.value.access..]) == Ok(Some(r.value.index as int))
  {
    var k := LeadingStars(arg);
    if k == |arg| then Err("IndexError: string index out of range")
    else if k >= Pow2(AccessBits) then Err("AssertionError: access level")
    else
      var reg := DecodeReg(arg[k..]).value;
      if reg.None? then Err("AssertionError: register")
      else if reg.value < 0 then Err("ValueError: invalid literal for int() with base 2")
      else
        RegisterIsFourBitField(reg.value);
        Ok(RegOperand(k, reg.value))
  }

  /** The loop of _get_reg_with_access_level, proved to compute RegWithAccessLevel. */
  method GetRegWithAccessLevel(arg: string) returns (r: Result<RegOperand>)
    ensures r == RegWithAccessLevel(arg)
  {
    var accessLevel := 0;
    while accessLevel < |arg| && arg[accessLevel] == '*'
      invariant 0 <= accessLevel <= |arg|
      invariant accessLevel <= LeadingStars(arg)
      invariant forall i :: 0 <= i < accessLevel ==> arg[i] == '*'
    {
      accessLevel := accessLevel + 1;
    }
    if accessLevel == |arg| {
      return Err("IndexError: string index out of range");
    }
    if accessLevel >= Pow2(AccessBits) {
      return Err("AssertionError: access level");
    }
    var reg := DecodeReg(arg[accessLevel..]).value;
    if reg.None? {
      return Err("AssertionError: register");
    }
    if reg.value < 0 {
      return Err("ValueError: invalid literal for int() with base 2");
    }
    RegisterIsFourBitField(reg.value);
    return Ok(RegOperand(accessLevel, reg.value));
  }

  /** The assembler as written takes "r-1" and "*r-2" as sp and *ip, and fails on
      "r-3" with the ValueError of the '-' in its formatted index. */
  lemma NegativeOperandsAsWritten()
    ensures RegWithAccessLevel("r-1") == Ok(RegOperand(0, SpIndex))
    ensures RegWithAccessLevel("*r-2") == Ok(RegOperand(1, IpIndex))
    ensures RegWithAccessLevel("r-3") == Err("ValueError: invalid literal for int() with base 2")
  {
    NegativeRegisterNumeralsAlias();
    assert LeadingStars("r-1") == 0 && LeadingStars("r-3") == 0;
    assert LeadingStars("*r-2") == 1 by { assert "*r-2"[1..] == "r-2"; }
    assert "r-1"[0..] == "r-1" && "r-3"[0..] == "r-3" && "*r-2"[1..] == "r-2";
  }

  /** get_encoded_reg_with_access_level: the 3-digit access field and the 4-digit
      register field. */
  function EncodedRegWithAccessLevel(arg: string): (r: Result<(seq<char>, seq<char>)>)
    ensures r.Ok? <==> RegWithAccessLevel(arg).Ok?
    ensures r.Ok? ==> r.value.0 == ToBits(RegWithAccessLevel(arg).value.access, AccessBits) &&
                      r.value.1 == ToBits(RegWithAccessLevel(arg).value.index, RegisterBits)
  {
    var op :- RegWithAccessLevel(arg);
    Ok((ToBits(op.access, AccessBits), ToBits(op.index, RegisterBits)))
  }

  // ---------------------------------------------------------------- encoders

  /** np.uint32(int(bits, 2)) of a string of 32 binary digits: the value fits a word,
      so nothing wraps, and formatting the word gives the same digits back. */
  function WordOf(bits: seq<char>): (w: Word)
    requires IsBinary(bits) && |bits| == WordBits
    ensures ToBits(w as nat, WordBits) == bits
  {
    Pow2Of32();
    ToFromBits(bits);
    FromBits(bits)
  }

  /** The opcode field of a mnemonic. */
  function OpcodeField(opcode: string): (s: seq<char>)
    requires opcode in NameToOpcode
    ensures |s| == OpcodeBits && IsBinary(s) && FromBits(s) == NameToOpcode[opcode]
  {
    OpcodesFitField();
    NameToOpcodeInverse();
    FromToBitsExact(NameToOpcode[opcode], OpcodeBits);
    ToBits(NameToOpcode[opcode], OpcodeBits)
  }

  /** _encode_reg_reg: opcode, two register operands, zero padding to 32 bits. */
  function EncodeRegReg(opcode: string, reg1: string, reg2: string): (r: Result<Word>)
    ensures r.Ok? <==> opcode in NameToOpcode && RegWithAccessLevel(reg1).Ok? && RegWithAccessLevel(reg2).Ok?
  {
    if opcode !in NameToOpcode then Err("KeyError: " + opcode) else
    var f1 :- EncodedRegWithAccessLevel(reg1);
    var f2 :- EncodedRegWithAccessLevel(reg2);
    var encoded := OpcodeField(opcode) + f1.0 + f1.1 + f2.0 + f2.1;
    Ok(WordOf(encoded + Zeros(WordBits - |encoded|)))
  }

  /** _encode_reg_imm: opcode, one register operand and a 20-bit immediate. */
  function EncodeRegImm(opcode: string, reg: string, imm: string): (r: Result<Word>)
    ensures r.Ok? <==> opcode in NameToOpcode && RegWithAccessLevel(reg).Ok? && GetImmText(imm, RegImmBits).Ok?
  {
    if opcode !in NameToOpcode then Err("KeyError: " + opcode) else
    var f :- EncodedRegWithAccessLevel(reg);
    var i :- GetImmText(imm, RegImmBits);
    Ok(WordOf(OpcodeField(opcode) + f.0 + f.1 + i))
  }

  /** _encode_reg: opcode and one register operand, zero padding to 32 bits. */
  function EncodeReg(opcode: string, reg: string): (r: Result<Word>)
    ensures r.Ok? <==> opcode in NameToOpcode && RegWithAccessLevel(reg).Ok?
  {
    if opcode !in NameToOpcode then Err("KeyError: " + opcode) else
    var f :- EncodedRegWithAccessLevel(reg);
    var encoded := OpcodeField(opcode) + f.0 + f.1;
    Ok(WordOf(encoded + Zeros(WordBits - |encoded|)))
  }

  /** _encode_imm: opcode and a 27-bit immediate. The assembler passes either a
      source token or, for PRINTSTR, a string index; int() is the identity on the latter. */
  function EncodeImm(opcode: string, imm: int): (r: Result<Word>)
    ensures r.Ok? <==> opcode in NameToOpcode && 0 <= imm < Pow2(ImmBits)
  {
    if opcode !in NameToOpcode then Err("KeyError: " + opcode) else
    var i :- GetImm(imm, ImmBits);
    Ok(WordOf(OpcodeField(opcode) + i))
  }

  /** _encode_imm on a source token, which get_imm first reads with int(). */
  function EncodeImmText(opcode: string, imm: string): (r: Result<Word>)
    ensures r.Ok? <==> opcode in NameToOpcode && ParseInt(imm).Some? && 0 <= ParseInt(imm).value < Pow2(ImmBits)
  {
    match ParseInt(imm)
    case None => Err("ValueError: invalid literal for int()")
    case Some(v) => EncodeImm(opcode, v)
  }

  /** _encode_opcode_only: the opcode followed by 27 zero bits. */
  function EncodeOpcodeOnly(opcode: string): (r: Result<Word>)
    ensures r.Ok? <==> opcode in NameToOpcode
  {
    if opcode !in NameToOpcode then Err("KeyError: " + opcode) else
    var encoded := OpcodeField(opcode);
    Ok(WordOf(encoded + Zeros(WordBits - |encoded|)))
  }

  /** An entry of ENCODERS: which private encoder a mnemonic's wrapper calls. */
  datatype Encoder =
    | RegRegEncoder(name: string)
    | RegImmEncoder(name: string)
    | RegEncoder(name: string)
    | ImmEncoder(name: string)
    | OpcodeOnlyEncoder(name: string)

  const Encoders: map<string, Encoder> := map[
    "MOV" := RegRegEncoder("MOV"), "ADD" := RegRegEncoder("ADD"), "SUB" := RegRegEncoder("SUB"),
    "POP" := OpcodeOnlyEncoder("POP"), "PUSH" := RegEncoder("PUSH"), "CALL" := ImmEncoder("CALL"),
    "FBEGIN" := ImmEncoder("FBEGIN"), "FEND" := OpcodeOnlyEncoder("FEND"),
    "TERM" := OpcodeOnlyEncoder("TERM"), "JUMP" := RegEncoder("JUMP"),
    "JUMP_IF_GZ" := RegImmEncoder("JUMP_IF_GZ"), "PRINT" := RegEncoder("PRINT"),
    "READ" := RegEncoder("READ"), "PRINTSTR" := ImmEncoder("PRINTSTR"),
    "LOADL" := RegImmEncoder("LOADL"), "LOADH" := RegImmEncoder("LOADH"),
    "ADDI" := RegImmEncoder("ADDI"), "SUBI" := RegImmEncoder("SUBI"),
    "INDIR_CALL" := RegEncoder("INDIR_CALL")]

  function EncoderLayout(e: Encoder): Layout {
    match e
    case RegRegEncoder(_) => RegRegLayout
    case RegImmEncoder(_) => RegImmLayout
    case RegEncoder(_) => RegLayout
    case ImmEncoder(_) => ImmLayout
    case OpcodeOnlyEncoder(_) => OpcodeOnlyLayout
  }

  /** ENCODERS has exactly the mnemonics of NAME_TO_OPCODE. */
  lemma EncodersCoverMnemonics()
    ensures Encoders.Keys == NameToOpcode.Keys
  {
  }

  /** Each wrapper in ENCODERS encodes its own mnemonic. */
  lemma EncodersUseOwnMnemonic()
    ensures forall name :: name in Encoders ==> Encoders[name].name == name
  {
  }

  /** Each wrapper encodes with the layout the instruction classes give its opcode. */
  lemma EncoderLayoutMatchesClass(name: string)
    requires name in Encoders && name in NameToOpcode
    ensures LayoutOf(NameToOpcode[name]) == Some(EncoderLayout(Encoders[name]))
  {
  }

  /** encoder(*tokens[1:]): a call with the wrong number of arguments raises TypeError
      before the wrapper runs. */
  function ApplyEncoder(e: Encoder, args: seq<string>): (r: Result<Word>)
    ensures r.Ok? ==> |args| == OperandCount(EncoderLayout(e))
  {
    if |args| != OperandCount(EncoderLayout(e)) then Err("TypeError: wrong number of arguments")
    else match e
      case RegRegEncoder(name) => EncodeRegReg(name, args[0], args[1])
      case RegImmEncoder(name) => EncodeRegImm(name, args[0], args[1])
      case RegEncoder(name) => EncodeReg(name, args[0])
      case ImmEncoder(name) => EncodeImmText(name, args[0])
      case OpcodeOnlyEncoder(name) => EncodeOpcodeOnly(name)
  }

  // ------------------------------------------------------------ string table

  /** One string's cells: its length, then the code point of each character. */
  function Entry(s: string): (e: seq<nat>)
    ensures |e| == |s| + 1 && e[0] == |s|
    ensures forall k :: 0 <= k < |s| ==> e[k + 1] == s[k] as nat
  {
    [|s|] + seq(|s|, k requires 0 <= k < |s| => s[k] as nat)
  }

  /** How many cells the entries of `xs` take. */
  function PayloadSize(xs: seq<string>): nat {
    if xs == [] then 0 else PayloadSize(xs[..|xs| - 1]) + |xs[|xs| - 1]| + 1
  }

  /** The entries of `xs`, one after the other. */
  function Payload(xs: seq<string>): (p: seq<nat>)
    ensures |p| == PayloadSize(xs)
  {
    if xs == [] then [] else Payload(xs[..|xs| - 1]) + Entry(xs[|xs| - 1])
  }

  /** Where the entry of xs[i] starts: after the offsets section and the entries before it. */
  function Offset(xs: seq<string>, i: nat): nat
    requires i <= |xs|
  {
    |xs| + PayloadSize(xs[..i])
  }

  /** The layout generate_string_table documents: the offsets of the entries, then the
      entries themselves. */
  function StringTable(xs: seq<string>): (t: seq<nat>)
    ensures |t| == |xs| + PayloadSize(xs)
  {
    seq(|xs|, i requires 0 <= i < |xs| => Offset(xs, i)) + Payload(xs)
  }

  /** The entries of a prefix of the strings are a prefix of the entries. */
  lemma {:induction false} PayloadPrefix(xs: seq<string>, m: nat)
    requires m <= |xs|
    ensures PayloadSize(xs[..m]) <= PayloadSize(xs)
    ensures Payload(xs)[..PayloadSize(xs[..m])] == Payload(xs[..m])
    decreases |xs|
  {
    if m < |xs| {
      var init := xs[..|xs| - 1];
      assert init[..m] == xs[..m];
      PayloadPrefix(init, m);
      assert Payload(xs) == Payload(init) + Entry(xs[|xs| - 1]);
    } else {
      assert xs[..m] == xs;
    }
  }

  /** The entry of xs[i] sits at Offset(xs, i), just after those of xs[..i]. */
  lemma {:induction false} EntryInPayload(xs: seq<string>, i: nat)
    requires i < |xs|
    ensures Offset(xs, i + 1) == Offset(xs, i) + |xs[i]| + 1 <= |xs| + PayloadSize(xs)
    ensures Payload(xs)[Offset(xs, i) - |xs|..Offset(xs, i + 1) - |xs|] == Entry(xs[i])
  {
    var p := xs[..i + 1];
    assert p[..|p| - 1] == xs[..i];
    var lo, hi := PayloadSize(xs[..i]), PayloadSize(p);
    assert hi == lo + |xs[i]| + 1;
    assert Payload(p) == Payload(xs[..i]) + Entry(xs[i]);
    PayloadPrefix(xs, i + 1);
    var q := Payload(xs);
    assert q[..hi] == Payload(p);
    assert q[lo..hi] == Payload(p)[lo..hi];
  }

  /** Looking a string up in the table: cell i holds its offset, the cell there its
      length, and the cells after it its code points. */
  lemma {:induction false} StringTableLookup(xs: seq<string>, i: nat)
    requires i < |xs|
    ensures var t := StringTable(xs);
            t[i] == Offset(xs, i) && Offset(xs, i) + |xs[i]| < |t| &&
            t[t[i]] == |xs[i]| &&
            forall k :: 0 <= k < |xs[i]| ==> t[t[i] + 1 + k] == xs[i][k] as nat
  {
    EntryInPayload(xs, i);
    var t := StringTable(xs);
    var o := Offset(xs, i);
    forall k | 0 <= k <= |xs[i]|
      ensures t[o + k] == Entry(xs[i])[k]
    {
      assert t[o + k] == Payload(xs)[o - |xs| + k];
      assert Payload(xs)[o - |xs|..Offset(xs, i + 1) - |xs|][k] == Payload(xs)[o - |xs| + k];
    }
    assert t[o] == Entry(xs[i])[0];
    forall k | 0 <= k < |xs[i]|
      ensures t[o + 1 + k] == xs[i][k] as nat
    {
      assert t[o + (k + 1)] == Entry(xs[i])[k + 1];
    }
  }

  /** The offsets start right after the offsets section and increase by the size of
      each entry. */
  lemma {:induction false} StringTableOffsets(xs: seq<string>)
    ensures |xs| > 0 ==> StringTable(xs)[0] == |xs|
    ensures forall i :: 0 <= i < |xs| - 1 ==> StringTable(xs)[i + 1] == StringTable(xs)[i] + |xs[i]| + 1
  {
    if |xs| > 0 {
      assert xs[..0] == [];
    }
    forall i | 0 <= i < |xs| - 1
      ensures StringTable(xs)[i + 1] == StringTable(xs)[i] + |xs[i]| + 1
    {
      EntryInPayload(xs, i);
    }
  }

  /** The entry of xs[i] occupies the table from its offset up to the next one. */
  lemma {:induction false} StringTableSlice(xs: seq<string>, i: nat)
    requires i < |xs|
    ensures var t := StringTable(xs);
            t[i] == Offset(xs, i) && Offset(xs, i + 1) == Offset(xs, i) + |xs[i]| + 1 <= |t| &&
            t[Offset(xs, i)..Offset(xs, i + 1)] == Entry(xs[i])
  {
    EntryInPayload(xs, i);
    var t := StringTable(xs);
    assert t[|xs|..] == Payload(xs);
    assert t[Offset(xs, i)..Offset(xs, i + 1)] == t[|xs|..][Offset(xs, i) - |xs|..Offset(xs, i + 1) - |xs|];
  }

  /** One pass of generate_string_table's second loop: the length of `s` at `offset`,
      then its code points. */
  method WriteEntry(data: array<nat>, s: string, offset: nat) returns (next: nat)
    requires offset + |s| + 1 <= data.Length
    modifies data
    ensures next == offset + |s| + 1
    ensures data[offset..next] == Entry(s)
    ensures forall p :: 0 <= p < data.Length && !(offset <= p < next) ==> data[p] == old(data[p])
  {
    data[offset] := |s|;
    next := offset + 1;
    for k := 0 to |s|
      invariant next == offset + 1 + k
      invariant data[offset] == |s|
      invariant forall j :: 0 <= j < k ==> data[offset + 1 + j] == s[j] as nat
      invariant forall p :: 0 <= p < data.Length && !(offset <= p < next) ==> data[p] == old(data[p])
    {
      data[next] := s[k] as nat;
      next := next + 1;
    }
    assert forall j :: 0 <= j < next - offset ==> data[offset..next][j] == Entry(s)[j];
  }

  /** generate_string_table's first loop: the offsets section plus every entry. */
  method TableSize(xs: seq<string>) returns (totalSize: nat)
    ensures totalSize == |StringTable(xs)|
  {
    totalSize := |xs|;
    var i := 0;
    while i < |xs|
      invariant 0 <= i <= |xs| && totalSize == |xs| + PayloadSize(xs[..i])
    {
      assert xs[..i + 1][..i] == xs[..i];
      totalSize := totalSize + |xs[i]| + 1;
      i := i + 1;
    }
    assert xs[..|xs|] == xs;
  }

  /** Bookkeeping for one pass of the fill loop: writing cell i and the cells
      [offset, next) extends both filled regions of the table. */
  lemma FillStep(d0: seq<nat>, d1: seq<nat>, t: seq<nat>, i: nat, n: nat, offset: nat, next: nat)
    requires |d0| == |d1| == |t| && i < n <= offset <= next <= |t|
    requires d0[..i] == t[..i] && d0[n..offset] == t[n..offset]
    requires d1[i] == t[i] && d1[offset..next] == t[offset..next]
    requires forall p :: 0 <= p < |d1| && p != i && !(offset <= p < next) ==> d1[p] == d0[p]
    ensures d1[..i + 1] == t[..i + 1] && d1[n..next] == t[n..next]
  {
    assert d1[..i + 1] == d0[..i] + [d1[i]];
    assert d1[n..next] == d1[n..offset] + d1[offset..next];
    assert d1[n..offset] == d0[n..offset];
    assert t[n..next] == t[n..offset] + t[offset..next];
  }

  /** generate_string_table: a zeroed array of the table's size, filled entry by entry. */
  method GenerateStringTable(xs: seq<string>) returns (data: array<nat>)
    ensures fresh(data) && data[..] == StringTable(xs)
  {
    ghost var t := StringTable(xs);
    var totalSize := TableSize(xs);
    data := new nat[totalSize](_ => 0);

    var currentOffset := |xs|;
    var i := 0;
    while i < |xs|
      invariant 0 <= i <= |xs| && data.Length == |t|
      invariant currentOffset == Offset(xs, i) <= |t|
      invariant data[..i] == t[..i]
      invariant data[|xs|..currentOffset] == t[|xs|..currentOffset]
    {
      StringTableSlice(xs, i);
      ghost var offset, before := currentOffset, data[..];
      data[i] := currentOffset;
      currentOffset := WriteEntry(data, xs[i], currentOffset);
      FillStep(before, data[..], t, i, |xs|, offset, currentOffset);
      i := i + 1;
    }
    assert xs[..|xs|] == xs;
    assert data[..] == data[..|xs|] + data[|xs|..currentOffset];
    assert t == t[..|xs|] + t[|xs|..currentOffset];
  }

  // ------------------------------------------------------------ whole source

  /** What generate_instructions has collected so far. */
  datatype Assembled = Assembled(instructions: seq<Word>, strings: seq<string>)

  /** A PRINTSTR line: the rest of the line after the first blank is a new string, and
      the instruction holds its index in the string table. */
  function AssemblePrintStr(acc: Assembled, high: seq<string>): (r: Result<Assembled>)
    ensures r.Ok? <==> |high| >= 2 && |acc.strings| < Pow2(ImmBits)
    ensures r.Ok? ==> |r.value.instructions| == |acc.instructions| + 1 &&
                      r.value.instructions[..|acc.instructions|] == acc.instructions &&
                      r.value.strings == acc.strings + [high[1]]
  {
    if |high| < 2 then Err("IndexError: list index out of range")
    else
      var strings := acc.strings + [high[1]];
      var w :- EncodeImm("PRINTSTR", |strings| - 1);
      Ok(Assembled(acc.instructions + [w], strings))
  }

  /** Any other line: the first token names the wrapper in ENCODERS, the others are its
      arguments. */
  function AssembleCommand(acc: Assembled, tokens: seq<string>): (r: Result<Assembled>)
    requires |tokens| >= 1
    ensures r.Ok? <==> tokens[0] in Encoders && ApplyEncoder(Encoders[tokens[0]], tokens[1..]).Ok?
    ensures r.Ok? ==> r.value.strings == acc.strings &&
                      r.value.instructions == acc.instructions + [ApplyEncoder(Encoders[tokens[0]], tokens[1..]).value]
  {
    if tokens[0] !in Encoders then Err("Invalid command: " + tokens[0])
    else
      var w :- ApplyEncoder(Encoders[tokens[0]], tokens[1..]);
      Ok(Assembled(acc.instructions + [w], acc.strings))
  }

  /** One iteration of generate_instructions over a source line. An empty line is
      skipped; a line of blanks strips to "" and is rejected as an invalid command. */
  function AssembleLine(acc: Assembled, line: string): (r: Result<Assembled>)
    ensures r.Ok? ==> |r.value.instructions| == |acc.instructions| + (if |line| == 0 then 0 else 1)
    ensures r.Ok? ==> r.value.instructions[..|acc.instructions|] == acc.instructions
    ensures r.Ok? ==> acc.strings <= r.value.strings && |r.value.strings| <= |acc.strings| + 1
  {
    if |line| == 0 then Ok(acc)
    else
      var high := SplitOnce(Strip(line), ' ');
      if high[0] == "PRINTSTR" then AssemblePrintStr(acc, high)
      else AssembleCommand(acc, Split(Strip(line), ' '))
  }

  /** A non-empty line whose first stripped field is not PRINTSTR is a command. */
  lemma CommandLineAssembles(acc: Assembled, line: string)
    requires |line| != 0 && SplitOnce(Strip(line), ' ')[0] != "PRINTSTR"
    ensures AssembleLine(acc, line) == AssembleCommand(acc, Split(Strip(line), ' '))
  {
  }

  /** generate_instructions from a given point on: the lines left, with what the
      earlier lines produced. */
  function AssembleFrom(acc: Assembled, lines: seq<string>): Result<Assembled>
    decreases |lines|
  {
    if lines == [] then Ok(acc)
    else
      var next :- AssembleLine(acc, lines[0]);
      AssembleFrom(next, lines[1..])
  }

  /** generate_instructions over the lines of a file, first line first. */
  function AssembleLines(lines: seq<string>): Result<Assembled> {
    AssembleFrom(Assembled([], []), lines)
  }

  /** The loop of generate_instructions, proved to compute AssembleLines. */
  method GenerateInstructions(lines: seq<string>) returns (r: Result<Assembled>)
    ensures r == AssembleLines(lines)
  {
    var acc := Assembled([], []);
    var i := 0;
    while i < |lines|
      invariant 0 <= i <= |lines| && AssembleFrom(acc, lines[i..]) == AssembleLines(lines)
    {
      assert lines[i..][1..] == lines[i + 1..];
      var next := AssembleLine(acc, lines[i]);
      if next.Err? {
        return Err(next.error);
      }
      acc := next.value;
      i := i + 1;
    }
    return Ok(acc);
  }

  /** The image main writes: the instruction count, the instructions, the string table. */
  function Image(a: Assembled): (image: seq<nat>)
    ensures |image| == 1 + |a.instructions| + |StringTable(a.strings)|
    ensures image[0] == |a.instructions|
    ensures image[1..1 + |a.instructions|] == a.instructions
    ensures image[1 + |a.instructions|..] == StringTable(a.strings)
  {
    [|a.instructions|] + a.instructions + StringTable(a.strings)
  }

  /** Assembling a source file: the image, or the error that stops the assembler. */
  function Assemble(lines: seq<string>): Result<seq<nat>> {
    var a :- AssembleLines(lines);
    Ok(Image(a))
  }
}
