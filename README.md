# PLConcepts core, modelled in Dafny

This project models four small systems from the PLConcepts repository and proves
properties of each.

- **VonNeumann toolchain.** A 19-opcode instruction set packed into 32-bit words.
  - The assembler (`asm2bin.py`) turns source lines into an image: an instruction count, the instruction words, then a length-prefixed string table.
  - The decoder (`decoder.py`) cuts a word back into its fields.
  - The disassembler (`bin2asm.py`) renders an image back to text.
  - The interpreter (`runtime.py`) runs an image over a memory of int32 cells. IP and SP live in cells 0 and 1.
- **Future/promise slot** (`Future_Promise/async`). A shared slot has three parts:
  - a state machine INIT → READY → DONE_WAITING;
  - a value-or-exception payload;
  - the `futures_counter` handshake that decides which thread runs the continuation.

  On top of the slot sit `Promise`, `Future`, continuation composition (`then.h`), launching (`async.h`) and the executor's closeable FIFO queue (`exec/queue.h`).
- **Macro-built virtual dispatch** (`VirtualMethod/macro_inheritance.h`). It covers the vtable registry, method lookup along the base chain, the dynamic-cast test and the static-method callability test.
- **LINQ-style query methods** (`LINQ/linq.py`): the query methods over finite sequences.

Where the source is a pure computation, the model is functions and lemmas. Where the source updates state in place, the model is classes and methods. Each of those methods is proved against a specification function: `Runtime.Interpreter` against `Semantics`, the `SharedState`/`Promise`/`Future` classes against the step functions on `Slot`, and `Hierarchy` against `Registry`.

Concurrency in the future/promise code is modelled as a scheduler choosing the next atomic step. Each `fetch_add`, each locked section and each emplace is one step. Blocking waits become preconditions and the spin becomes a step that is only enabled later. `Handshake` proves the counter protocol over every interleaving.

The files:
- VonNeumann: `wrappers`, `bits`, `numerals`, `text`, `isa`, `asm2bin`, `decoder`, `bin2asm`, `roundtrip`, `semantics`, `runtime`.
- Future/promise: `shared_state`, `future`, `promise`, `handshake`, `then`, `async`, `queue`.
- Virtual dispatch: `vtable`.
- LINQ: `linq`.

Behaviour of the code that its comments or names do not suggest, and that the model follows:
- A second `Get`/`TryGet` on a consumed future returns the stored value again, or rethrows the stored exception (`Futures.ConsumeAgain`). "double call to Future::Get" is thrown only by a `TryGet` that lost a race (`Futures.DoubleCallOnlyFromRace`).
- `take(n)` with a negative `n` yields every element, because the generator's `idx == n` test is never met (`Linq.Take`).
- The docstring of `generate_string_table` gives "qwerty" length 5. The code stores 6, and the model follows the code (`Asm2Bin.StringTableLookup`).

## Model

| member | source | states |
|---|---|---|
| Isa.OpcodeToNameInverse | VonNeumann/isa.py:28-70 | OPCODE_TO_NAME has 19 entries and NAME_TO_OPCODE maps each back to its index |
| Isa.NameToOpcodeInverse | VonNeumann/isa.py:28-70 | every mnemonic maps into 0..18 and OPCODE_TO_NAME maps it back |
| Isa.OpcodeConstantsMatchTable | VonNeumann/isa.py:28-48 | each named opcode constant is the index of its mnemonic |
| Isa.ClassesPartitionOpcodes | VonNeumann/isa.py:105-156 | the five class sets are pairwise disjoint and their union is exactly 0..18 |
| Isa.LayoutDefinedExactlyOnOpcodes | VonNeumann/isa.py:105-156 | an integer has an operand layout iff it is one of the 19 opcodes |
| Isa.LayoutIsClass | VonNeumann/isa.py:105-156 | the layout of an opcode is X iff the is_X_instr predicate holds, for each of the five classes |
| Isa.NumArgsMatchesLayout | VonNeumann/isa.py:72-92 | OPCODE_TO_NUM_ARGS is 2 for reg-reg and reg-imm, 1 for reg and imm, 0 for opcode-only |
| Isa.RegisterIsFourBitField | VonNeumann/isa.py:98-102 | is_reg(a) iff 0 <= a < 2^4, the values of the register field |
| Isa.SpecialRegistersInverse | VonNeumann/isa.py:94-97 | SPECIAL_REGISTERS and SPECIAL_REGISTERS_TO_NAME are inverse; IP_INDEX/SP_INDEX are the indices of "ip"/"sp" |
| Isa.LayoutsFitWord | VonNeumann/isa.py:4-25 | the field widths of every layout fit one 32-bit word; reg-imm and imm fill it exactly |
| Isa.OpcodesFitField | VonNeumann/isa.py:28-48 | every opcode is below 32, so it fits the 5-bit opcode field |
| Bits.ToBits | VonNeumann/asm2bin.py:12 | format(n, "0wb") for n < 2^w, the only n its callers pass: exactly w binary digits; larger n would be cut to n mod 2^w, where Python writes more digits |
| Bits.FromBits | VonNeumann/decoder.py:7 | int(s, 2) of s binary digits is below 2^len(s) |
| Bits.FromToBits | VonNeumann/asm2bin.py:161-165 | reading back what format wrote gives n modulo 2^w |
| Bits.FromToBitsExact | VonNeumann/asm2bin.py:161-165 | for n < 2^w, reading back gives n |
| Bits.ToFromBits | VonNeumann/decoder.py:6 | formatting what int(s, 2) read gives the digits back |
| Bits.FromBitsAppend | VonNeumann/asm2bin.py:15-17 | concatenating digit strings shifts the left part by the width of the right |
| Bits.FromBitsZeros | VonNeumann/asm2bin.py:16 | zero padding reads as 0 |
| Bits.HighPart | VonNeumann/decoder.py:6-7 | the leading digits are the value divided by 2^(rest), the trailing ones the remainder |
| Bits.SliceValue | VonNeumann/decoder.py:6-30 | int(binary[lo:hi], 2) is the value shifted right past hi and masked to hi-lo bits |
| Numerals.NatToString | VonNeumann/bin2asm.py:47 | str(n) is a non-empty digit string without a leading zero |
| Numerals.ParseInt | VonNeumann/asm2bin.py:153 | int(s) succeeds iff s is digits with an optional sign |
| Numerals.ParseNatToString | VonNeumann/bin2asm.py:56 | int(str(n)) == n |
| Numerals.DigitsValueOfNatToString | VonNeumann/bin2asm.py:56 | the digits of str(n) have value n |
| Text.StripLeft | VonNeumann/asm2bin.py:230 | drops exactly the leading whitespace: the 29 code points str.isspace() accepts |
| Text.StripRight | VonNeumann/asm2bin.py:230 | drops exactly the trailing whitespace: the 29 code points str.isspace() accepts |
| Text.StripRemovesSeparator | VonNeumann/asm2bin.py:230 | "TERM\x1c\n" strips to "TERM", as str.strip() removes the information separators |
| Text.StripRemovesUnicodeSpaces | VonNeumann/asm2bin.py:230 | a leading ideographic space and a trailing no-break space are stripped |
| Text.Split | VonNeumann/asm2bin.py:236 | str.split(sep): at least one field, none containing sep |
| Text.SplitOnce | VonNeumann/asm2bin.py:230 | str.split(sep, 1): one or two fields, the first free of sep |
| Text.SplitJoin | VonNeumann/asm2bin.py:236 | joining the fields of a split with the separator gives the string back |
| Text.SplitOfJoin | VonNeumann/asm2bin.py:230-236 | splitting separator-free fields joined by sep gives the fields back; split once gives the first |
| Text.StripLine | VonNeumann/asm2bin.py:226-230 | stripping a line read with its newline gives its text when that neither begins nor ends in a str.isspace() character |
| Text.FieldsOfLine | VonNeumann/asm2bin.py:230-236 | blank-joined fields read with their newline strip to the joined text; split(' ', 1) gives the first field and split(' ') all of them |
| Text.TokensLine | VonNeumann/asm2bin.py:236 | tokens joined by blanks form a line whose fields are those tokens |
| Text.Repeat | VonNeumann/bin2asm.py:17 | "c" * n is n copies of c |
| Asm2Bin.DecodeReg | VonNeumann/asm2bin.py:146-158 | decode_reg as written: IndexError exactly on the empty string; any index it yields is below 16 |
| Asm2Bin.DecodeRegChecked | VonNeumann/asm2bin.py:146-158 | decode_reg restricted to r1..r13: every index it yields is a register |
| Asm2Bin.NegativeRegisterNumeralsAlias | VonNeumann/asm2bin.py:150-157 | as written "r-1"/"r-2" name sp/ip and "r-3" yields -1; the checked decoder rejects all three |
| Asm2Bin.DecodeNumberedRegister | VonNeumann/asm2bin.py:146-158 | "rN" names register N+2 for 1 <= N <= 13 and none otherwise, in both decoders |
| Asm2Bin.GetImm | VonNeumann/asm2bin.py:161-165 | succeeds iff 0 <= imm < 2^bits, then exactly `bits` digits reading back as imm |
| Asm2Bin.GetImmText | VonNeumann/asm2bin.py:161-165 | as GetImm after int(), which fails on a non-numeral |
| Asm2Bin.LeadingStars | VonNeumann/asm2bin.py:169-171 | the count of leading '*' characters |
| Asm2Bin.RegWithAccessLevel | VonNeumann/asm2bin.py:168-177 | succeeds iff fewer than 8 stars are followed by a name decode_reg as written reads as a non-negative index, so "r-1"/"r-2" are sp/ip; a negative index is the encoder's ValueError; access and index fit 3 and 4 bits |
| Asm2Bin.GetRegWithAccessLevel | VonNeumann/asm2bin.py:168-177 | the star-counting loop computes RegWithAccessLevel |
| Asm2Bin.NegativeOperandsAsWritten | VonNeumann/asm2bin.py:168-177 | "r-1" and "*r-2" assemble as sp and *ip; "r-3" fails with the ValueError of its formatted index |
| Asm2Bin.EncodedRegWithAccessLevel | VonNeumann/asm2bin.py:180-184 | the 3-digit access field and the 4-digit register field of the operand |
| Asm2Bin.OpcodeField | VonNeumann/asm2bin.py:12 | five digits reading back as the mnemonic's opcode |
| Asm2Bin.WordOf | VonNeumann/asm2bin.py:17 | np.uint32(int(bits, 2)) of 32 digits does not wrap: formatting the word as "032b" gives the digits back |
| Asm2Bin.EncodeRegReg | VonNeumann/asm2bin.py:11-17 | succeeds iff the mnemonic is known and both operands parse |
| Asm2Bin.EncodeRegImm | VonNeumann/asm2bin.py:34-39 | succeeds iff the mnemonic is known, the operand parses and the immediate fits 20 bits |
| Asm2Bin.EncodeReg | VonNeumann/asm2bin.py:61-66 | succeeds iff the mnemonic is known and the operand parses |
| Asm2Bin.EncodeImm | VonNeumann/asm2bin.py:88-92 | succeeds iff the mnemonic is known and the immediate fits 27 bits |
| Asm2Bin.EncodeImmText | VonNeumann/asm2bin.py:88-92 | as EncodeImm on the numeral int() reads |
| Asm2Bin.EncodeOpcodeOnly | VonNeumann/asm2bin.py:107-110 | succeeds iff the mnemonic is known |
| Asm2Bin.EncodersCoverMnemonics | VonNeumann/asm2bin.py:122-142 | ENCODERS has exactly the mnemonics of NAME_TO_OPCODE |
| Asm2Bin.EncodersUseOwnMnemonic | VonNeumann/asm2bin.py:122-142 | each wrapper in ENCODERS encodes its own mnemonic |
| Asm2Bin.EncoderLayoutMatchesClass | VonNeumann/asm2bin.py:122-142 | each wrapper uses the layout the class sets give its opcode |
| Asm2Bin.ApplyEncoder | VonNeumann/asm2bin.py:241-242 | a call succeeds only with the encoder's number of operands |
| Asm2Bin.Entry | VonNeumann/asm2bin.py:211-216 | one string's cells: its length, then the code point of each character |
| Asm2Bin.Payload | VonNeumann/asm2bin.py:201-203 | the entries take the sizes the first loop adds up |
| Asm2Bin.StringTable | VonNeumann/asm2bin.py:187-218 | the table's length is the count of strings plus each length + 1 |
| Asm2Bin.PayloadPrefix | VonNeumann/asm2bin.py:207-216 | the entries of a prefix of the strings are a prefix of the entries |
| Asm2Bin.EntryInPayload | VonNeumann/asm2bin.py:207-216 | offset_{i+1} = offset_i + len(xs[i]) + 1, and entry i lies between them |
| Asm2Bin.StringTableLookup | VonNeumann/asm2bin.py:187-218 | cell i holds offset_i, the cell there len(xs[i]), and the cells after it the code points |
| Asm2Bin.StringTableOffsets | VonNeumann/asm2bin.py:207-212 | offset_0 = number of strings, and each next offset adds len + 1 |
| Asm2Bin.StringTableSlice | VonNeumann/asm2bin.py:207-216 | the cells from offset_i to offset_{i+1} are exactly entry i |
| Asm2Bin.WriteEntry | VonNeumann/asm2bin.py:210-216 | one pass writes the entry at the offset, returns the next offset, changes no other cell |
| Asm2Bin.FillStep | VonNeumann/asm2bin.py:207-216 | one pass of the fill loop extends both filled regions of the table |
| Asm2Bin.TableSize | VonNeumann/asm2bin.py:201-203 | the first loop computes the table's length |
| Asm2Bin.GenerateStringTable | VonNeumann/asm2bin.py:187-218 | the filled array is exactly StringTable(xs) |
| Asm2Bin.AssemblePrintStr | VonNeumann/asm2bin.py:231-234 | a PRINTSTR line appends the rest of the line to the strings and one instruction |
| Asm2Bin.AssembleCommand | VonNeumann/asm2bin.py:236-243 | succeeds iff the mnemonic is in ENCODERS and its encoder accepts the arguments, then appends that word |
| Asm2Bin.AssembleLine | VonNeumann/asm2bin.py:226-243 | an empty line adds nothing, any other line one instruction; earlier output is kept, at most one string added |
| Asm2Bin.GenerateInstructions | VonNeumann/asm2bin.py:221-245 | the loop over the lines computes AssembleLines |
| Asm2Bin.AssembleLines | VonNeumann/asm2bin.py:221-245 | generate_instructions over the lines, first line first, stopping at the first error; computed by GenerateInstructions, each line as AssembleLine states |
| Asm2Bin.Image | VonNeumann/asm2bin.py:259-263 | the image is the count, the instructions, then the string table |
| Asm2Bin.Assemble | VonNeumann/asm2bin.py:255-263 | the image main writes, or the assembler's error; RoundTrip.DisassembleImage reads it back |
| Decoder.DecodeDigits | VonNeumann/decoder.py:5-36 | succeeds iff the top five digits are an opcode; the layout matches its class, fields in range |
| Decoder.Decode | VonNeumann/decoder.py:5-36 | a decoded word has its class's layout and operands that fit their fields |
| Decoder.Field | VonNeumann/decoder.py:7 | int(binary[lo:hi], 2) is below 2^(hi-lo) |
| Decoder.DecodeOfDigits | VonNeumann/decoder.py:6 | a word decodes as the 32 digits format writes |
| Decoder.DecodeDigitsByLayout | VonNeumann/decoder.py:9-34 | the tuple for each class: bits [5:8], [8:12], [12:15], [15:19]; [12:]; [5:] |
| Decoder.FieldOfWord | VonNeumann/decoder.py:6-7 | a digit field of a word is a shift and mask of the word |
| Decoder.DecodeOpcode | VonNeumann/decoder.py:7-36 | the opcode is the top five bits; opcodes 19..31 raise "Unknown instruction" |
| Decoder.DecodeRegRegFields | VonNeumann/decoder.py:9-15 | reg-reg operands are the bits at 24, 20, 17 and 13 |
| Decoder.DecodeRegImmFields | VonNeumann/decoder.py:16-21 | reg-imm operands; the immediate is the low 20 bits |
| Decoder.DecodeRegFields | VonNeumann/decoder.py:22-27 | the reg operand; the low 20 bits are ignored |
| Decoder.DecodeImmField | VonNeumann/decoder.py:28-31 | the immediate is the low 27 bits |
| Bin2Asm.RegName | VonNeumann/bin2asm.py:7-11 | asserts is_reg; 0..2 are ip/sp/rv and k >= 3 is "r(k-2)" |
| Bin2Asm.OperandText | VonNeumann/bin2asm.py:17 | one '*' per access level, then the register name |
| Bin2Asm.DecodeOneArg | VonNeumann/bin2asm.py:14-21 | a reg operand as starred register, otherwise (asserted imm) the decimal immediate |
| Bin2Asm.DecodeTwoArgs | VonNeumann/bin2asm.py:24-33 | two starred registers, or (asserted reg-imm) a starred register and a decimal immediate |
| Bin2Asm.RenderInstruction | VonNeumann/bin2asm.py:61-70 | one line: the mnemonic, then the operands by OPCODE_TO_NUM_ARGS or PRINTSTR's string; RoundTrip.RenderTokens and RoundTrip.RenderPrintStr give its text |
| Bin2Asm.RenderWord | VonNeumann/bin2asm.py:58-72 | decode, render and add the newline; RoundTrip.ReassembleWord |
| Bin2Asm.DisassembleWord | VonNeumann/bin2asm.py:57-72 | decode and render word i of the image; RoundTrip.ReassembleWord shows the line reassembles to the same decoding |
| Bin2Asm.StaticData | VonNeumann/bin2asm.py:64 | code[code_length + 1:], empty when the image is shorter; RoundTrip.DisassembleImage |
| Bin2Asm.ReadChars | VonNeumann/bin2asm.py:40-41 | reading `count` cells gives `count` characters |
| Bin2Asm.StringAt | VonNeumann/bin2asm.py:36-42 | the string's length is the cell the offset in cell num points to |
| Bin2Asm.GetFromStringTable | VonNeumann/bin2asm.py:36-42 | the accumulating loop computes StringAt |
| Bin2Asm.ReadCharsStopsAt | VonNeumann/bin2asm.py:40-41 | once a character cannot be read, reading more fails the same way |
| Bin2Asm.Lines | VonNeumann/bin2asm.py:57-72 | a successful run yields one line per entry |
| Bin2Asm.DisassembleWords | VonNeumann/bin2asm.py:57-72 | disassembling `count` words yields `count` lines |
| Bin2Asm.Disassemble | VonNeumann/bin2asm.py:54-72 | decodes exactly code[0] words, all inside the image |
| Bin2Asm.LinesOk | VonNeumann/bin2asm.py:57-72 | the run succeeds only if every line does |
| Bin2Asm.DisassembledWordsInImage | VonNeumann/bin2asm.py:55-58 | a successful run reads only words inside the image |
| Bin2Asm.LinesStopAt | VonNeumann/bin2asm.py:57-72 | the first failing line decides the outcome |
| Bin2Asm.DisassembleMain | VonNeumann/bin2asm.py:52-75 | the loop of main computes Disassemble |
| RoundTrip.CharIsCodePoint | VonNeumann/bin2asm.py:41 | chr(ord(c)) == c |
| RoundTrip.ReadCharsOfCells | VonNeumann/bin2asm.py:40-41 | reading cells holding code points gives those characters |
| RoundTrip.StringAtTable | VonNeumann/bin2asm.py:36-42 | get_from_string_table(generate_string_table(xs), i) == xs[i] |
| RoundTrip.DisassembleImage | VonNeumann/bin2asm.py:55-64 | on the assembler's image, word i is the i-th instruction and the rest is the string table |
| RoundTrip.RegNameRoundTrip | VonNeumann/bin2asm.py:7-11 | both versions of asm2bin's decode_reg read each register name back as its index |
| RoundTrip.LeadingStarsOfOperand | VonNeumann/asm2bin.py:169-171 | the assembler counts exactly the stars the disassembler writes |
| RoundTrip.OperandTextRoundTrip | VonNeumann/bin2asm.py:17 | a printed operand parses back to the same access level and register |
| RoundTrip.NumeralIsToken | VonNeumann/bin2asm.py:20 | a decimal immediate is one blank-free token |
| RoundTrip.MnemonicIsToken | VonNeumann/isa.py:50-70 | every mnemonic is one blank-free token |
| RoundTrip.MnemonicIsPrintStr | VonNeumann/bin2asm.py:63 | only PRINTSTR's opcode prints as "PRINTSTR" |
| RoundTrip.FieldOfDigits | VonNeumann/decoder.py:11-30 | a field holding the digits of n reads back as n |
| RoundTrip.RegRegDigitsHigh | VonNeumann/decoder.py:7-12 | the opcode and first operand fields of a reg-reg word |
| RoundTrip.RegRegDigitsLow | VonNeumann/decoder.py:13-14 | the second operand fields of a reg-reg word |
| RoundTrip.DecodeRegRegDigits | VonNeumann/decoder.py:9-15 | a reg-reg word built from its fields decodes to them |
| RoundTrip.EncodeRegRegDigits | VonNeumann/asm2bin.py:11-17 | _encode_reg_reg's word is its opcode and operand fields |
| RoundTrip.EncodeRegRegRoundTrip | VonNeumann/asm2bin.py:11-17 | decode of _encode_reg_reg is the opcode and both operands |
| RoundTrip.RegImmDigitsHigh | VonNeumann/decoder.py:7-18 | the opcode and access fields of a reg-imm word |
| RoundTrip.RegImmDigitsLow | VonNeumann/decoder.py:19-20 | the register and immediate fields of a reg-imm word |
| RoundTrip.DecodeRegImmDigits | VonNeumann/decoder.py:16-21 | a reg-imm word built from its fields decodes to them |
| RoundTrip.ImmDigits | VonNeumann/asm2bin.py:161-165 | get_imm writes the digits of the number it read |
| RoundTrip.EncodeRegImmDigits | VonNeumann/asm2bin.py:34-39 | _encode_reg_imm's word is its opcode, operand and immediate fields |
| RoundTrip.EncodeRegImmRoundTrip | VonNeumann/asm2bin.py:34-39 | decode of _encode_reg_imm is the opcode, operand and immediate |
| RoundTrip.RegDigitsFields | VonNeumann/decoder.py:22-26 | the fields of a reg word |
| RoundTrip.DecodeRegDigits | VonNeumann/decoder.py:22-27 | a reg word built from its fields decodes to them |
| RoundTrip.EncodeRegDigits | VonNeumann/asm2bin.py:61-66 | _encode_reg's word is its opcode and operand fields |
| RoundTrip.EncodeRegRoundTrip | VonNeumann/asm2bin.py:61-66 | decode of _encode_reg is the opcode and operand |
| RoundTrip.ImmDigitsFields | VonNeumann/decoder.py:28-31 | the fields of an imm word |
| RoundTrip.DecodeImmDigits | VonNeumann/decoder.py:28-31 | an imm word built from its fields decodes to them |
| RoundTrip.EncodeImmRoundTrip | VonNeumann/asm2bin.py:88-92 | decode of _encode_imm is the opcode and immediate |
| RoundTrip.DecodeOpcodeOnlyDigits | VonNeumann/decoder.py:32-34 | an opcode-only word decodes to its opcode |
| RoundTrip.EncodeOpcodeOnlyRoundTrip | VonNeumann/asm2bin.py:107-110 | decode of _encode_opcode_only is the opcode |
| RoundTrip.EncoderFor | VonNeumann/asm2bin.py:122-142 | the wrapper for a layout and mnemonic has that layout and encodes that mnemonic |
| RoundTrip.EncoderOfOpcode | VonNeumann/asm2bin.py:122-142 | the mnemonic printed for an opcode names the wrapper of its layout in ENCODERS |
| RoundTrip.AssembleFields | VonNeumann/asm2bin.py:230-243 | a blank-separated line that is not PRINTSTR is assembled as a command of its fields |
| Asm2Bin.CommandLineAssembles | VonNeumann/asm2bin.py:226-243 | a non-empty line whose first stripped field is not PRINTSTR is assembled as a command of its blank-separated fields |
| RoundTrip.EncoderOfClass | VonNeumann/asm2bin.py:122-142 | the wrapper ENCODERS holds for each class of opcodes |
| RoundTrip.ApplyEncoderCases | VonNeumann/asm2bin.py:241-242 | what each wrapper calls with its number of arguments |
| RoundTrip.CommandReassembles | VonNeumann/asm2bin.py:236-243 | a command line appends one word decoding to the instruction |
| RoundTrip.TokensCommandLine | VonNeumann/asm2bin.py:236-243 | a line of tokens whose encoder's word decodes to d is a command line |
| RoundTrip.Tokens | VonNeumann/bin2asm.py:66-70 | the tokens: the mnemonic, then one per operand |
| RoundTrip.OperandsAreTokens | VonNeumann/bin2asm.py:14-33 | every printed operand is a single token |
| RoundTrip.TokensAreTokens | VonNeumann/bin2asm.py:61-70 | every printed token is one token, the first PRINTSTR only for PRINTSTR |
| RoundTrip.RenderRegReg | VonNeumann/bin2asm.py:24-33 | a reg-reg line is its three tokens |
| RoundTrip.RenderRegImm | VonNeumann/bin2asm.py:24-33 | a reg-imm line is its three tokens |
| RoundTrip.RenderReg | VonNeumann/bin2asm.py:14-21 | a reg line is its two tokens |
| RoundTrip.RenderImm | VonNeumann/bin2asm.py:14-21 | CALL/FBEGIN lines are the mnemonic and the immediate |
| RoundTrip.RenderOpcodeOnly | VonNeumann/bin2asm.py:61-70 | an opcode-only line is the mnemonic alone |
| RoundTrip.RenderTokens | VonNeumann/bin2asm.py:61-72 | a line other than PRINTSTR is its tokens separated by single blanks |
| RoundTrip.EncodeRegRegTokens | VonNeumann/asm2bin.py:11-17 | the reg-reg encoder turns the printed operands back into the instruction |
| RoundTrip.RegImmEncoding | VonNeumann/asm2bin.py:34-39 | the reg-imm wrapper builds a word decoding to the operand and immediate it accepts |
| RoundTrip.EncodeRegImmTokens | VonNeumann/asm2bin.py:34-39 | the reg-imm encoder turns the printed tokens back into the instruction |
| RoundTrip.EncodeRegTokens | VonNeumann/asm2bin.py:61-66 | the reg encoder turns the printed operand back into the instruction |
| RoundTrip.EncodeImmTokens | VonNeumann/asm2bin.py:88-92 | the imm encoder turns the printed immediate back into the instruction |
| RoundTrip.EncodeOpcodeOnlyTokens | VonNeumann/asm2bin.py:107-110 | the opcode-only encoder turns the mnemonic back into the instruction |
| RoundTrip.EncodeTokens | VonNeumann/asm2bin.py:122-142 | the encoder for the printed mnemonic rebuilds any instruction but PRINTSTR |
| RoundTrip.PrintedCommandLine | VonNeumann/bin2asm.py:61-72 | a printed line other than PRINTSTR is a command line |
| RoundTrip.ReassembleInstruction | VonNeumann/bin2asm.py:61-72 | a printed instruction other than PRINTSTR assembles back to a word with the same decoding |
| RoundTrip.ReassembleWord | VonNeumann/bin2asm.py:57-72 | every decodable word but PRINTSTR disassembles to a line the assembler turns back into the same decoding |
| RoundTrip.PrintStrFields | VonNeumann/asm2bin.py:230-232 | a PRINTSTR line strips and splits once into the mnemonic and the whole string, blanks included |
| RoundTrip.PrintStrWord | VonNeumann/asm2bin.py:233 | the PRINTSTR word holds the new string's index |
| RoundTrip.AssemblePrintStrLine | VonNeumann/asm2bin.py:230-234 | a PRINTSTR line appends the string and one PRINTSTR of its index |
| RoundTrip.RenderPrintStr | VonNeumann/bin2asm.py:63-64 | PRINTSTR prints the string its immediate indexes |
| RoundTrip.ReassemblePrintStr | VonNeumann/bin2asm.py:63-64 | a printed PRINTSTR reassembles to a PRINTSTR of the next index with its string appended |
| Semantics.Wrap | VonNeumann/runtime.py:10-13 | the int32 congruent to x modulo 2^32, x itself when in range |
| Semantics.Locate | VonNeumann/runtime.py:13-16 | numpy indexing: valid iff -size <= a < size; negative addresses count from the end |
| Semantics.Store | VonNeumann/runtime.py:12-13 | a write succeeds iff the address is valid and keeps the memory size |
| Semantics.WriteThen | VonNeumann/runtime.py:71-72 | a handler's write followed by next_command |
| Semantics.GetValue | VonNeumann/runtime.py:55-58 | get_value: access-many reads starting from v; Semantics.GetValueIsCell and GetValueComposes |
| Semantics.Advance | VonNeumann/runtime.py:60-61 | next_command; Semantics.AdvanceEffect |
| Semantics.EnterFunction | VonNeumann/runtime.py:137-140 | IP := the function's start point, a KeyError when it has none; Semantics.CallUnknownFunction |
| Semantics.Unsigned | VonNeumann/runtime.py:259 | np.uint32 of an int32 cell: itself when non-negative, plus 2^32 when negative |
| Semantics.Mov | VonNeumann/runtime.py:63-73 | MOV; its effect is stated by Semantics.MovEffect |
| Semantics.Add | VonNeumann/runtime.py:75-86 | ADD; its effect is stated by Semantics.AddEffect |
| Semantics.Sub | VonNeumann/runtime.py:88-99 | SUB; its effect is stated by Semantics.SubEffect |
| Semantics.AddI | VonNeumann/runtime.py:221-232 | ADDI; its effect is stated by Semantics.AddIEffect |
| Semantics.SubI | VonNeumann/runtime.py:234-245 | SUBI; its effect is stated by Semantics.SubIEffect |
| Semantics.Jump | VonNeumann/runtime.py:101-108 | JUMP; its effect is stated by Semantics.JumpEffect |
| Semantics.JumpIfGz | VonNeumann/runtime.py:110-120 | JUMP_IF_GZ; its effect is stated by Semantics.JumpIfGzEffect |
| Semantics.Pop | VonNeumann/runtime.py:122-125 | POP; its effect is stated by Semantics.PopEffect |
| Semantics.Push | VonNeumann/runtime.py:127-135 | PUSH; its effect is stated by Semantics.PushEffect and Semantics.PushThenPop |
| Semantics.Call | VonNeumann/runtime.py:137-140 | CALL: the start point pushed and jumped to, or a KeyError (Semantics.CallEffect) |
| Semantics.IndirCall | VonNeumann/runtime.py:247-251 | INDIR_CALL; its effect is stated by Semantics.IndirCallEffect |
| Semantics.FBegin | VonNeumann/runtime.py:142-149 | FBEGIN; its effect is stated by Semantics.FBeginEffect |
| Semantics.FEnd | VonNeumann/runtime.py:151-154 | FEND; its effect is stated by Semantics.FEndEffect |
| Semantics.LoadL | VonNeumann/runtime.py:183-200 | LOADL with the corrected halves; its effect is stated by Semantics.LoadLEffect and Semantics.LoadLowHalves |
| Semantics.LoadH | VonNeumann/runtime.py:202-219 | LOADH with the corrected halves; its effect is stated by Semantics.LoadHEffect and Semantics.LoadHighHalves |
| Semantics.Handle | VonNeumann/runtime.py:27-47 | the dispatch table: opcode i runs the i-th handler; computed by Runtime.Interpreter.Handle |
| Semantics.Dispatch | VonNeumann/runtime.py:256-274 | fetch, decode, then skip while reading a function or handle; Semantics.SkipOne and Semantics.FEndStopsSkipping state the skipping |
| Semantics.Run | VonNeumann/runtime.py:276-281 | execute: dispatches until TERM or the fuel runs out; Semantics.RunComposes, RunStopped and RunStopsAtTerm |
| Semantics.LoadLow | VonNeumann/runtime.py:189-193 | corrected: keeps the high 16 of the 32 two's-complement bits of the cell and puts imm in the low 16 |
| Semantics.LoadHigh | VonNeumann/runtime.py:208-212 | corrected: puts imm in the high 16 bits and keeps the low 16 of the two's-complement bits |
| Semantics.Continue | VonNeumann/runtime.py:73 | a handler that returns True keeps running with its new state |
| Semantics.KeepHigh | VonNeumann/runtime.py:190-193 | the high 16 of 32 digits followed by 16 new ones read as a number |
| Semantics.KeepLow | VonNeumann/runtime.py:209-212 | 16 new digits followed by the low 16 of 32 read as a number |
| Semantics.HalvesOfWord | VonNeumann/runtime.py:190-192 | the two halves of the 32 digits are quotient and remainder by 2^16 |
| Semantics.Format32 | VonNeumann/runtime.py:190 | format(prev, "032b"): 32 digits for a non-negative cell, otherwise '-' and the digits of the magnitude (33 characters for -2^31) |
| Semantics.IntOfBits | VonNeumann/runtime.py:192 | int(s, 2) with an optional leading '-': the sign and bound of the value read |
| Semantics.Format32RoundTrip | VonNeumann/runtime.py:190-192 | int(format(x, "032b"), 2) == x for every int32 |
| Semantics.LoadLowAsWritten | VonNeumann/runtime.py:189-193 | as written: equal to LoadLow on a non-negative cell; on a negative one the sign-prefixed slice keeps 15 digits of the magnitude and negates the result |
| Semantics.LoadHighAsWritten | VonNeumann/runtime.py:208-212 | as written: equal to LoadHigh on a non-negative cell; on a negative one the low half is taken from the magnitude |
| Semantics.LoadLowAsWrittenLosesTwosComplement | VonNeumann/runtime.py:183-200 | on the cell -2^31 LOADL r, imm stores -(2^30 + imm) where the two's-complement halves give -2^31 + imm |
| Semantics.LoadHighAsWrittenLosesTwosComplement | VonNeumann/runtime.py:202-219 | on a small negative cell LOADH r, imm stores imm * 2^16 - prev, which differs from the two's-complement result |
| Semantics.WrapOfWord | VonNeumann/runtime.py:13 | an unsigned 32-bit word stored in an int32 cell is read as itself below 2^31 and less 2^32 above |
| Semantics.WrapShift | VonNeumann/runtime.py:81 | int32 addition wraps the same whatever intermediate sum is wrapped |
| Semantics.WrapLowBits | VonNeumann/runtime.py:13 | the stored int32 keeps the low 32 bits |
| Semantics.GetValueComposes | VonNeumann/runtime.py:55-58 | dereferencing j then k times is dereferencing j+k times |
| Semantics.GetValueIsCell | VonNeumann/runtime.py:55-58 | with access >= 1 get_value is the content of a cell; with 0 it is v itself |
| Semantics.AdvanceEffect | VonNeumann/runtime.py:60-61 | next_command adds one to IP and changes nothing else |
| Semantics.WriteThenEffect | VonNeumann/runtime.py:71-72 | the written cell and IP change, nothing else |
| Semantics.MovEffect | VonNeumann/runtime.py:63-73 | MOV writes the source value at the destination address, IP+1, no other cell changes |
| Semantics.AddEffect | VonNeumann/runtime.py:75-86 | ADD stores mem[dest] (the raw register) + source value at the destination address |
| Semantics.SubEffect | VonNeumann/runtime.py:88-99 | SUB stores mem[dest] - source value at the destination address |
| Semantics.AddIEffect | VonNeumann/runtime.py:221-232 | ADDI stores mem[dest] (the raw register) + imm at the destination address, IP+1 when advancing, no other cell changes |
| Semantics.SubIEffect | VonNeumann/runtime.py:234-245 | SUBI stores mem[dest] - imm at the destination address, IP+1 when advancing, no other cell changes |
| Semantics.PushEffect | VonNeumann/runtime.py:127-135 | PUSH lowers SP, then stores the operand's value in the cell SP then addresses |
| Semantics.PopEffect | VonNeumann/runtime.py:122-125 | POP raises SP by one and IP by one |
| Semantics.PushThenPop | VonNeumann/runtime.py:122-135 | PUSH then POP restores SP and moves IP on by two, unless the push overwrote IP or SP |
| Semantics.CallEffect | VonNeumann/runtime.py:137-140 | CALL pushes IP+1 and sets IP to the function's start point |
| Semantics.CallUnknownFunction | VonNeumann/runtime.py:139 | CALL of an undefined function is a KeyError |
| Semantics.IndirCallEffect | VonNeumann/runtime.py:247-251 | INDIR_CALL calls the function numbered by the operand's value |
| Semantics.FBeginEffect | VonNeumann/runtime.py:142-149 | FBEGIN records IP+1 as the start, sets the flag; raises if already set |
| Semantics.FEndEffect | VonNeumann/runtime.py:151-154 | FEND clears the flag and adds one to IP |
| Semantics.JumpEffect | VonNeumann/runtime.py:101-108 | JUMP sets IP to the operand's value |
| Semantics.JumpIfGzEffect | VonNeumann/runtime.py:110-120 | JUMP_IF_GZ adds imm to IP when the value is positive, 1 otherwise |
| Semantics.LoadLowHalves | VonNeumann/runtime.py:183-200 | the stored cell keeps its high 16 bits and has imm as its low 16 |
| Semantics.LoadHighHalves | VonNeumann/runtime.py:202-219 | the stored cell has imm as its high 16 bits and keeps its low 16 |
| Semantics.LoadRejectsWideImmediate | VonNeumann/runtime.py:185-204 | LOADL/LOADH fail their assertion on imm >= 2^16 |
| Semantics.LoadLEffect | VonNeumann/runtime.py:183-200 | LOADL changes only the destination cell and IP |
| Semantics.LoadHEffect | VonNeumann/runtime.py:202-219 | LOADH changes only the destination cell and IP |
| Semantics.SkipOne | VonNeumann/runtime.py:268-270 | while reading a function, dispatch only moves IP on |
| Semantics.IterateAdvancing | VonNeumann/runtime.py:279-280 | k steps that each only move IP on move it k places |
| Semantics.SkipFunctionBody | VonNeumann/runtime.py:266-270 | a body of k non-FEND instructions is skipped in k dispatches, nothing else changes |
| Semantics.SkipAt | VonNeumann/runtime.py:268-270 | a skipped instruction at IP only moves IP on |
| Semantics.FEndStopsSkipping | VonNeumann/runtime.py:266-270 | FEND ends the skipping |
| Semantics.RunStopsAtTerm | VonNeumann/runtime.py:253-279 | TERM stops execute whatever fuel is left and changes nothing |
| Semantics.IterateComposes | VonNeumann/runtime.py:279-280 | iterating a+b times is a times, then b more if still running |
| Semantics.RunComposes | VonNeumann/runtime.py:276-281 | running a+b dispatches is a, then b more if still running |
| Semantics.RunStopped | VonNeumann/runtime.py:276-281 | once execution stopped, more fuel changes nothing |
| Runtime.StepFollows | VonNeumann/runtime.py:256-274 | a method's outcome and new state are those of the specification |
| Runtime.Memory.constructor | VonNeumann/runtime.py:9-10 | a zeroed array of the given size |
| Runtime.Memory.WriteWord | VonNeumann/runtime.py:12-13 | writes the wrapped word as Semantics.Store says, or fails and changes nothing |
| Runtime.Memory.ReadWord | VonNeumann/runtime.py:15-16 | reads as Semantics.Read says |
| Runtime.Interpreter.constructor | VonNeumann/runtime.py:20-25 | no start points, not reading a function |
| Runtime.Interpreter.IpValue | VonNeumann/runtime.py:49-50 | reads cell IP_INDEX |
| Runtime.Interpreter.SpValue | VonNeumann/runtime.py:52-53 | reads cell SP_INDEX |
| Runtime.Interpreter.GetValue | VonNeumann/runtime.py:55-58 | the loop computes Semantics.GetValue |
| Runtime.Interpreter.NextCommand | VonNeumann/runtime.py:60-61 | the new state is Semantics.Advance |
| Runtime.Interpreter.WriteThen | VonNeumann/runtime.py:71-72 | the new state is Semantics.WriteThen |
| Runtime.Interpreter.Mov | VonNeumann/runtime.py:63-73 | the new state is Semantics.Mov |
| Runtime.Interpreter.Add | VonNeumann/runtime.py:75-86 | the new state is Semantics.Add |
| Runtime.Interpreter.Sub | VonNeumann/runtime.py:88-99 | the new state is Semantics.Sub |
| Runtime.Interpreter.AddI | VonNeumann/runtime.py:221-232 | the new state is Semantics.AddI, whose effect Semantics.AddIEffect states |
| Runtime.Interpreter.SubI | VonNeumann/runtime.py:234-245 | the new state is Semantics.SubI, whose effect Semantics.SubIEffect states |
| Runtime.Interpreter.Jump | VonNeumann/runtime.py:101-108 | the new state is Semantics.Jump |
| Runtime.Interpreter.JumpIfGz | VonNeumann/runtime.py:110-120 | the new state is Semantics.JumpIfGz |
| Runtime.Interpreter.Pop | VonNeumann/runtime.py:122-125 | the new state is Semantics.Pop |
| Runtime.Interpreter.Push | VonNeumann/runtime.py:127-135 | the new state is Semantics.Push |
| Runtime.Interpreter.Call | VonNeumann/runtime.py:137-140 | the new state is Semantics.Call |
| Runtime.Interpreter.IndirCall | VonNeumann/runtime.py:247-251 | the new state is Semantics.IndirCall |
| Runtime.Interpreter.FBegin | VonNeumann/runtime.py:142-149 | the new state is Semantics.FBegin |
| Runtime.Interpreter.FEnd | VonNeumann/runtime.py:151-154 | the new state is Semantics.FEnd |
| Runtime.Interpreter.LoadL | VonNeumann/runtime.py:183-200 | the new state is Semantics.LoadL |
| Runtime.Interpreter.LoadH | VonNeumann/runtime.py:202-219 | the new state is Semantics.LoadH |
| Runtime.Interpreter.Handle | VonNeumann/runtime.py:27-47 | the dispatch table calls the handler of the opcode, as Semantics.Handle |
| Runtime.Interpreter.Dispatch | VonNeumann/runtime.py:256-274 | fetch, decode, skip or handle, as Semantics.Dispatch |
| Runtime.Interpreter.Execute | VonNeumann/runtime.py:276-281 | the while loop over dispatch computes Semantics.Run |
| SharedStates.MakeResult | Future_Promise/async/shared_state.h:23-30 | as written: READY, counter 1, the value stored, nothing else set |
| SharedStates.MakeException | Future_Promise/async/shared_state.h:32-39 | as written: READY, counter 1, the exception stored and no result |
| SharedStates.MadeSlot | Future_Promise/async/shared_state.h:23-39 | the slot MakeReady/MakeException build for an outcome: READY at counter 1, holding it, nothing attached |
| SharedStates.ReadySlot | Future_Promise/async/shared_state.h:23-39 | corrected: READY with the outcome stored and the counter at 2 |
| SharedStates.Attach | Future_Promise/async/shared_state.h:55-66 | succeeds iff no continuation and the counter is 1 or 2; prev 1 stores, prev 2 runs f at once |
| SharedStates.Emplace | Future_Promise/async/shared_state.h:60 | stores the continuation and changes nothing else |
| SharedStates.Signal | Future_Promise/async/shared_state.h:61 | adds one to the counter and changes nothing else |
| SharedStates.SetContinuation | Future_Promise/async/shared_state.h:53-67 | the whole SetContinuation; SharedStates.SetContinuationCases states its three cases |
| SharedStates.SetContinuationCases | Future_Promise/async/shared_state.h:53-67 | counter 2: runs once, not stored; counter 1: stored, not run, counter 3; existing continuation fails |
| SharedStates.ThenOnMadeResultIsStored | Future_Promise/async/shared_state.h:23-61 | as written, a continuation on a MakeResult/MakeException slot is stored and not run |
| SharedStates.ThenOnReadySlotRuns | Future_Promise/async/shared_state.h:62-66 | on a ready slot at counter 2 the continuation runs exactly once, right away |
| SharedStates.SharedState.constructor | Future_Promise/async/shared_state.h:71-85 | INIT, counter 0, no payload, no continuation, null executor |
| SharedStates.SharedState.MakeResultAsWritten | Future_Promise/async/shared_state.h:23-30 | the new state is MakeResult(v) |
| SharedStates.SharedState.MakeExceptionAsWritten | Future_Promise/async/shared_state.h:32-39 | the new state is MakeException(e) |
| SharedStates.SharedState.MakeReady | Future_Promise/async/shared_state.h:23-39 | the new state is ReadySlot(o) |
| SharedStates.SharedState.AttachContinuation | Future_Promise/async/shared_state.h:55-66 | the first fetch_add, with the new state and outcome of Attach |
| SharedStates.SharedState.EmplaceContinuation | Future_Promise/async/shared_state.h:60 | the new state is Emplace |
| SharedStates.SharedState.SignalContinuation | Future_Promise/async/shared_state.h:61 | the new state is Signal |
| SharedStates.SharedState.SetContinuationAtOnce | Future_Promise/async/shared_state.h:53-67 | the whole of SetContinuation with no step between |
| Futures.ReadyResultOf | Future_Promise/async/future.h:121-127 | the exception is rethrown if present, only otherwise is the value returned |
| Futures.UnderLockStep | Future_Promise/async/future.h:98-119 | READY moves to DONE_WAITING and yields the payload; other states are misuse, changing nothing |
| Futures.GetStep | Future_Promise/async/future.h:48-64 | Get after the wait; Futures.FirstConsume and Futures.ConsumeAgain state its outcomes |
| Futures.TryGetStep | Future_Promise/async/future.h:67-78 | TryGet with no step between load and lock; Futures.TryGetOnInit, FirstConsume and NoDoubleCallWithoutRace |
| Futures.TryGetOnInit | Future_Promise/async/future.h:67-72 | TryGet on INIT is empty and changes nothing |
| Futures.FirstConsume | Future_Promise/async/future.h:48-114 | the first Get/TryGet on READY moves to DONE_WAITING and yields the stored outcome |
| Futures.ConsumeAgain | Future_Promise/async/future.h:59-127 | a consume on DONE_WAITING yields the same outcome again and changes nothing |
| Futures.NoDoubleCallWithoutRace | Future_Promise/async/future.h:48-78 | without a step between load and lock neither Get nor TryGet reports a double call |
| Futures.DoubleCallOnlyFromRace | Future_Promise/async/future.h:69-117 | "double call" only from a TryGet whose load saw READY and whose lock saw DONE_WAITING |
| Futures.LosingTheRace | Future_Promise/async/future.h:69-117 | two TryGets that both saw READY: the first consumes, the second reports the double call |
| Futures.ReadyAnswersAtOnce | Future_Promise/async/future.h:28-34 | a future on the MakeReady/MakeException slot (counter 1), or on the corrected ready slot, answers TryGet and Get at once with its outcome |
| Futures.Future.constructor | Future_Promise/async/future.h:94-96 | the future holds the given slot |
| Futures.Future.MakeReady | Future_Promise/async/future.h:28-30 | as written: a fresh future on SharedState::MakeResult's slot, READY at counter 1, holding the value |
| Futures.Future.MakeException | Future_Promise/async/future.h:32-34 | as written: a fresh future on SharedState::MakeException's slot, READY at counter 1, holding the exception |
| Futures.Future.MakeReadyCorrected | Future_Promise/async/future.h:28-34 | corrected: a fresh future on the ready slot with the counter at 2 |
| Futures.Future.GetReadyResult | Future_Promise/async/future.h:121-127 | returns ReadyResultOf and changes nothing |
| Futures.Future.GetUnderLock | Future_Promise/async/future.h:98-119 | outcome and new state of UnderLockStep |
| Futures.Future.Get | Future_Promise/async/future.h:48-64 | once the state has left INIT, outcome and new state of GetStep |
| Futures.Future.TryGet | Future_Promise/async/future.h:67-78 | outcome and new state of TryGetStep |
| Futures.Future.Then | Future_Promise/async/future.h:80-83 | SetContinuation on the shared slot |
| Futures.Future.GetExecutor | Future_Promise/async/future.h:85-87 | reads the shared executor |
| Futures.Future.SetExecutor | Future_Promise/async/future.h:89-91 | writes the shared executor, nothing else |
| Promises.MakeFutureStep | Future_Promise/async/promise.h:28-34 | the counter always goes up; only the call that saw 0 succeeds |
| Promises.Store | Future_Promise/async/promise.h:59-83 | succeeds iff INIT; stores exactly the outcome and moves to READY; otherwise "double call to Promise::set" |
| Promises.HandleBegin | Future_Promise/async/promise.h:85-100 | prev 1: nothing runs; prev 3: the continuation runs; prev 2: wait for counter 4; others fail |
| Promises.SetStep | Future_Promise/async/promise.h:59-100 | Set: the store, then the continuation handshake; Promises.SetOnPromised, SetTwiceFails and SetThenGet |
| Promises.Resume | Future_Promise/async/promise.h:89-92 | at counter 4 the stored continuation runs |
| Promises.Promised | Future_Promise/async/promise.h:28-32 | a fresh slot after one MakeFuture: counter 1 |
| Promises.MakeFutureOnce | Future_Promise/async/promise.h:28-34 | the first MakeFuture succeeds; every later one throws and still counts |
| Promises.SetTwiceFails | Future_Promise/async/promise.h:64-82 | a second Set throws and leaves the slot as the first made it |
| Promises.SetBeforeMakeFutureFails | Future_Promise/async/promise.h:95-98 | Set before MakeFuture fails the prev == 1 assertion |
| Promises.SetOnPromised | Future_Promise/async/promise.h:59-100 | Set on a promised slot stores the outcome, READY, counter 2, nothing runs |
| Promises.SetThenGet | Future_Promise/async/promise.h:59-83 | what Set stores is what Get returns, the first time and every time after |
| Promises.StateMovesForward | Future_Promise/async/shared_state.h:71-75 | every step keeps the state among the three and moves it only INIT→READY (Set) or READY→DONE_WAITING (consume) |
| Promises.Promise.constructor | Future_Promise/async/promise.h:15 | a promise on a fresh slot |
| Promises.Promise.MakeFuture | Future_Promise/async/promise.h:28-34 | a future on the slot iff the counter was 0; the counter goes up either way |
| Promises.Promise.HandleContinuation | Future_Promise/async/promise.h:85-100 | the new state and outcome of HandleBegin |
| Promises.Promise.AwaitContinuation | Future_Promise/async/promise.h:89-92 | the new state of Resume |
| Promises.Promise.Set | Future_Promise/async/promise.h:59-83 | the new state and outcome of SetStep; nothing changes on a double set |
| Promises.Promise.SetValue | Future_Promise/async/promise.h:38-45 | Set of the value |
| Promises.Promise.SetException | Future_Promise/async/promise.h:49-51 | Set of the exception |
| Promises.Promise.SetExecutor | Future_Promise/async/promise.h:53-55 | writes the shared executor, nothing else |
| Handshake.StartInv | Future_Promise/async/promise.h:28-34 | after MakeFuture, before Set and Then, the invariant holds |
| Handshake.ProducerStepInv | Future_Promise/async/promise.h:59-100 | a producer step keeps the invariant and does not fail |
| Handshake.AttacherStepInv | Future_Promise/async/shared_state.h:53-67 | an attacher step keeps the invariant and does not fail |
| Handshake.StepInv | Future_Promise/async/shared_state.h:53-67 | no step of either thread fails, both keep the invariant |
| Handshake.RunInv | Future_Promise/async/promise.h:85-100 | under every schedule no assertion fails and the invariant holds |
| Handshake.AtMostOnce | Future_Promise/async/promise.h:85-100 | in every reachable world the continuation ran at most once, on the READY slot holding the payload |
| Handshake.OnceWhenDone | Future_Promise/async/promise.h:85-100 | when both threads are done it ran exactly once |
| Handshake.AttacherFinishes | Future_Promise/async/shared_state.h:53-67 | the attacher finishes in three of its steps |
| Handshake.ProducerFinishes | Future_Promise/async/promise.h:85-92 | once the attacher is done, the producer finishes in two steps |
| Handshake.RunAppend | Future_Promise/async/promise.h:85-100 | running a + b is running a then b |
| Handshake.Finishes | Future_Promise/async/promise.h:85-100 | from every reachable world the finishing schedule ends both threads |
| Handshake.AtMostOnceUnder | Future_Promise/async/promise.h:85-100 | under any schedule: no failure, at most once, exactly once when done |
| Handshake.OnceAfterFinishing | Future_Promise/async/promise.h:85-100 | any schedule followed by the finishing one runs it exactly once |
| Handshake.ExactlyOnce | Future_Promise/async/shared_state.h:53-67 | after MakeFuture, every interleaving of Set and Then runs the continuation exactly once on the set outcome |
| Handshake.RunStuck | Future_Promise/async/shared_state.h:26-61 | from a counter-1 ready slot no schedule ever runs the continuation |
| Handshake.MadeResultNeverFires | Future_Promise/async/shared_state.h:23-61 | as written, a Then on MakeReady/MakeException futures never runs under any schedule |
| Handshake.ReadySlotFiresOnce | Future_Promise/async/shared_state.h:62-66 | corrected, a Then on a ready slot runs exactly once under every schedule |
| Thens.DownstreamExecutor | Future_Promise/async/then.h:38-42 | And's future carries the upstream executor at composition time |
| Thens.React | Future_Promise/async/then.h:44-70 | the callback's case split; Thens.ExceptionPassesThrough, NullExecutorRunsInline and ExecutorDefersToTask |
| Thens.RunCallback | Future_Promise/async/then.h:44-70 | the callback fulfilling downstream unless it submits a task; computed by Thens.Stage.Fire |
| Thens.RunTask | Future_Promise/async/then.h:55-59 | the submitted task: Set of cont's outcome; computed by Thens.Task.Run |
| Thens.AndStep | Future_Promise/async/then.h:38-72 | And on the upstream slot; Thens.ThenOverPromise and Thens.FailureCrossesTwoStages |
| Thens.ExceptionPassesThrough | Future_Promise/async/then.h:45-46 | an upstream exception is passed on unchanged, whatever cont is |
| Thens.NullExecutorRunsInline | Future_Promise/async/then.h:61-68 | with no executor cont runs at once and its outcome, a throw included, fulfils downstream |
| Thens.ExecutorDefersToTask | Future_Promise/async/then.h:51-60 | with an executor downstream is left unresolved and the task fulfils it with cont's outcome |
| Thens.ThenOverPromise | Future_Promise/async/then.h:38-72 | p \| Then(cont): empty before Set, cont(v) after |
| Thens.FailureCrossesTwoStages | Future_Promise/async/then.h:44-70 | an exception set on p passes through two Then stages and no transform runs |
| Thens.Task.constructor | Future_Promise/async/then.h:52-54 | captures the value, promise and transform |
| Thens.Task.Run | Future_Promise/async/then.h:55-59 | the new downstream state is RunTask: Set of cont's outcome |
| Thens.Stage.constructor | Future_Promise/async/then.h:44 | captures the promise and transform |
| Thens.Stage.Fire | Future_Promise/async/then.h:44-70 | follows RunCallback; returns a task iff the callback submits one |
| Thens.And | Future_Promise/async/then.h:13-72 | the composed future on Downstream, the upstream slot after SetContinuation, the callback fired if it ran |
| Thens.Pipe | Future_Promise/async/then.h:8-35 | the same as And |
| Launches.InlineLaunchIsReady | Future_Promise/async/async.h:36-42 | run inline, the future (counter 1, as written) answers TryGet and Get with func's outcome; a Then on it is stored, not run, and no schedule ever runs it |
| Launches.PooledLaunchWaitsForTask | Future_Promise/async/async.h:44-56 | handed to a worker, the future is empty until the task sets the executor and the outcome |
| Launches.ThenOverInlineLaunch | Future_Promise/async/async.h:36-42 | as written, Async(sync) | Then(cont) stores the callback upstream without running it, so the composed future stays empty |
| Launches.CorrectedInlineLaunchRuns | Future_Promise/async/async.h:36-42 | corrected: on the ready slot at counter 2 a Then runs the continuation once, at once |
| Launches.ThenOverCorrectedInlineLaunch | Future_Promise/async/async.h:36-42 | corrected: the composed future already holds cont of the value, or the exception |
| Launches.LaunchedSlot | Future_Promise/async/async.h:36-56 | the slot behind Async's future: MadeSlot of func's outcome when run inline, a promised slot otherwise; InlineLaunchIsReady and PooledLaunchWaitsForTask |
| Launches.TaskStep | Future_Promise/async/async.h:49-54 | the submitted task's SetExecutor then Set; Launches.PooledLaunchWaitsForTask |
| Launches.LaunchTask.constructor | Future_Promise/async/async.h:46-48 | captures the promise and the bound function |
| Launches.LaunchTask.Run | Future_Promise/async/async.h:49-54 | SetExecutor(current), then Set of func's outcome, as TaskStep |
| Launches.Async | Future_Promise/async/async.h:27-57 | Start iff async; inline iff sync or no free worker, on the counter-1 slot MakeReady/MakeException build; otherwise exactly one task on the future's promise |
| Launches.AsyncDefault | Future_Promise/async/async.h:59-64 | Async with the async policy: Start is called; run inline on the counter-1 slot iff no worker is free, otherwise one task |
| Queues.Reverse | Future_Promise/exec/queue.h:53-54 | the reversed buffer has its length |
| Queues.ReverseIndex | Future_Promise/exec/queue.h:53-54 | element i of the reversal is element len-1-i |
| Queues.ReverseInvolutive | Future_Promise/exec/queue.h:53-54 | reversing twice gives the buffer back |
| Queues.PushFrontArrivesLast | Future_Promise/exec/queue.h:20 | pushing at the front appends at the end of arrival order |
| Queues.PopBackTakesOldest | Future_Promise/exec/queue.h:47-48 | the back is the oldest element; popping it drops the head of arrival order |
| Queues.UnboundedBlockingQueue.constructor | Future_Promise/exec/queue.h:54-56 | empty and open |
| Queues.UnboundedBlockingQueue.Put | Future_Promise/exec/queue.h:15-26 | false and unchanged when closed; otherwise true and the element joins the end of arrival order |
| Queues.UnboundedBlockingQueue.Take | Future_Promise/exec/queue.h:28-34 | once non-empty or closed: the oldest element, removed, or nothing on a closed empty queue |
| Queues.UnboundedBlockingQueue.Close | Future_Promise/exec/queue.h:36-40 | sets closed, keeps the queued elements; idempotent |
| Queues.UnboundedBlockingQueue.TakeUnderLock | Future_Promise/exec/queue.h:43-50 | nothing when empty, otherwise the oldest element, removed |
| VTables.Construct | VirtualMethod/macro_inheritance.h:30-33 | a null most-derived pointer makes the vtable its own root |
| VTables.Emplace | VirtualMethod/macro_inheritance.h:42-47 | fails iff the name is already in the vtable; otherwise adds exactly that entry |
| VTables.DeclareBase | VirtualMethod/macro_inheritance.h:116-123 | BASE_CLASS_START; VTables.DeclareBaseValid |
| VTables.DeclareDerived | VirtualMethod/macro_inheritance.h:125-138 | DERIVED_CLASS_START; VTables.DeclareDerivedValid |
| VTables.DefineStatic | VirtualMethod/macro_inheritance.h:145-178 | fails to compile iff the class already has a METHOD of that name; otherwise adds exactly that (class, name) entry |
| VTables.Chain | VirtualMethod/macro_inheritance.h:76-98 | the visited vtables start at the object's and end at one without a base |
| VTables.Lookup | VirtualMethod/macro_inheritance.h:79-108 | a found vtable holds the name and lies on the chain |
| VTables.LookupIsNearest | VirtualMethod/macro_inheritance.h:76-88 | found iff some vtable on the chain holds the name, and it is the first one |
| VTables.ChainDescendsToRoot | VirtualMethod/macro_inheritance.h:116-131 | type ids decrease along the chain, which ends at the shared root |
| VTables.DynamicCast | VirtualMethod/macro_inheritance.h:49-65 | as written: identity on the same static type, otherwise allowed iff roots equal and type id >= target's |
| VTables.DynamicCastChecked | VirtualMethod/macro_inheritance.h:49-65 | corrected: allowed iff the target is the object's class or one of its bases |
| VTables.CanCast | VirtualMethod/macro_inheritance.h:60-61 | the cast test as written; VTables.SiblingsPassAsWritten |
| VTables.StaticCallable | VirtualMethod/macro_inheritance.h:67-69 | StaticMethodCallable as written; VTables.SiblingsPassAsWritten |
| VTables.StaticCallableChecked | VirtualMethod/macro_inheritance.h:67-69 | corrected: the owner is on the type's base chain; VTables.CheckedImpliesAsWritten |
| VTables.CheckedImpliesAsWritten | VirtualMethod/macro_inheritance.h:60-69 | every cast and call the corrected tests allow, the written ones allow too |
| VTables.EmptyValid | VirtualMethod/macro_inheritance.h:116-138 | the empty registry is well-formed |
| VTables.DeclareBaseValid | VirtualMethod/macro_inheritance.h:116-123 | a base class's vtable is its own root; well-formedness is kept |
| VTables.DeclareDerivedValid | VirtualMethod/macro_inheritance.h:125-138 | a derived vtable links to its base and inherits root and hierarchy tag |
| VTables.EmplaceValid | VirtualMethod/macro_inheritance.h:184-190 | registering a virtual method keeps well-formedness |
| VTables.DefineStaticValid | VirtualMethod/macro_inheritance.h:145-178 | defining a METHOD keeps well-formedness |
| VTables.EmplaceTwiceFails | VirtualMethod/macro_inheritance.h:44-45 | a second method of the same name in one vtable fails |
| VTables.VirtualCallResolves | VirtualMethod/macro_inheritance.h:73-111 | with no METHOD of that name on the static type's chain, a call runs the nearest override or fails the assertion |
| VTables.CallableOwners | VirtualMethod/macro_inheritance.h:149-178 | exactly the classes with a METHOD of the name whose specialization accepts the static type |
| VTables.Dispatch | VirtualMethod/macro_inheritance.h:73-111 | CALL_METHOD: one accepting specialization is called, two do not compile, none walks the chain; VTables.StaticCallResolves and VirtualCallResolves |
| VTables.StaticCallResolves | VirtualMethod/macro_inheritance.h:149-178 | a METHOD whose class is the only one on the static type's chain with that name runs, whatever the object's vtable holds |
| VTables.OwnersOfOne | VirtualMethod/macro_inheritance.h:149-178 | with one class on the chain holding the METHOD, it is the only callable owner |
| VTables.OwnersOfNone | VirtualMethod/macro_inheritance.h:149-178 | with no class on the chain holding the METHOD, none is callable and the chain walk decides |
| VTables.DemoValid | VirtualMethod/main.cpp:5-29 | the demo's registry is well-formed |
| VTables.DemoBuilt | VirtualMethod/main.cpp:5-29 | the demo's declarations build the listed registry |
| VTables.DemoCalls | VirtualMethod/main.cpp:31-48 | the static calls simple and only_derived on base and derived run Base's and Derived's METHOD bodies |
| VTables.DemoVirtualCalls | VirtualMethod/main.cpp:31-46 | print on base runs Base's body, on derived Derived's override |
| VTables.DemoCallsThroughBase | VirtualMethod/main.cpp:52-60 | the cast passes, print reaches Derived's body, only_derived is the run-time failure |
| VTables.TwoClassesBuilt | VirtualMethod/macro_inheritance.h:145-178 | two unrelated classes may each define a METHOD f |
| VTables.TwoClassesValid | VirtualMethod/macro_inheritance.h:116-178 | that registry is well-formed |
| VTables.SameNameInTwoClasses | VirtualMethod/macro_inheritance.h:149-178 | each static type calls its own class's METHOD f |
| VTables.ShadowedBuilt | VirtualMethod/macro_inheritance.h:145-178 | Derived may define a METHOD of the name Base already uses |
| VTables.ShadowedThroughBase | VirtualMethod/macro_inheritance.h:149-178 | through a Base pointer only Base's specialization accepts the type, so Base's body runs |
| VTables.SameNameOnChainIsAmbiguous | VirtualMethod/macro_inheritance.h:149-178 | on Derived both specializations accept the type: an ambiguous call, which does not compile |
| VTables.SiblingsValid | VirtualMethod/macro_inheritance.h:125-138 | a base with two derived classes is well-formed |
| VTables.SiblingsSpelledOut | VirtualMethod/macro_inheritance.h:116-138 | the ids and tags the macros give two siblings |
| VTables.SiblingsPassAsWritten | VirtualMethod/macro_inheritance.h:60-69 | as written a sibling passes the cast and the static-call test; the corrected ones reject it |
| VTables.Hierarchy.constructor | VirtualMethod/macro_inheritance.h:113-138 | the empty registry |
| VTables.Hierarchy.BaseClassStart | VirtualMethod/macro_inheritance.h:116-123 | the new state is DeclareBase and the new class is the last index |
| VTables.Hierarchy.DerivedClassStart | VirtualMethod/macro_inheritance.h:125-138 | the new state is DeclareDerived and the new class is the last index |
| VTables.Hierarchy.VirtualMethodEnd | VirtualMethod/macro_inheritance.h:184-190 | the new state and outcome of Emplace |
| VTables.Hierarchy.MethodEnd | VirtualMethod/macro_inheritance.h:149-178 | the new state and outcome of DefineStatic; a redefinition changes nothing |
| VTables.Hierarchy.FindMethod | VirtualMethod/macro_inheritance.h:76-108 | the loop over the base pointers finds what Lookup finds |
| VTables.Hierarchy.CallMethod | VirtualMethod/macro_inheritance.h:193-195 | returns Dispatch of the current registry, callable owners included, changing nothing |
| Linq.Select | LINQ/linq.py:12-13 | same length, element i is f(x_i) |
| Linq.SelectCompose | LINQ/linq.py:12-13 | selecting twice is selecting the composition |
| Linq.Where | LINQ/linq.py:23-24 | an element is kept iff it is in the input and satisfies p |
| Linq.WhereConcat | LINQ/linq.py:23-24 | filtering keeps order: where of a concatenation is the concatenation of wheres |
| Linq.WhereCounts | LINQ/linq.py:23-24 | every occurrence of a satisfying element is kept, none of the others |
| Linq.Take | LINQ/linq.py:26-32 | n < 0: every element; n >= 0: the first min(n, len) elements, in order |
| Linq.ConcatAppend | LINQ/linq.py:15-21 | flattening a concatenation of outer sequences concatenates the results |
| Linq.ConcatLength | LINQ/linq.py:15-21 | the flattened length is the sum of the inner lengths |
| Linq.Flatten | LINQ/linq.py:15-21 | the nested loops yield every inner element in order |
| Linq.Concat | LINQ/linq.py:15-21 | flatten; Linq.ConcatAppend and Linq.ConcatLength |
| Linq.InsertFacts | LINQ/linq.py:38-39 | inserting into a sorted sequence keeps it sorted and adds exactly x |
| Linq.InsertWithKey | LINQ/linq.py:38-39 | inserting keeps the order of elements of every key, x first among its key |
| Linq.OrderBy | LINQ/linq.py:38-39 | sorted(key=...); Linq.OrderBySorted and Linq.OrderByStable |
| Linq.OrderBySorted | LINQ/linq.py:38-39 | orderby is sorted by key and a permutation of the input |
| Linq.OrderByStable | LINQ/linq.py:38-39 | for every key the elements with it keep their input order |
| Linq.Runs | LINQ/linq.py:36 | groupby's runs; the first run starts with the first element's key |
| Linq.RunsUngroup | LINQ/linq.py:36 | the runs put back together are the sequence |
| Linq.RunsMaximal | LINQ/linq.py:36 | each run is non-empty and of one key; neighbouring runs differ in key |
| Linq.SortedRunsKeysIncrease | LINQ/linq.py:34-36 | on sorted input run keys strictly increase |
| Linq.GroupBy | LINQ/linq.py:34-36 | itertools.groupby of orderby; Linq.GroupByFacts |
| Linq.GroupByFacts | LINQ/linq.py:34-36 | the groups put back together are orderby's output; each key has exactly one group |

## Left out

- Console and file I/O: `print_`, `read` and `print_str` in runtime.py, whose opcodes make dispatch stop with an "input/output is not part of this model" error. Also left out: the `main` functions of all three VonNeumann tools (argument checks, `fromfile`, `tofile`, loading the image into memory) and all `_debug` printing. The assembler takes the lines of its input file as a parameter.
- Runtime.Interpreter.Execute: the source loops until TERM. The model runs at most `fuel` dispatches and reports whether it is still running, because Dafny requires termination.
- Numpy int32 arithmetic: each memory write keeps its value modulo 2^32 as an int32, the wrap-around of numpy 1.x. Newer numpy raises OverflowError when a Python int out of range is stored; that error is not modelled.
- Semantics.LoadL, Semantics.LoadH: the interpreter uses the corrected halves (`Semantics.LoadLow`/`LoadHigh`). The source's sign-prefixed slicing of a negative cell is modelled by `Semantics.LoadLowAsWritten`/`LoadHighAsWritten` (see Findings).
- Python's `int()` is modelled only on an optional sign followed by ASCII digits. Whitespace, underscores and non-ASCII digits are not modelled.
- Characters are Unicode scalar values, so `chr` of a surrogate code point is treated as an error (`Bin2Asm.IsCodePoint`).
- The thread pool (exec/thread_pool.*) and the executor interface (exec/executor.h) are not part of this model.
  - An executor is an opaque token and `Submit` returns the task to the caller, who stands for the worker.
  - `Launches.Async` takes `HasFreeWorkers()` as an input and reports whether `Start()` was called.
- Mutexes, condition variables, `notify_all`, the `pause` spin and atomics' memory orders: waits become preconditions (`Futures.Future.Get`, `Queues.UnboundedBlockingQueue.Take`), and the spin becomes the step `Promises.Resume`, enabled at counter 4.
  - Handshake interleaves the producer's and the attacher's atomic steps.
  - Two consumers racing is shown by `Futures.LosingTheRace`. An arbitrary number of threads is not modelled.
- `std::exception_ptr`, the continuation and the executor are opaque tokens. What a continuation does to its slot is modelled in then.dfy, not inside the slot. Move-from state of payloads and continuations is not modelled.
- function2's `unique_function`, `FixedString`, `__COUNTER__` as a preprocessor feature, `reinterpret_cast` padding and the `if constexpr` return-type dispatch are not part of this model. Type ids and tags are naturals drawn from a counter in declaration order, and method bodies are opaque numbers.
- VTables.Dispatch compares method names by their text. The source keys its maps by `const char *`, which relies on the compiler pooling equal string literals.
- VTables.Dispatch uses the corrected `StaticCallableChecked`; the as-written test is `VTables.StaticCallable`. An ambiguous specialization and a redefined METHOD are compile errors, modelled as `Err`.
- Asm2Bin.RegWithAccessLevel: reports the ValueError of a negative register index when the operand is parsed; the source raises it later, in the encoder's `int(bits, 2)`, with the same outcome for the line.
- linq.py's laziness and infinite iterables: queries are finite sequences. Keys for orderby and groupby are integers.
- Linq.GroupBy: gives each group's full contents. In the source the groupers are lazy views sharing one iterator, so a group's items come out right only if it is consumed before the next group is requested; `.groupby(k).to_list()` yields groupers that are already exhausted.
- `to_list` (linq.py:41-42) is the identity on a finite sequence and has no member of its own.
- Exceptions/ (setjmp/longjmp), VirtualMethod/main.cpp's printing, and the LINQ scripts are not part of this model. The demo's class declarations and calls are stated in `VTables.DemoCalls`.

## Findings

| source | as written | input that shows it | evidently intended | confidence | as-written member | corrected member |
|---|---|---|---|---|---|---|
| Future_Promise/async/shared_state.h:26, 35 | `MakeResult`/`MakeException` set `futures_counter` to 1, so `SetContinuation` takes the "not ready yet" branch and stores the continuation; no promise exists to run it | `Future<int>::MakeReady(3) \| Then(f)`: f is stored and never called, so the composed future never resolves | a ready-made slot has counter 2 (future made and value set), so a continuation attached to it runs at once | not executed | SharedStates.ThenOnMadeResultIsStored | SharedStates.ThenOnReadySlotRuns |
| VonNeumann/runtime.py:190-192, 209-211 | `format(prev, "032b")` of a negative cell writes '-' and the magnitude's digits, and the slices [0:16] and [16:] are taken of that text | `LOADH r, 0x8000` then `LOADL r, 1` stores -1073741825 instead of -2147483647; `LOADH r, 0` on a cell holding -1 gives 1 instead of 0xFFFF | the halves of the 32 two's-complement bits | not executed | Semantics.LoadLowAsWrittenLosesTwosComplement | Semantics.LoadLowHalves |
| VonNeumann/asm2bin.py:153-157 | `decode_reg` accepts any numeral `int()` reads whose value is non-zero and at most 13, negative ones included | `"r-1"` names register 1 (sp), `"r-2"` register 0 (ip), `"r-3"` index -1 | only r1..r13 name general registers | not executed | Asm2Bin.NegativeRegisterNumeralsAlias | Asm2Bin.DecodeRegChecked |
| VirtualMethod/macro_inheritance.h:60-61, 67-69 | the cast test and `StaticMethodCallable` compare type ids and class tags by order only | Base with derived D1 then D2: a D2 object passes `DYNAMIC_CAST` to D1, and D1's METHODs are callable on D2 | allowed only when the target or method class is the object's class or one of its bases | not executed | VTables.SiblingsPassAsWritten | VTables.CheckedImpliesAsWritten |
