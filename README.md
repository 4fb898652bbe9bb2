# vm-translator-rs in Dafny

A model of the Hack VM → Hack assembly translator `vm-translator-rs`. The
translator reads one `.vm` file line by line:

1. it strips `//` comments;
2. it parses each remaining line into a VM `Command`;
3. it passes the command to a `Babel`, which emits a fixed block of Hack
   assembly for it;
4. it closes the program with an endless loop.

The model covers:

- **Assembly** (`assembly.dfy`, module `Asm`). The instruction algebra
  (`Assembly`, `Dest`, `Comp`, `Jump`) and its text rendering. It includes
  the variants the translator uses that `assembly.rs` does not list:
  - the computations `DplusA`, `MminusD`, `DandM`, `DorM`, `NegateM`,
    `NotM` and `Dminus1`;
  - `VariableSymbol`;
  - the base-register symbols LCL, ARG, THIS, THAT and R13.
- **Front end**:
  - comment stripping (`utils.dfy`);
  - segment keywords (`segments.dfy` for `commands/segment.rs`, and
    `legacy_segment.dfy` for the older flat `segment.rs`);
  - command parsing over ASCII-whitespace tokens (`commands.dfy`);
  - the decimal text of `u32`/`i32` (`numeric.dfy`).
- **Code generator**:
  - the `Translation` buffer, a class whose `code` field the methods
    extend (`translations.dfy`);
  - the per-segment emitters: `latt.dfy`, `pointer.dfy`, `statics.dfy`,
    `temp.dfy`;
  - the `Babel` class, with its label counter and basename, plus the
    driver loop of `main.rs` without its I/O (`babel.dfy`).

  Each emitter and each `Translation` method is an imperative method. It
  is specified by a function giving the exact block it appends.
- **What the emitted code means**:
  - `bookkeeping.dfy` counts `@SP; M=M+1` and `@SP; M=M-1` pairs in every
    block;
  - `labels.dfy` proves that every label of a whole program is defined
    once, and that each comparison's labels are used exactly once;
  - `hack.dfy` is a small reference semantics of the Hack instructions
    used (A and D registers, RAM, program counter);
  - `vm.dfy` is a reference semantics of the VM commands under the
    standard VM mapping on the Hack platform;
  - `correctness.dfy` and `comparison.dfy` prove that running each
    emitted block changes the Hack memory as the VM command prescribes.

Words are the Hack machine's 16-bit cells: `Word` is the integers
0..0xFFFF, and wrap-around is written out with `ToWord`/`Offset`. The
translator's `i32`/`u32` are range-restricted integer newtypes.

## Model

| member | source | states |
|---|---|---|
| Asm.RenderDest | src/assembly.rs:88-92 | a destination's text ends in `=`, has no other `=` and no `;`; the full texts are listed by `Asm.DestRenderings` |
| Asm.DestRenderings | src/assembly.rs:78-92 | the seven destinations render as `M=`, `D=`, `A=`, `DM=`, `AM=`, `AD=`, `ADM=` |
| Asm.DestMRendersAsMEquals | src/assembly.rs:146-150 | `Dest::M` renders as `M=` |
| Asm.RenderComp | src/assembly.rs:113-124 | a computation renders as non-empty text with no `=` and no `;` |
| Asm.CompRenderings | src/assembly.rs:113-124 | Zero, Mplus1, DplusM, DminusM and Mminus1 render as `0`, `M+1`, `D+M`, `D-M`, `M-1`; A, M, D render as `A`, `M`, `D` |
| Asm.RenderJump | src/assembly.rs:135-139 | a jump's text is four characters, `;J` then two more, with no `=` and no further `;`; the full texts are listed by `Asm.JumpRenderings` |
| Asm.JumpRenderings | src/assembly.rs:126-139 | the five jumps render as `;JLE`, `;JEQ`, `;JGT`, `;JLT`, `;JMP` |
| Asm.JumpRendering | src/assembly.rs:135-139 | `JMP` renders as `;JMP`, and the command `0;JMP` renders as exactly that text |
| Asm.RenderCommand | src/assembly.rs:28-37 | a command's text starts with the dest text when a dest is present and ends with the jump text when a jump is present; an absent dest leaves no `=`, an absent jump leaves no `;` |
| Asm.RenderDestInjective | src/assembly.rs:88-92 | distinct destinations render differently |
| Asm.RenderCompInjective | src/assembly.rs:113-124 | distinct computations render differently |
| Asm.RenderJumpInjective | src/assembly.rs:135-139 | distinct jumps render differently |
| Asm.RenderCommandInjective | src/assembly.rs:28-37 | a command's text determines its dest, comp and jump: rendering commands is one-to-one |
| Asm.Render | src/assembly.rs:21-40 | every instruction has a (non-empty) line of text |
| Asm.AddressRendering | src/assembly.rs:26 | `Address(n)` renders as `@` followed by the decimal digits of n |
| Asm.ConstructorRenderings | src/assembly.rs:43-74 | `comment`, `label` and `addr_sym` wrap their argument unchanged and render as `// s`, `(s)` and `@s`; `sp()` is `AddressSymbol("SP")` and renders as `@SP`; `assign(d, c)` is a command with dest `Some(d)`, no jump, rendered as dest text then comp text |
| Asm.RenderAll | src/main.rs:36-43 | the printed program has one line per instruction, line i being instruction i's text |
| Utils.FindMarkerFrom | src/utils.rs:6 | the search finds the first `//` at or after the start position, or reports that none exists |
| Utils.RemoveComments | src/utils.rs:5-15 | the result is `None` exactly when the text before the first `//` is empty; otherwise it is a non-empty prefix of the line that contains no `//`, it is the whole line when the line has no `//`, and it is followed in the line by the first `//` |
| Utils.RemoveCommentsIdempotent | src/utils.rs:5-15 | stripping the stripped line again gives the same result |
| Utils.LeadingBlanksKept | src/utils.rs:5-15 | whitespace is not trimmed: `"  // note"` gives `Some("  ")` |
| Segments.ParseSegmentType | src/commands/segment.rs:45-60 | an accepted string is the keyword of the segment type returned; any other string gives `InvalidSegment` carrying that string |
| Segments.ParseKeyword | src/commands/segment.rs:48-58 | each of the eight keywords is accepted and gives its own segment type (`argument`/`local`/`this`/`that` give the four `LATT` types) |
| Segments.ParseSegmentTypeInjective | src/commands/segment.rs:48-58 | distinct accepted keywords give distinct segment types |
| Segments.AsAsm | src/commands/segment.rs:14-21 | `LATT::as_asm` gives a base-register symbol, never the scratch register R13 |
| Segments.AsAsmInjective | src/commands/segment.rs:14-21 | the four frame segments map to four distinct base registers |
| LegacySegment.ParseSegmentType | src/segment.rs:42-58 | an accepted string is the keyword of the flat segment type returned; any other string gives `InvalidSegment` carrying that string |
| LegacySegment.ParseKeyword | src/segment.rs:46-56 | each of the eight keywords is accepted and gives its own flat segment type |
| LegacySegment.SameKeywordsAsSegments | src/segment.rs:46-56 | the flat parser accepts exactly the strings the nested parser accepts |
| LegacySegment.AsAsm | src/segment.rs:28-39 | `as_asm` of `constant i` is `Address(i)` for a non-negative `i` and `Address(i + 2^32)` for a negative one (the `as u32` cast), and of a frame segment a base register other than R13; pointer/static/temp reach `todo!()` and are excluded |
| LegacySegment.AsAsmMatchesFrameSegments | src/segment.rs:32-36 | the flat `as_asm` of local/argument/this/that is the nested `LATT::as_asm` of the same segment |
| LegacySegment.AsAsmInjective | src/segment.rs:32-36 | distinct frame segments give distinct base registers |
| Commands.WordLength | src/commands/mod.rs:36 | a token runs up to the first ASCII whitespace character or the end of the line |
| Commands.Tokens | src/commands/mod.rs:36 | splitting on ASCII whitespace gives non-empty tokens without whitespace |
| Commands.TokensOfWord | src/commands/mod.rs:36 | a word followed by whitespace is the first token, and the rest is split on its own |
| Commands.TokensAppend | src/commands/mod.rs:36 | splitting two texts joined by any non-empty run of whitespace gives the tokens of the first followed by the tokens of the second |
| Commands.TokensOfBlank | src/commands/mod.rs:36 | leading whitespace, of any kind and length, does not change the tokens |
| Commands.TokensOfBlankOnly | src/commands/mod.rs:36 | a line of whitespace only has no tokens |
| Commands.TokensOfTrailedWord | src/commands/mod.rs:36 | a word followed by trailing whitespace is exactly one token |
| Commands.TokensOfSpacedThree | src/commands/mod.rs:36 | three words with any whitespace before, between (at least one character) and after them are exactly those three tokens |
| Commands.TokensOfSpacedLine | src/commands/mod.rs:36 | `"\tpush  local\t3 "` splits into `push`, `local`, `3` |
| Commands.Parse | src/commands/mod.rs:35-59 | `InvalidCommand` ("Not valid: " + line) exactly when there is no token or the first token is not a command keyword; `InvalidSegment` only for `push`/`pop` and carries the second token; a parsed push/pop has keyword `push`/`pop`, its segment's keyword as the second token and its index as the third token read as i32; a zero-argument command's keyword is the first token; after `push`/`pop`, `InvalidSegment` is returned exactly when the second token is not a segment keyword, and otherwise the line parses to a push (for `push`) or a pop (for `pop`) |
| Commands.ParseSameTokens | src/commands/mod.rs:35-59 | the result depends on the line only through its tokens, apart from the line echoed in `InvalidCommand`: lines with the same tokens are both parsable, both `InvalidCommand` or neither, and otherwise give the same result |
| Commands.ParseSpacingExample | src/commands/mod.rs:35-59 | `"\tpush  local\t3 "`, with a tab, a double space and a trailing space, parses to `Push(LATT(Local), 3)` |
| Commands.ParsePrint | src/commands/mod.rs:35-59 | every command, printed as `kw`, or `push S n` / `pop S n`, parses back to itself; in particular `pop constant n` is accepted |
| Commands.ParseSegmentIgnoresTrailingTokens | src/commands/mod.rs:38-47 | tokens after the index of a push/pop, separated by any whitespace, are ignored |
| Commands.ParseZeroArgIgnoresTrailingTokens | src/commands/mod.rs:48-56 | tokens after a zero-argument keyword, separated by any whitespace, are ignored |
| Commands.ParseIgnoresTrailingTokens | src/commands/mod.rs:36-58 | any command followed by whitespace and extra text parses to that command |
| Commands.ParsePushConstantExample | src/babel.rs:358-361 | `"push constant 5"` parses to `Push(Constant, 5)` |
| Commands.ParsePopLocalExample | src/babel.rs:362-365 | `"pop local 7"` parses to `Pop(LATT(Local), 7)` |
| Commands.ParseAddExample | src/babel.rs:366 | `"add"` parses to `Add` |
| Numeric.Decimal | src/assembly.rs:26 | the decimal text of a number is a non-empty run of digits, one digit long exactly for numbers below 10 |
| Numeric.ValueOfDecimal | src/assembly.rs:26 | reading the digits of `Decimal(n)` gives n back |
| Numeric.DecimalInjective | src/commands/statics.rs:7 | distinct numbers have distinct decimal texts |
| Numeric.ParseI32 | src/commands/mod.rs:40 | `parse::<i32>` succeeds only on a sign (`+` or `-`) or a digit followed by digits only, with at least one digit after a sign; a negative result needs a leading `-` |
| Numeric.ParseI32Accepts | src/commands/mod.rs:40 | no sign, `+` or `-` followed by one or more digits parses to the signed value of the digits when it lies in [-2^31, 2^31) and is an error otherwise |
| Numeric.ParseUnsignedDecimal | src/commands/mod.rs:40 | the digits of any n below 2^31 parse to n |
| Numeric.ParseNegativeDecimal | src/commands/mod.rs:40 | `-` followed by the digits of m, 1 ≤ m ≤ 2^31, parses to -m |
| Numeric.ParseSignedDecimal | src/commands/mod.rs:40 | every i32 printed in decimal parses back to itself |
| Numeric.ParseRejectsNonDigits | src/commands/mod.rs:40 | text with no digit at all is not an i32 |
| Translations.Translation.constructor | src/babel.rs:145-147 | a new translation is empty |
| Translations.Translation.Push | src/babel.rs:196-199 | appends one instruction and keeps the rest |
| Translations.Translation.CommentOn | src/babel.rs:201-203 | appends one comment holding the command's Debug text |
| Translations.Translation.WithAsm | src/babel.rs:205-211 | appends a block after the existing instructions, which stay unchanged |
| Translations.Translation.StoreSpToDreg | src/babel.rs:149-155 | appends `@SP`, `A=M`, `D=M` |
| Translations.Translation.StoreDregToSp | src/babel.rs:157-163 | appends `@SP`, `A=M`, `M=D` |
| Translations.Translation.IncrementSp | src/babel.rs:165-167 | appends `@SP`, `M=M+1` |
| Translations.Translation.DecrementSp | src/babel.rs:169-171 | appends `@SP`, `M=M-1` |
| Translations.Translation.StoreDregInReg13 | src/babel.rs:173-180 | appends `@R13`, `M=D` |
| Translations.Translation.Finish | src/babel.rs:182-194 | a new translation holding exactly the end loop |
| Translations.FinishCode | src/babel.rs:182-194 | `finish()` renders as exactly `(END)`, `@END`, `0;JMP` |
| Translations.Translation.UnaryAsm | src/babel.rs:213-230 | appends the unary block: a comment, `@SP`, `M=M-1`, `A=M`, `M=op(M)`, `@SP`, `M=M+1` |
| Translations.Translation.BinaryAsm | src/babel.rs:232-266 | appends the binary block: pop the top into D, pop the second, `D=op(D,M)`, store D at the second's slot, increment SP |
| Translations.Translation.OrdAsm | src/babel.rs:271-337 | increments the counter by one and appends the comparison block labelled with the incremented counter |
| LattSegment.PushLatt | src/latt.rs:7-19 | appends base, `D=M`, `@index`, `A=D+A`, `D=M`, `@SP`, `A=M`, `M=D`, `@SP`, `M=M+1` |
| LattSegment.PopLatt | src/latt.rs:21-38 | appends base, `D=M`, `@index`, `D=D+A`, `@R13`, `M=D`, `@SP`, `M=M-1`, `@SP`, `A=M`, `D=M`, `@R13`, `A=M`, `M=D` |
| LattSegment.LattAddressing | src/latt.rs:9-37 | push dereferences base+index (`A=D+A`, `D=M`); pop only computes base+index (`D=D+A`) and saves it in R13 before touching SP, then writes through R13 with `@R13`, `A=M`, `M=D` |
| PointerSegment.Pointee | src/pointer.rs:7-13 | index 0 selects THIS and 1 selects THAT; any other index is excluded, as it panics |
| PointerSegment.PushPointer | src/pointer.rs:6-26 | appends `@THIS`/`@THAT`, `D=M`, `@SP`, `A=M`, `M=D`, `@SP`, `M=M+1` |
| PointerSegment.PopPointer | src/pointer.rs:28-43 | appends `@SP`, `M=M-1`, `@SP`, `A=M`, `D=M`, `@THIS`/`@THAT`, `M=D` |
| PointerSegment.PointerNoScratch | src/pointer.rs:6-43 | neither block uses R13 or base+index arithmetic |
| StaticSegment.VarSymbol | src/commands/statics.rs:6-8 | the static symbol of (basename, i) is a variable written `@basename.i` |
| StaticSegment.StaticNameInjective | src/commands/statics.rs:7 | two static names coincide only for the same basename and the same index |
| StaticSegment.StaticNameExample | src/commands/statics.rs:7 | static 2 of `Foo` is `Foo.2` |
| StaticSegment.PushStatic | src/commands/statics.rs:10-15 | appends `@sym`, `D=M`, then stores at SP and increments SP |
| StaticSegment.PopStatic | src/commands/statics.rs:17-22 | appends a decrement of SP, a load of the top into D, then `@sym`, `M=D` |
| StaticSegment.StaticSingleIndirection | src/commands/statics.rs:10-22 | neither block uses R13 or base+offset arithmetic |
| TempSegment.TempAddress | src/commands/temp.rs:7 | temp slot i is absolute address 5 + i |
| TempSegment.PushTemp | src/commands/temp.rs:6-15 | appends `@(5+i)`, `D=M`, then stores at SP and increments SP |
| TempSegment.PopTemp | src/commands/temp.rs:17-25 | appends a decrement of SP, a load of the top into D, then `@(5+i)`, `M=D` |
| TempSegment.TempNoBaseRegister | src/commands/temp.rs:6-25 | no base register and no R13 occur in either block |
| Babel.Babel.Empty | src/babel.rs:19-24 | a new translator has counter 0 and the given basename |
| Babel.Babel.Translate | src/babel.rs:26-138 | the returned translation is the command's Debug comment followed by its block; the counter grows by exactly one for eq/lt/gt and is unchanged otherwise; the basename is unchanged |
| Babel.EmitSegment | src/babel.rs:29-98 | each push/pop arm appends its segment's block (pointer, constant, LATT, temp, static); `pop constant` is excluded, as it reaches `todo!()` |
| Babel.EmitArithmetic | src/babel.rs:100-135 | each arithmetic arm appends its named comment and its shared block; eq uses JEQ, lt uses JGT, gt uses JLT |
| Babel.TranslateUnit | src/main.rs:29-43 | translating a file's commands in order and then finishing gives all the blocks back to back, followed by the end loop; the counter ends at its start plus the number of comparisons |
| Bookkeeping.IncrementTally | src/babel.rs:165-167 | `increment_sp` holds one SP increment and no decrement |
| Bookkeeping.DecrementTally | src/babel.rs:169-171 | `decrement_sp` holds one SP decrement and no increment |
| Bookkeeping.LoadTally | src/babel.rs:149-155 | `store_sp_to_dreg` neither increments nor decrements SP |
| Bookkeeping.StoreTally | src/babel.rs:157-163 | `store_dreg_to_sp` neither increments nor decrements SP |
| Bookkeeping.PushTally | src/babel.rs:157-167 | a read followed by store-and-increment holds one increment and no decrement |
| Bookkeeping.PopTally | src/babel.rs:149-171 | a decrement, a load and a write hold one decrement and no increment |
| Bookkeeping.UnaryTally | src/babel.rs:213-230 | the unary block holds one increment and one decrement |
| Bookkeeping.PopOperandsTally | src/babel.rs:237-252 | popping two operands holds two decrements |
| Bookkeeping.BinaryTally | src/babel.rs:232-266 | the binary block holds one increment and two decrements |
| Bookkeeping.JoinTally | src/babel.rs:329-334 | the join of a comparison holds the single increment |
| Bookkeeping.FlagTally | src/babel.rs:290-334 | the branch part of a comparison holds one increment and no decrement |
| Bookkeeping.OrdTally | src/babel.rs:271-337 | the comparison block holds one increment and two decrements |
| Bookkeeping.PushLattTally | src/latt.rs:7-19 | `push_latt` holds one increment and no decrement |
| Bookkeeping.PopLattTally | src/latt.rs:21-38 | `pop_latt` holds one decrement and no increment |
| Bookkeeping.SegmentTally | src/babel.rs:29-98 | every push block holds one increment, every pop block one decrement, and nothing else |
| Bookkeeping.ArithmeticTally | src/babel.rs:100-135 | binary and comparison blocks hold two decrements and one increment; unary blocks one of each |
| Bookkeeping.StackBookkeeping | src/babel.rs:26-138 | for every command, increments minus decrements equals the command's net stack effect (+1 push, -1 pop and binary, 0 unary) |
| Labels.JumpLabelIndex | src/babel.rs:291 | the jump label is a counter label carrying the counter value |
| Labels.AfterLabelIndex | src/babel.rs:310 | the `AFTER` label is a counter label carrying the counter value |
| Labels.JumpLabelNotAfterLabel | src/babel.rs:291-310 | a jump label never equals an `AFTER` label, whatever the counters |
| Labels.TrueLabels | src/babel.rs:318-328 | the jump path defines only the jump label |
| Labels.JoinLabels | src/babel.rs:330-334 | the join defines only the `AFTER` label |
| Labels.FlagLabels | src/babel.rs:290-334 | the branch part defines the jump label, then the `AFTER` label |
| Labels.OrdLabels | src/babel.rs:271-337 | the comparison block defines exactly its two labels, in order |
| Labels.OrdLabelUse | src/babel.rs:271-337 | within the block, each of its two labels is defined exactly once and referenced exactly once |
| Labels.PopLattNoLabels | src/latt.rs:21-38 | `pop_latt` defines no label |
| Labels.SegmentLabels | src/babel.rs:29-98 | no push or pop block defines a label |
| Labels.UnaryNoLabels | src/babel.rs:213-230 | the unary block defines no label |
| Labels.BinaryNoLabels | src/babel.rs:232-266 | the binary block defines no label |
| Labels.ArithmeticLabels | src/babel.rs:100-135 | an arithmetic block defines the two labels numbered counter+1 for a comparison and none otherwise |
| Labels.TranslateLabels | src/babel.rs:26-138 | what `translate` emits defines the two labels numbered counter+1 for a comparison and none otherwise |
| Labels.ComparisonLabelsFresh | src/babel.rs:272 | every label of one translation carries the post-increment counter, and none repeats |
| Labels.LabelsFresh | src/babel.rs:271-337 | over any command sequence, every label carries a counter above the start value, and no label is defined twice |
| Labels.ProgramLabelsDistinct | src/babel.rs:271-337 | a whole translated program, end loop included, defines every label once |
| Correctness.ExecIncrementSp | src/babel.rs:165-167 | running `increment_sp` adds one to RAM[SP] |
| Correctness.ExecDecrementSp | src/babel.rs:169-171 | running `decrement_sp` subtracts one from RAM[SP] |
| Correctness.ExecStoreSpToDreg | src/babel.rs:149-155 | running `store_sp_to_dreg` loads the cell SP points at into D and changes no memory |
| Correctness.ExecStoreDregToSp | src/babel.rs:157-163 | running `store_dreg_to_sp` writes D to the cell SP points at |
| Correctness.ExecStoreDregInReg13 | src/babel.rs:173-180 | running `store_dreg_in_reg13` writes D to R13 |
| Correctness.ExecReadLatt | src/latt.rs:9-16 | the push_latt read leaves RAM[RAM[base] + index] in D and changes no memory |
| Correctness.ExecSlotAddress | src/latt.rs:11-14 | after base, `D=M`, `@index`, D holds the base register's value and D+A is the slot address base+index |
| Correctness.ExecPopLattAddress | src/latt.rs:24-30 | the pop_latt prefix stores the slot address base+index in R13, before SP is touched |
| Correctness.ExecWriteThroughR13 | src/latt.rs:33-37 | `@R13`, `A=M`, `M=D` writes D to the cell whose address R13 holds |
| Correctness.ExecPopLatt | src/latt.rs:21-38 | running `pop_latt` sets R13 to the slot, decrements SP and copies the old top into the slot |
| Correctness.ExecPushRead | src/babel.rs:31-93 | the read part of every push block loads the value to push into D and changes no memory |
| Correctness.PushShape | src/babel.rs:31-93 | every push block is a read followed by `store_dreg_to_sp` and `increment_sp` |
| Correctness.PushCorrect | src/babel.rs:31-93 | running any push block changes the memory as the VM push does: the segment value goes to RAM[SP] and SP grows by one |
| Correctness.PopShape | src/babel.rs:36-93 | every non-LATT pop block is `decrement_sp`, `store_sp_to_dreg`, then the target and `M=D` |
| Correctness.PopCorrect | src/babel.rs:36-93 | running a pointer, temp or static pop block changes the memory as the VM pop does |
| Correctness.PopLattCorrect | src/babel.rs:69-72 | running a local/argument/this/that pop block changes the memory as the VM pop does, except that R13 is left holding the slot address |
| Correctness.ExecPopFirst | src/babel.rs:237-243 | the first pop leaves the old top in D and SP one lower |
| Correctness.ExecPopSecond | src/babel.rs:245-252 | the second pop computes op(top, second) into D with SP two lower |
| Correctness.ExecBinaryBlock | src/babel.rs:232-266 | running the binary block writes op(second, top) to the second's slot and leaves SP one lower |
| Correctness.BinaryCompMeaning | src/babel.rs:100-135 | `D+M`, `M-D`, `D&M` and `D|M` with D the top and M the second compute add, sub (second minus top), and, or |
| Correctness.ArithmeticLayout | src/babel.rs:26-135 | with any counter and basename, a non-comparison arithmetic command translates to its Debug comment, its named comment, then the unary or binary block |
| Correctness.ExecArithmeticHead | src/babel.rs:28-101 | the two leading comments change nothing |
| Correctness.BinaryCorrect | src/babel.rs:26-135 | running everything `translate` emits for add/sub/and/or, with any counter and basename, changes the memory as the VM command does |
| Correctness.ExecUnaryBlock | src/babel.rs:213-230 | running the unary block replaces the top with op(top) and leaves SP unchanged |
| Correctness.UnaryCompMeaning | src/babel.rs:120-127 | `-M` and `!M` on the top compute neg and not |
| Correctness.UnaryCorrect | src/babel.rs:26-127 | running everything `translate` emits for neg/not, with any counter and basename, changes the memory as the VM command does |
| Comparison.OrdLayout | src/babel.rs:271-337 | the comparison block is 26 instructions: the pops into `D=D-M`, the jump on the condition, the false path, `0;JMP`, the jump label, the true path and the `AFTER` join |
| Comparison.BranchDifference | src/babel.rs:279-289 | the value the jump examines is top minus second, as a 16-bit word |
| Comparison.SubtractMeaning | src/babel.rs:288-289 | `D=D-M` subtracts the second element from D |
| Comparison.ExecToBranch | src/babel.rs:274-291 | running up to the conditional jump pops both operands, puts top minus second in D and the jump label's address in A |
| Comparison.ExecWriteFlag | src/babel.rs:300-308 | `@0`, `D=A`, `@SP`, `A=M`, `M=c` writes the value of c with D=0 to the cell SP points at |
| Comparison.ExecFalsePath | src/babel.rs:300-310 | the fall-through path writes 0 (false) to the stack cell and addresses the `AFTER` label |
| Comparison.ExecTruePath | src/babel.rs:318-334 | the jump path writes D-1 with D=0, i.e. -1 (true), to the stack cell and increments SP |
| Comparison.ExecJoin | src/babel.rs:329-334 | the join increments SP |
| Comparison.RunToBranch | src/babel.rs:274-291 | executing the block reaches the conditional jump after nine steps, with the operands popped |
| Comparison.RunBranch | src/babel.rs:293-297 | the jump goes to the jump label when the condition holds, and falls through otherwise |
| Comparison.RunTaken | src/babel.rs:318-334 | from the jump label, the run writes true and reaches the block's end after nine steps |
| Comparison.RunFalseWrite | src/babel.rs:300-316 | from the fall-through, the run writes false and reaches `0;JMP` |
| Comparison.RunFalseJoin | src/babel.rs:312-334 | `0;JMP` goes to the `AFTER` label, which increments SP and reaches the block's end |
| Comparison.RunNotTaken | src/babel.rs:300-334 | on the fall-through path, the run writes false and reaches the block's end after ten steps |
| Comparison.OrdRunTaken | src/babel.rs:271-337 | when the condition holds, the block runs to its end in 19 steps, leaving true in the second's slot and SP one lower |
| Comparison.OrdRunNotTaken | src/babel.rs:271-337 | when it fails, the block runs to its end in 20 steps, leaving false in the second's slot and SP one lower |
| Comparison.OrdRun | src/babel.rs:271-337 | either way, the block runs to its end with the flag of the condition on top minus second |
| Comparison.ComparisonJumpMeaning | src/babel.rs:108-119 | when the subtraction does not overflow, JEQ/JGT/JLT on top minus second decide exactly second = top, second < top and second > top |
| Comparison.LessThanOverflow | src/babel.rs:112-115 | with second = -32768 and top = 1, `lt` holds but JGT on the wrapped difference does not |
| Comparison.ComparisonLayout | src/babel.rs:108-119 | a comparison translates to its Debug comment, its named comment and the comparison block numbered counter+1 |
| Comparison.ComparisonVerdict | src/babel.rs:279-289 | for `eq`, and for `lt`/`gt` when top − second does not overflow 16 bits, the jump is taken exactly when the VM comparison holds, and the resulting memory is the VM step's |
| Comparison.CommentedComparison | src/babel.rs:108-119 | a comparison's translation, wherever it is placed in a program, runs from its first instruction to its end and leaves the memory the VM eq/lt/gt prescribes |
| Comparison.ComparisonCorrect | src/babel.rs:108-119 | running what `translate` emits for eq/lt/gt leaves the memory the VM command prescribes: SP one lower, and the second's slot holding -1 if the comparison holds and 0 otherwise |

## Left out

- The file handling of `src/main.rs` is not modelled: opening the file, `env::args`, the `BufReader` line loop, `println!` and the `eyre` error plumbing. `Babel.TranslateUnit` takes the parsed commands as a sequence, and `Asm.RenderAll` gives the printed lines.
- Comment text is spelled out (`Commands.DebugText` and `Commands.SegmentDebugText` give the derived `Debug` text of a command), but nothing is proved about it beyond its being the text of a comment, which executes as a no-op.
- `VariableSymbol` and the base-register helpers (`local`, `argument`, `this`, `that`, `reg13`) are not defined in `assembly.rs`. They are modelled as distinct symbols. Their rendering is taken to be `@` followed by the name; nothing else depends on it.
- Computations that `assembly.rs` does not list render as their Debug names, following `Display for Comp`'s fallback arm.
- Babel.Babel.Translate: the counter is an unbounded natural, so the wrap-around of `usize` after 2^64 comparisons is not modelled.
- Translations.Translation.OrdAsm: same as above; `*counter += 1` never overflows in the model.
- Babel.Babel.Translate: negative indices are excluded by its precondition. The source casts them with `as u32`, wrapping to large addresses; that wrap is not modelled.
- Babel.Babel.Translate: `pop constant` is excluded by its precondition, since the source reaches `todo!()`. So is a pointer index other than 0 and 1, where the source panics.
- Commands.Parse: a `push`/`pop` line without a segment token, without an index token, or with an index that is not an i32 panics through `unwrap` in the source. It is excluded by the precondition `Parsable`.
- TempSegment.TempAddress: requires i ≤ 2^32 − 6, because `5 + index` overflows `u32` beyond that. Indices above 7 are not range-checked, as in the source.
- LegacySegment.AsAsm: pointer, static and temp reach `todo!()` and are excluded by its precondition.
- Comparison.ComparisonCorrect: proved only when top − second does not overflow 16 bits (or for `eq`, which is always exact). `lt`/`gt` test the sign of a wrapped difference; `Comparison.LessThanOverflow` shows a pair of operands where this gives the wrong answer. This is the usual Hack behaviour, not a change of the source.
- Comparison.CommentedComparison: same restriction as `Comparison.ComparisonCorrect`.
- Comparison.ComparisonVerdict: same restriction, stated by its precondition `NoOverflow` for `lt` and `gt`.
- Asm.RenderDest: its own contract fixes only the trailing `=` and the absent `;`; the exact text of each destination is stated separately by `Asm.DestRenderings`.
- Asm.RenderJump: its own contract fixes only the length and the leading `;J`; the exact text of each jump is stated separately by `Asm.JumpRenderings`.
- Correctness.PopLattCorrect: the memory after a local/argument/this/that pop also has R13 holding the slot address, which the VM step does not mention. The contract states this difference rather than hiding it.
- Stack commands are proved correct for a stack pointer above the sixteen virtual registers (`StackReady`). A stack that overlaps SP or R13 is not considered.
- In the Hack semantics, labels and comments occupy a program slot and execute as no-ops. Label addresses come from the symbol table (`LabelsResolved`) rather than from an assembler pass; assembling is not part of this model.
- The semantic proofs are about the Hack memory after each block. They do not compose into a theorem over a whole program run.
