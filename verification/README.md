# SETVM and its assembler, modelled and proved in Dafny

The project models the two halves of the repository and the way they fit together.

- **The machine** (`src/vm/set.c`): sixteen wrapping 32-bit registers, a byte stack with its own counter,
  a fixed array of call frames, and literal and register jumps. `Semantics` gives one instruction as a
  function on values, split into what it does to data (`DataStep`), where control goes (`Control`) and
  what happens to the frames (`Move`); `Exec` is exactly n steps of the fetch loop. `SetVm.Machine` is
  the same machine as a class that updates its arrays and counters in place, proved to take these steps.
  The C code checks no index, divides without looking and asserts on `entry`; where it would leave its
  defined behaviour the model faults, so every theorem about runs also says when a run cannot fault.
- **The assembler** (`src/tokenizer.c`, `src/assembler/`): the lexer, `parse_reg`, `find_label`,
  `assemble_line` and the two passes, each as a method with the loops of the source over the same token
  buffer, proved against a function. `SourceLanguage` is the integer fragment of the assembly language
  with a meaning of its own, in which jumps go to label names and not to addresses.

Main results:

1. Assembling preserves meaning: take a text whose lines, without what stands behind a label on its line,
   express a source. It is accepted exactly when the labels that its terminated lines name are declared
   there, and then runs, step for step, as those lines (`Caasm.TextAcceptedIffDeclared`,
   `Caasm.TextPreservesMeaning`). All lines are terminated when the text is empty or ends in a line end
   (`Caasm.EndedTextHasNoTail`).
2. What gets lost is known exactly. The two passes keep every label and every instruction of an accepted
   text exactly when its lines are clean, its labels stand alone on their lines and nothing follows the
   last line end (`PassTheorems.PassesFaithfulIffClean`, `Caasm.TextKeptIff`). For any text of labels,
   instructions with numeric targets, blanks and comments, clean or not, the label table and the program
   are given (`SourceText.RowsAssemble`); the recursive example of the repository loses its second `rec` and returns
   5 all the same (`Example.ExampleAssembles`, `Example.ExampleReturnsFive`).
3. The definitions underneath are stated in their own terms: which characters are words and signs
   (`Alphabet`), what every keyword with its operands assembles to, as literal text (`Mnemonics`), what every
   instruction does to registers, bytes and frames (`StepLaws`), and what the disassembler prints, character
   for character (`ListingText`).
4. For every canonical program it is known what assembling its printed text gives
   (`Disassembler.PrintedProgramAssembles`). Without decoration the program comes back, exactly when a line
   end follows or it is empty or ends in `ret` (`Disassembler.PlainRoundTrip`); the disassembler's own
   text, closed by a line end, comes back exactly when all operands are zero and there is no `nejmp` and
   no `regdump` (`Disassembler.ListingComesBackIffZero`).
5. Calls and returns match in every run of every program, the frame array is a list of return addresses,
   and REC can be erased (`CallFrames`).
6. A program of n instructions without backward jumps runs for at most 2^n - 1 steps, some program does
   run that long, and its call depth is at most n (`Termination`).
7. The stack counter is conserved, accesses stay inside exactly when the push/pop balance does, and over
   every such run the byte stack is a list of words to which PUSH appends and from which POP takes the last
   (`Stack.StackIsList`, `Stack.PopReturnsLast`).
8. The native test programs do what their list says for all constants: `simple_loop` stops exactly when
   a divisibility condition holds, the recursion returns its bound N in 10 N + 2 steps or runs out of
   frames, and the whole list passes from any registers and stack (`LoopTest`, `NativeTests`, `Tester`).

To verify the project: `dafny verify dfyconfig.toml`.

## Where the code and its description differ

- `ejmp` and `nejmp` fill argument slots 0 and 1 (`src/vm/set.h:593-605`) and the machine compares slots
  1 and 2, so they compare the registers they name exactly when the first is r0
  (`Simulation.BranchAsNamedIffFirstIsR0`). Sources with another first register are not in the fragment
  of result 1.
- Both passes leave a colon in the token buffer after a label line (the reset loop at
  `src/assembler/basic_assembler.c:659` runs zero times). A one-token line behind it is dropped by the
  second pass and merged with its successor by the first. `PassTheorems.Clean` is the condition under
  which this never happens.
- Both passes drop a whole line once its second token is a colon (`src/assembler/basic_assembler.c:638-657`,
  `:715-719`), so an instruction behind a label on its line is lost without a message
  (`PassTheorems.BehindLabelsIsLost`, `SourceText.InstructionBehindLabelIsLost`).
- Both passes assemble a line only at its line end, and nothing does so at the end of the text. A last line
  without a line end is lost, whether it is an instruction or a label (`PassTheorems.AllLines` is what a
  reader sees, `PassTheorems.Tail` what is lost, `Caasm.TextKeptIffEnded`). The disassembler prints the line
  end in front of an instruction and only `ret` has one behind, so its text loses its last instruction
  unless that is a `ret`.
- A semicolon is a line end like a newline, inside a comment too: what follows it on the same line of the
  file is assembled (`SourceText.SemicolonEndsComment`).
- A character the lexer does not know, a carriage return among them, is a token of its own. It counts as a
  word of its line, and a line with too many words has its operands zeroed.
- `dload`, `fload`, `dsave`, `fsave` and `rjmp` have no entry in `get_instuction_count`, so they take no
  operands: written with some, they assemble with zeros (`Mnemonics.TABLE`, `Mnemonics.WrongCountText`).
  `fadd` stands in the keyword list with a space behind it and is never recognised
  (`Mnemonics.FaddIsNoKeyword`).
- `getac`, `rjmp`, `erjmp`, `nerjmp`, `nop` and `entry` do not assemble to their own opcodes
  (`RoundTrip.KeywordKeepsOpcodeIff`).
- The text `print_instruction_asm` prints has `@`, `$`, commas and parentheses, which the assembler counts
  as words; it then zeroes the operands. It prints `nejump` and `reg_dump#debug`, which are no keywords and
  abort the assembler (`Disassembler.ListingComesBackIffZero`). The round trip that keeps operands prints
  the keyword names and the operand order without decoration.
- `inc_dec` alone returns two more than it finds in r0, so its listed result rests on `and_or` leaving 0
  there (`NativeTests.IncDecAddsTwo`, `Tester.TestReturnsAsListed`).

## Files

| file | contents |
|---|---|
| Words.dfy | 32- and 64-bit numbers, little-endian words |
| Semantics.dfy | opcodes, state, one step, runs |
| SetVm.dfy | the machine as an object |
| StepLaws.dfy | what every instruction does |
| RegisterJumps.dfy | register jumps against literal jumps |
| CallFrames.dfy | calls, returns, REC |
| Termination.dfy | forward programs |
| Stack.dfy | the byte stack over runs |
| NativePrograms.dfy, NativeTests.dfy, LoopTest.dfy, Tester.dfy | the native tests |
| Tokenizer.dfy, Alphabet.dfy | the lexer |
| Keywords.dfy, Assembler.dfy, Passes.dfy, PassTheorems.dfy | the assembler and its passes |
| SourceLanguage.dfy, Simulation.dfy, Meaning.dfy, Caasm.dfy | meaning of sources, preserved by assembling |
| RoundTrip.dfy, PrintedText.dfy, Disassembler.dfy, ListingText.dfy | printing and assembling again |
| Mnemonics.dfy | every line of assembly as text |
| SourceText.dfy, Example.dfy | source text line by line, the recursive example |

## Model

| member | source | states |
|---|---|---|
| Words.DecodeEncode | src/vm/set.c:52-62 | every 32-bit value pushed as four bytes is the value popped from them |
| Words.EncodeDecode | src/vm/set.c:64-74 | every four bytes of memory are the layout of the word they load as |
| SetVm.SaveDecimal | src/vm/set.c:71-74 | four bytes at the address become the word, all others stay; out of bounds faults and writes nothing |
| SetVm.LoadDecimal | src/vm/set.c:64-69 | the word at the address, or a fault outside the memory |
| SetVm.Machine.constructor | src/vm/set.c:20-35 | a fresh machine keeps the shared registers and stack bytes, clears its frames and starts at 0 |
| SetVm.Machine.PushDecimal | src/vm/set.c:52-54 | the counter moves by 4 modulo 2^64 before the word is stored there |
| SetVm.Machine.PopDecimal | src/vm/set.c:56-62 | the word at the counter goes to the register, then the counter moves back by 4 modulo 2^64 |
| SetVm.Machine.WriteBytes | src/vm/set.c:343-355 | PRINT hands r2 stack bytes from r1 to stream r0; writing nothing trips the assert |
| SetVm.Machine.RecordFrame | src/vm/set.c:88-92 | writes only the slot above the live frames and leaves the counter |
| SetVm.Machine.CallFrame | src/vm/set.c:94-106 | stores the pc in the slot above the live frames, then jumps and counts the frame |
| SetVm.Machine.LeaveFrame | src/vm/set.c:368-394 | resumes one before the stored pointer, clears the slot and drops the frame, or stops at the root |
| SetVm.Machine.ExecuteData | src/vm/set.c:123-308 | the object's registers, stack, accumulator and output change as DataStep says, faults included |
| SetVm.Machine.ExecuteJump | src/vm/set.c:312-341 | the pc goes where Control says, for literal and register jumps |
| SetVm.Machine.ExecuteControl | src/vm/set.c:129-156 | pc, frames and running flag change as Control and Move say |
| SetVm.Machine.ExecuteOp | src/vm/set.c:108-404 | one fetched and executed instruction is one Step of the object's value, fault for fault |
| SetVm.Machine.ExecuteProgram | src/vm/set.c:413-423 | the loop ends in the halted state its run reaches, or at the first fault of that run |
| StepLaws.SumLaw | src/vm/set.c:170-172 | ADD gives the sum of slots 1 and 2 modulo 2^32 and changes nothing else |
| StepLaws.DifferenceLaw | src/vm/set.c:174-176 | SUB gives what added to slot 2 makes slot 1, modulo 2^32 |
| StepLaws.ProductLaw | src/vm/set.c:178-180 | MUL gives the product modulo 2^32 |
| StepLaws.QuotientLaw | src/vm/set.c:182-184 | DIV is division with remainder, and faults exactly on zero |
| StepLaws.AnswerLaw | src/vm/set.c:226-285 | comparisons and logic answer 1 or 0 as the unsigned operands are |
| StepLaws.SubUndoesAdd | src/vm/set.c:170-176 | ADD and SUB of one register, run one after the other, change nothing but the pc |
| StepLaws.MulIsRepeatedAdd | src/vm/set.c:170-180 | MUL is what a run of as many ADDs to zero gives |
| StepLaws.SetLaw | src/vm/set.c:222-224 | SET loads the storage modulo 2^32 |
| StepLaws.CountLaw | src/vm/set.c:162-168 | INC and DEC count by one modulo 2^32 |
| StepLaws.CopyLaw | src/vm/set.c:240-246 | CU2I and CI2U copy slot 1 |
| StepLaws.GetacLaw | src/vm/set.c:158-160 | GETAC fetches the accumulator |
| StepLaws.DloadLaw | src/vm/set.c:202-204 | DLOAD reads four bytes, the lowest first, at the address in slot 1 |
| StepLaws.DsaveLaw | src/vm/set.c:210-212 | DSAVE stores slot 0 there and no other byte |
| StepLaws.PushLaw | src/vm/set.c:52-54 | PUSH moves the counter by four on 64 bits and stores its register there |
| StepLaws.PopLaw | src/vm/set.c:56-62 | POP reads at the counter and moves it back |
| StepLaws.PrintLaw | src/vm/set.c:343-355 | PRINT hands one output to stream r0, the r2 bytes of the stack from r1 on |
| StepLaws.JumpLaw | src/vm/set.c:312-324 | literal jumps: unsigned target, slots 1 and 2 compared |
| StepLaws.RegisterJumpLaw | src/vm/set.c:329-341 | register jumps go to the address in slot 0 |
| StepLaws.PlainLaw | src/vm/set.c:125-131 | HALT stops, NOP and REG_DUMP do nothing, ENTRY traps |
| StepLaws.RecLaw | src/vm/set.c:88-92 | REC stores the low 32 bits of the stack counter as base pointer above the live frames |
| StepLaws.CallLaw | src/vm/set.c:94-106 | CALL stores where to resume and the stack counter, counts the frame and jumps |
| StepLaws.RetLaw | src/vm/set.c:368-394 | RET saves its register, resumes one before the stored pointer, clears the slot, or stops at the root |
| StepLaws.OutsideFileFaults | src/vm/set.c:108-404 | an index outside the sixteen registers is a fault |
| StepLaws.InFileIsNoBadRegister | src/vm/set.c:108-404 | and only such an index is reported as one |
| RegisterJumps.RegisterJumpsAreLiteralJumps | src/vm/set.c:312-341 | while every jump through a register finds the address in it, runs equal those with literal jumps to the address |
| RegisterJumps.UnwrittenRegisterJumps | src/vm/set.c:312-341 | that is every run of a program that never writes the register |
| CallFrames.StepFrames | src/vm/set.c:88-106 | a step opens a frame above the live ones, closes the last one to its return address, or leaves all alone |
| CallFrames.SegmentKeepsFrames | src/vm/set.c:94-106 | while more than n frames are live, slots 0 to n keep their contents |
| CallFrames.CallReturnMatch | src/vm/set.c:368-382 | the first return to the depth of a CALL at a is by RET, to a + 1, with the accumulator set and the lower frames untouched |
| CallFrames.StepRefines | src/vm/set.c:88-106 | a step with the frame array is a step with a list of return addresses, faults included |
| CallFrames.ExecRefines | src/vm/set.c:413-423 | so are whole runs, up to a REC with all frames in use |
| CallFrames.EraseStep | src/vm/set.c:141-143 | a step of a program and of the program without RECs keep the live state equal |
| CallFrames.RecErasable | src/vm/set.c:141-156 | replacing REC by NOP gives the same runs, stops and faults as long as no REC meets a full frame array, and there the original faults |
| Termination.ForwardStep | src/vm/set.c:312-324 | every step uses up budget and keeps the return addresses ascending |
| Termination.ForwardTerminates | src/vm/set.c:413-423 | a forward program of n instructions ends within 2^n - 1 steps |
| Termination.ForwardDepth | src/vm/set.c:94-106 | return addresses ascend, depth is at most n and at most the pc, and n frames are enough |
| Termination.LadderRuns | src/vm/set.c:368-394 | the ladder of calls takes 2^(n-i) - 1 steps from rung i |
| Termination.BoundIsTight | src/vm/set.c:145-156 | for every n some forward program runs exactly 2^n - 1 steps |
| Stack.Conservation | src/vm/set.c:52-62 | the stack counter is 4 (pushes - pops) modulo 2^64, the frame counter is calls - returns |
| Stack.InsideIffBalanced | src/vm/set.c:133-139 | accesses stay inside without underflow exactly when every prefix balance lies in 0..STACK_SIZE/4 - 1 |
| Stack.InsideDoesNotFault | src/vm/set.c:133-139 | inside the stack push and pop do not fault and the counter does not wrap |
| Stack.SaveLoad | src/vm/set.c:64-74 | an aligned save changes exactly its own word |
| Stack.BytesRefineWords | src/vm/set.c:52-74 | over a run every word of the byte stack is the latest value stored in it |
| Stack.AlignedIffSavesAligned | src/vm/set.c:52-74 | from a fresh machine all stores are aligned exactly when the saves are |
| Stack.FreshPopReadsLatestStore | src/vm/set.c:137-139 | so POP returns the latest store to the top word when saves are aligned |
| Stack.PopReadsLatestStore | src/vm/set.c:137-139 | POP returns the latest PUSH or DSAVE to the top word |
| Stack.LoadReadsLatestStore | src/vm/set.c:202-204 | an aligned DLOAD returns the latest value stored in its word |
| Stack.WordKept | src/vm/set.c:52-62 | a word below the counter and not overlapped by a save keeps its bytes |
| Stack.PushPopMatch | src/vm/set.c:52-62 | the POP matching a PUSH returns the pushed value, whatever ran in between |
| Stack.PushAppends | src/vm/set.c:52-54 | inside the stack PUSH appends its register to the words up to the counter |
| Stack.PopDropsLast | src/vm/set.c:56-62 | inside the stack POP takes the last of these words into its register |
| Stack.OthersKeepWords | src/vm/set.c:71-74 | other instructions leave the words alone, DSAVE if it touches none of their bytes |
| Stack.StackIsList | src/vm/set.c:52-62 | over runs with the balance in range and no DSAVE into a word in use, the words are the list the pushes and pops make |
| Stack.PopReturnsLast | src/vm/set.c:137-139 | the next POP returns the last of that list |
| NativeTests.AndOrReturnsZero | src/testing/test_list.c:21-31 | and_or dumps 1, returns 0 in 7 steps and leaves 0 in r0 |
| NativeTests.IncDecAddsTwo | src/testing/test_list.c:33-43 | inc_dec counts to r0 + 4 and returns r0 + 2, modulo 2^32 |
| NativeTests.PrintWritesWord | src/testing/test_list.c:45-57 | with any address in the stack and any word it writes the bytes of the word, lowest first, to stream 1 |
| NativeTests.PrintWritesLol | src/testing/test_list.c:45-57 | print writes "lol" and a line end to stream 1 and returns 0 |
| NativeTests.FunctionCallAdds | src/testing/test_list.c:60-76 | with any two constants it passes them in order on the stack and returns their 32-bit sum in 12 steps, counters restored |
| NativeTests.RecursionFinishes | src/testing/test_list.c:78-116 | the same program with its second REC or without returns N, peak depth N |
| NativeTests.RecursionReturnsBound | src/testing/test_list.c:78-116 | with any bound N up to FRAME_COUNT it returns N in 10 N + 2 steps, peak depth N, counters restored |
| NativeTests.RecursionOverflows | src/testing/test_list.c:78-116 | with any other bound it runs out of frames |
| LoopTest.Rounds | src/testing/test_list.c:7-18 | k rounds lead back to the loop head with k steps added |
| LoopTest.LoopReturnsLimit | src/testing/test_list.c:7-18 | it returns the limit after 4 k + 4 steps, k the first round that meets it |
| LoopTest.LoopForever | src/testing/test_list.c:7-18 | it runs forever when no round meets the limit |
| LoopTest.LimitIsMet | src/testing/test_list.c:7-18 | some round meets the limit exactly when the power of two in the step divides limit - start |
| LoopTest.LoopHaltsExactly | src/testing/test_list.c:7-18 | it halts exactly under that condition, and then returns the limit |
| Tester.TestReturnsAsListed | src/testing/test_list.c:130-139 | every integer test returns its listed value from any registers and stack, inc_dec given r0 = 0 |
| Tester.RunSetProgram | src/testing/tester.c:4-24 | runs a fresh machine over the shared arrays and reports its accumulator |
| Tester.RunNativeTests | src/testing/tester.c:26-66 | in list order all integer tests pass |
| Tokenizer.ReadWord | src/tokenizer.c:137-151 | the read_word loop reads the whole run of letters and digits |
| Tokenizer.ReadNumber | src/tokenizer.c:153-167 | the number loop reads the whole run of digits |
| Tokenizer.TokenNext | src/tokenizer.c:89-248 | one token at the position and the position behind it, or the end of the buffer |
| Tokenizer.Tokenize | src/assembler/basic_assembler.c:802-809 | collects every token of the text but the spaces |
| Tokenizer.PiecesTile | src/tokenizer.c:244-247 | the consumed ranges are non-empty, consecutive and cover the text |
| Tokenizer.LexCollectsPieces | src/assembler/basic_assembler.c:802-809 | the collected tokens are those of the ranges |
| Tokenizer.RunsAreMaximal | src/tokenizer.c:129-167 | words and numbers are maximal runs of their class |
| Tokenizer.FirstOfText | src/tokenizer.c:170-245 | a rendered token is read back exactly when the next character does not glue to it |
| Tokenizer.LexOfLayout | src/tokenizer.c:89-248 | lexing is independent of layout |
| Tokenizer.RelexIsFixedPoint | src/tokenizer.c:89-248 | tokens joined by single spaces lex to themselves |
| Alphabet.NameIsWord | src/tokenizer.c:129-151 | a letter A to Z or a to z followed by letters and digits is one word |
| Alphabet.DigitsAreNumber | src/tokenizer.c:153-167 | digits are one number |
| Alphabet.BlankIsSkipped | src/tokenizer.c:58-60 | spaces and tabs leave nothing |
| Alphabet.SignLaw | src/tokenizer.c:170-228 | which sign is which token |
| Alphabet.DoubleSignLaw | src/tokenizer.c:177-202 | ++, -- and == are one token each |
| Alphabet.OtherIsNull | src/tokenizer.c:227-245 | every other character is a token without meaning, one character wide |
| Keywords.NamesDiffer | src/assembler/basic_assembler.c:24-50 | no two opcodes share a keyword |
| Keywords.KeywordsDiffer | src/assembler/basic_assembler.c:24-50 | the 51 words of the list are all different |
| Keywords.IsKeyword | src/assembler/basic_assembler.c:70-75 | the position of the word in the literal list, or -1 when it is not there |
| Assembler.IsDecimalText | src/assembler/basic_assembler.c:77-82 | whether a text is all digits and minus signs |
| Assembler.DecimalValue | src/assembler/basic_assembler.c:91-93 | the value atoi gives: blanks, a sign and digits |
| Assembler.ParseRegText | src/assembler/basic_assembler.c:99-166 | the register, value or label reference a word denotes, or the failed assert |
| Assembler.FindLabel | src/assembler/basic_assembler.c:488-502 | the address Lookup gives |
| Assembler.LookupFindsEarliest | src/assembler/basic_assembler.c:496-501 | that is the earliest label of the name, and none only if there is none |
| Assembler.AssembleLineTokens | src/assembler/basic_assembler.c:504-596 | the operand loop builds the instruction of AssembleLine, or aborts as it does |
| Passes.IndexLabels | src/assembler/basic_assembler.c:599-664 | over its uncleared token buffer, the label table and count of the fold over tokens |
| Passes.AssembleProgram | src/assembler/basic_assembler.c:666-734 | over its partly cleared token buffer, the program or abort of the fold over tokens |
| Passes.ClearTokens | src/assembler/basic_assembler.c:726-727 | resets the tokens of the line and no others |
| PassTheorems.ShortLinesFit | src/assembler/basic_assembler.c:606-607 | lines of at most 31 tokens fit the token buffer of both passes |
| PassTheorems.IndexStrayColon | src/assembler/basic_assembler.c:638-657 | a colon behind something that is no word is neither a label nor counted |
| PassTheorems.CommentsAndBlanksInvisible | src/assembler/basic_assembler.c:610-662 | comments and blank lines change neither labels nor program nor abort, on any list |
| PassTheorems.PassesSeeLines | src/assembler/basic_assembler.c:681-730 | both passes depend only on the terminated lines without comments |
| PassTheorems.EmittedCount | src/assembler/basic_assembler.c:712-728 | pass 2 emits at most one instruction per instruction line, and all of them exactly on clean lists |
| PassTheorems.IndexedCount | src/assembler/basic_assembler.c:635-660 | pass 1 sees at most every line, and all of them exactly on clean lists |
| PassTheorems.IndexedTable | src/assembler/basic_assembler.c:635-660 | on a clean list it records exactly the declared labels at their addresses |
| PassTheorems.BehindLabelsIsLost | src/assembler/basic_assembler.c:638-657 | with any list both passes do what they do with its lines cut off behind their labels |
| PassTheorems.HeldCount | src/assembler/basic_assembler.c:712-719 | the instructions on lines of their own are all that a reader sees exactly when labels stand alone |
| PassTheorems.PassesFaithfulIffClean | src/assembler/basic_assembler.c:599-734 | pass 1 is faithful to all a reader sees exactly when the terminated lines are clean, labels stand alone and nothing follows the last line end; pass 2 emits all instructions exactly when the lines are clean, labels stand alone and no instruction follows |
| PassTheorems.LookupDeclared | src/assembler/basic_assembler.c:488-502 | a name resolves to the instruction lines before its first declaration |
| PassTheorems.PassesAgree | src/assembler/basic_assembler.c:599-734 | on the terminated lines of clean lists a label's address is the number of instructions pass 2 emits before it, and the counts agree |
| Simulation.CompiledEffect | src/vm/set.c:123-308 | the instruction of a statement does what the statement says to the data |
| Simulation.CompiledControl | src/vm/set.c:312-324 | and sends control to the address of its target |
| Simulation.BranchAsNamedIffFirstIsR0 | src/vm/set.h:593-605 | ejmp and nejmp compare the registers they name exactly when the first is r0 |
| Simulation.StepSimulates | src/vm/set.c:108-404 | one step of the source is one step of the program at the address of its line |
| Simulation.ProgramSimulatesSource | src/vm/set.c:413-423 | every run of a compiled program is a run of its source, step for step |
| Meaning.LineCompiles | src/assembler/basic_assembler.c:504-596 | a statement line assembles to the instruction of its statement, and aborts exactly when its label is not declared |
| Meaning.EmittedAt | src/assembler/basic_assembler.c:721-724 | on a clean list the instruction of a line lands at its address |
| Meaning.AcceptedIffDeclared | src/assembler/basic_assembler.c:570-578 | a clean source of the fragment, what stands behind labels left aside, is accepted exactly when every label it names is declared |
| Meaning.AssemblyPreservesMeaning | src/assembler/basic_assembler.c:599-734 | the assembled program of a clean token list runs as the source its lines express, what stands behind labels left aside |
| Caasm.MainAssemble | src/assembler/basic_assembler.c:794-837 | lexer, first and second pass in sequence give the program of the text or the abort |
| Caasm.EndedTextHasNoTail | src/assembler/basic_assembler.c:610-662 | a text that is empty or ends in a line end has no unterminated last line |
| Caasm.TextAcceptedIffDeclared | src/assembler/basic_assembler.c:794-837 | a text is accepted exactly when the labels its terminated lines name are declared in them, what stands behind labels left aside |
| Caasm.TextPreservesMeaning | src/assembler/basic_assembler.c:794-837 | the assembled program of a text runs, step for step, as the source its terminated lines express, what stands behind labels left aside |
| Caasm.AloneIsUncut | src/assembler/basic_assembler.c:638-657 | nothing is left aside when the labels stand alone on their lines |
| Caasm.TextKeptIff | src/assembler/basic_assembler.c:599-734 | an accepted text is kept whole, labels and instructions, exactly when it is clean, its labels stand alone and only blanks and comments follow its last line end |
| RoundTrip.DigitsLaw | src/assembler/disassembler.c:73-283 | numbers are printed with the ten digits, the highest first |
| RoundTrip.AtoiLaw | src/assembler/basic_assembler.c:91-93 | atoi: blanks, sign, and each digit behind makes ten of the number before |
| RoundTrip.AtoiStops | src/assembler/basic_assembler.c:91-93 | anything that is no digit ends the number |
| RoundTrip.ParseRegLaw | src/assembler/basic_assembler.c:99-166 | which words are registers and labels; register numbers are signed bytes |
| RoundTrip.ParseValueLaw | src/assembler/basic_assembler.c:134-155 | all others are values, decimals kept in 32 bits |
| RoundTrip.AtoiDigits | src/assembler/basic_assembler.c:91-93 | a printed number is read back as itself |
| RoundTrip.LineRoundTrip | src/assembler/disassembler.c:73-283 | a canonical instruction as keyword and operands in the printed order assembles to itself |
| RoundTrip.KeywordKeepsOpcodeIff | src/assembler/basic_assembler.c:264-486 | an assembled line has the opcode of its keyword except for six keywords |
| RoundTrip.BareLineAfterLabelIsLost | src/assembler/basic_assembler.c:635-660 | a bare instruction behind a label line is lost by pass 2 and merged by pass 1 |
| PrintedText.PartsFit | src/assembler/disassembler.c:73-283 | the pieces of a printed instruction do not run together |
| PrintedText.LexParts | src/tokenizer.c:89-248 | text in pieces that do not run together lexes to their tokens, whatever line follows |
| Disassembler.LexProgram | src/assembler/disassembler.c:66-71 | a printed program, line ends where the disassembler puts them, lexes to its tokens |
| Disassembler.PrintedLineAssembles | src/assembler/disassembler.c:73-283 | a listed instruction is read as its opcode with operands zero, and nejmp and regdump abort |
| Disassembler.PrintedProgramAssembles | src/assembler/disassembler.c:66-71 | what the assembler makes of a printed program, as printed and with one more line end |
| Disassembler.PlainRoundTrip | src/assembler/disassembler.c:66-71 | printed without decoration a program comes back, exactly when a line end follows or it is empty or ends in ret |
| Disassembler.ListingComesBackIffZero | src/assembler/disassembler.c:73-283 | the disassembler's text, closed by a line end, comes back exactly when all operands are zero and nejmp and regdump do not occur |
| Disassembler.LastLineIsLost | src/assembler/basic_assembler.c:681-730 | a printed instruction without a line end is a line of the text and assembles to nothing |
| SourceText.LexBeforeEnd | src/tokenizer.c:170-248 | no token reaches over a newline or a semicolon |
| SourceText.TextByLines | src/assembler/basic_assembler.c:610-662 | the lines of a text are those of its parts between line ends |
| SourceText.RowsAreLines | src/tokenizer.c:89-248 | indentation, blanks and comments leave no trace in the lines |
| SourceText.RowsAssemble | src/assembler/basic_assembler.c:599-734 | label table, count and program of any text of labels and instructions with numeric targets, clean or not |
| SourceText.InstructionBehindLabelIsLost | src/assembler/basic_assembler.c:715-719 | an instruction behind a label on its line assembles to nothing |
| SourceText.SemicolonEndsComment | src/tokenizer.c:172-175 | what follows a semicolon in a comment is assembled |
| Example.ExampleAssembles | examples/recursive_function_call.caasm:26-46 | in any layout the example assembles to the recursive test without its second REC, and both passes count 15 of 16 instructions |
| Example.ExampleReturnsFive | examples/recursive_function_call.caasm:26-46 | that program returns 5 after 48 steps with both counters restored |
| Mnemonics.TableTextAssembles | src/assembler/basic_assembler.c:264-486 | each of the keywords, written as literal text with any registers and numbers, is the instruction its row says |
| Mnemonics.TableLineAssembles | src/assembler/basic_assembler.c:504-596 | so is the line of its words, whatever labels there are |
| Mnemonics.WrongCountZeroes | src/assembler/basic_assembler.c:545-552 | a line with fewer or more words gives its opcode with all slots zero |
| Mnemonics.WrongCountText | src/assembler/basic_assembler.c:545-552 | and so does its text |
| Mnemonics.OtherWordText | src/assembler/basic_assembler.c:518-521 | a line that starts with any other word aborts |
| Mnemonics.FaddIsNoKeyword | src/assembler/basic_assembler.c:34 | fadd without a space is no keyword |
| Mnemonics.SignAborts | src/assembler/basic_assembler.c:513-514 | a line that starts with a sign aborts, or has one for its first operand |
| Mnemonics.ReferenceLaw | src/assembler/basic_assembler.c:488-502 | jmp and call take the first address of a label and abort without one |
| Mnemonics.LoadMacros | src/vm/set.h:361-383 | the loads and saves take their second slot from the number |
| Mnemonics.FloatKeywords | src/assembler/basic_assembler.c:246-261 | the seven keywords whose numbers are floats |
| Mnemonics.StorageLaw | src/vm/set.h:324-329 | the storage is the number as a signed 32-bit word |
| ListingText.ListingIsText | src/assembler/disassembler.c:73-283 | what the disassembler prints for every instruction of the fragment, as literal text |
| ListingText.ListingShowsOperands | src/assembler/disassembler.c:73-283 | without its decoration a listed line is keyword and operands as the assembler reads them |
| ListingText.ListingShowsProgram | src/assembler/disassembler.c:66-71 | the listing and the plain text of a program are the same words |

## Left out

- Floating point: FSET, the FADD and FCMP families, the float casts, FLOAD and FSAVE fault as `FloatUnit`; the assembler model keeps the whole number an `fset` converts. They add rounding and no control or state.
- Opcodes beyond NOP: the machine reports them and goes on; the opcode type has no such values.
- Files, command line, timing, logging and colours: REG_DUMP only writes to a log, so it does nothing here. With a log set, as in the tester, the C code reads the register it names, so an index outside the register file is a fault there and none here.
- Tokenizer.ReadWord: the C code never terminates its word buffer before it copies it, so characters of an earlier token can follow; the word read is taken as terminated.
- Tokenizer.ReadNumber: the same for numbers.
- Caasm.MainAssemble: takes the text as it is; the C code reads the file into a buffer of 2048 bytes, stops at the first NUL and sees a character above 127 as bytes it does not know.
- SetVm.Machine.WriteBytes: assumes that the write system call takes all bytes; short and failed writes depend on the system.
- SetVm.Machine.ExecuteData: float opcodes fault as `FloatUnit`, and REG_DUMP reads no register, as said above.
- SetVm.Machine.ExecuteProgram: asks for a run that ends, since a Dafny method has to; endless runs are covered on the step function, as in `LoopTest.LoopForever`.
- Tester.RunSetProgram: asks for a run that ends, for the same reason.
- Tester.RunNativeTests: leaves out the float test at the end of the list.
- SetVm.Machine.ExecuteOp: float opcodes fault; after a fault nothing is promised about the object, as the C code promises nothing there.
- Caasm.TextPreservesMeaning: covers the integer fragment of `SourceLanguage`; the mnemonics that assemble to other opcodes, dload, dsave and branches whose first register is not r0 are outside it.
- Caasm.TextPreservesMeaning: `rec` has no meaning in the source, so a REC with all frames in use is the one fault the source does not share.
- SourceText.RowsAssemble: covers canonical instructions, as printed, with numbers for targets; references to labels are covered by the theorems of `Caasm`.
- Disassembler.PrintedProgramAssembles: covers instructions of the integer fragment whose unused slots are zero, as every macro leaves them, and non-negative registers and immediates, since the lexer has no signed numbers; dload, dsave, getac, nop, entry and the register jumps are outside it.
- Passes.IndexLabels: asks that no line overruns the 32 tokens of the buffer; the 128 labels, 128 instructions and 1024 tokens the C arrays hold, and the 1024 characters of a word, are not bounded here.
- Assembler.ParseRegText: the C code copies the word into a four-byte prefix buffer and its digits into a nine-byte one, which long words overrun; the model reads the whole word. Fields that parse_reg leaves uninitialised, the value of a word that is no number and the value flag of a label or of `fr`, are read as zero. A number that an int cannot hold, where atoi is undefined, aborts. A line that uses a token without text, which crashes the C code, aborts too.
- Label addresses and program counters are natural numbers; the C code keeps them in 32 and 64 bits.
- `lib/str.h`, `src/str.h`, `src/cliargs.c`, `src/format.c`, `load_from_file` and `write_to_file`: helpers and binary layout that would only add easy members.
