# QuickJSC engine internals in Dafny

A verified model of the parts of QuickJSC in which a small slip would be a wrong answer or a hang: the
regular-expression compiler and its backtracking machine, the code-point sets and normalisation of
libunicode, the sort and the UTF-8 coding of cutils, and the message pipes between worker threads.

`dafny verify dfyconfig.toml` checks the whole project.

## What is modelled

**Regular expressions (`Regex*.dfy`).** A pattern is an abstract syntax tree (`RegexPattern.Re`): characters,
classes, assertions, back references, sequence, alternation, groups, captures, lookaround in both directions
and quantifiers with any bounds. `RegexMatcher` defines what a pattern means as the original implements it: the
ordered list of all ways to match. `RegexPattern.Compile` is the code of a pattern as instructions;
`RegexEmit` and `RegexCompile` emit it imperatively, byte by byte, with insertions in front of emitted code,
copied atoms, patched jumps and the rotation of lookbehinds. `RegexMachine` is one step of the machine over
bytes; `RegexVm` is the machine as the loop over mutable arrays that it is. The main results are that the two
agree (`ProgramCorrect`, `LreCompile`, `LreExec`), when they stop (`SafeProgramsHalt`, `GreedyLoopHalts`, `LazyLoopHalts`),
that the stack size in the header is enough (`StackBounded`), that a search finds the leftmost match, and that a
back reference matches exactly where the captured text repeats. `RegexAnswers` says what programs answer in terms of
the code units of the subject alone, without the functions that matcher and machine share: characters, `.`, classes,
assertions, lookbehind and captures.

The matcher is the meaning the code gives to patterns, not that of ECMA-262: an iteration that consumes nothing
leaves a guarded loop instead of failing, captures are reset once in front of an optional atom, and lazy loops,
and loops over atoms that refer back to their own captures, have no guard at all. An unguarded loop can spin.
`Outcomes` therefore takes a budget of iterations of unguarded loops that do not move the pointer (`fuel`) and is
`Stuck` when the budget runs out. The budget bounds nothing in the theorems: `ProgramCorrect` quantifies it away,
and `ProgramYields` shows that a matcher that is stuck with budget n goes with a machine still running after n steps.

**The prescan (`RegexPrescan`).** The text parser as far as it consumes text and counts captures, beside the loop
that counts parentheses in advance.

**Code-point sets (`RangePoints`, `CharRangeSets`, `CharRangeOps`, `PropOps`, `PropTable`).** Boundary arrays, the
merge and the in-place compression, the postfix machine over sets, and the compressed tables with their block index.

**Normalisation (`Normalize`, `Hangul`, `Composition`, `NormalForms`).** The character database is a parameter with stated
well-formedness: decompositions end, classes are below 256, composites are starters. `NormalForms` says what the four
forms are in terms of that database.

**`Sort` and `Utf8`.** rqsort on an array with its explicit stack; the coder and decoder for up to six bytes.

**Workers (`RefCounts`, `WorkerPipe`, `WorkerSafety`, `WorkerRouting`, `WorkerProgress`).** A state machine whose steps
are single atomic operations, operations under a mutex and thread-local actions, interleaved in any order among any
number of threads. `WorkerSafety` proves that no schedule leads to a fault, `WorkerRouting` that every message reaches
the other end of its channel in order and unaltered, and `WorkerProgress` that each operation comes to its end.

Where the code and its comments disagree, the model follows the code: bne_char_pos jumps when the popped position
differs from the current one (`libregexp.c:2298`), although `libregexp-opcode.h:53` says it jumps when they are equal.
The last capture of a save_reset is left out of the bitmap of re_check_advance (`libregexp.c:1001`), and the model
leaves it out too.

## Model

| member | source | states |
|---|---|---|
| `RegexText.BackUndoesGet` | Sources/QuickJSC/libregexp.c:1924-2012 | PREV_CHAR undoes GET_CHAR exactly from the code-point boundaries, and GET_CHAR always lands on one, for 8-bit, 16-bit and UTF-16 buffers |
| `RegexText.GetUndoesBack` | Sources/QuickJSC/libregexp.c:1960-2012 | PREV_CHAR always lands on a boundary; from a boundary, GET_CHAR then returns there and reads what PEEK_PREV_CHAR saw |
| `RegexText.BackNUndoesGetN` | Sources/QuickJSC/libregexp.c:2148-2151 | from any boundary, n PREV_CHARs undo n GET_CHARs: what a greedy quantifier frame relies on when it steps back |
| `RegexCode.FetchEncoded` | Sources/QuickJSC/include/libregexp-opcode.h:27-56 | every instruction that fits its fields is decoded from its bytes, including negative jump offsets and the variable-length range instructions |
| `RegexCode.EncodedAt` | Sources/QuickJSC/libregexp.c:1772-1815 | code placed anywhere in a buffer is read back instruction by instruction by a linear scan from its start |
| `RegexCode.OpcodeNumbers` | Sources/QuickJSC/include/libregexp-opcode.h:27-56 | the opcodes are the numbers from 1 in the order of the opcode file |
| `RegexClass.SearchDecides` | Sources/QuickJSC/libregexp.c:2391-2402 | the binary search over sorted pairs finds the code point iff some pair contains it, with no index below zero |
| `RegexClass.ClassRoundTrip` | Sources/QuickJSC/libregexp.c:821-857 | for every canonical range and code point, the emitted class instruction (16-bit form with 0xffff as infinity, 32-bit form, or the never-matching form) accepts exactly the members, and its operands fit |
| `RegexPattern.NumberedBelow` | Sources/QuickJSC/libregexp.c:1336-1351 | numbering captures in the order of their opening keeps every index below the final count |
| `RegexProgress.OutcomesReachable` | Sources/QuickJSC/libregexp.c:1924-2012 | every outcome of matching from a boundary lies on a boundary, inside the subject, and not behind the start in the direction of matching; captures keep their number |
| `RegexCaptures.OutcomesKeep` | Sources/QuickJSC/libregexp.c:2257-2276 | matching a pattern changes no capture slot that the pattern does not set or reset |
| `RegexCaptures.NumberedLeaves` | Sources/QuickJSC/libregexp.c:1336-1351 | a pattern numbered from cc leaves alone every capture below cc, whatever its quantifiers reset |
| `RegexAnalysis.CompiledFacts` | Sources/QuickJSC/libregexp.c:992-1010 | the captures that the bytecode of a pattern sets and those it refers to are those of the pattern, through every quantifier shape, so the two bitmaps of re_check_advance are about the pattern |
| `RegexAnalysis.CheckAdvanceMeaning` | Sources/QuickJSC/libregexp.c:945-1030 | re_check_advance returns -1 on compiled code iff the pattern refers back to a capture it sets itself |
| `RegexAnalysis.SimpleHasNoCaptures` | Sources/QuickJSC/libregexp.c:1034-1071 | code accepted as a simple quantifier atom sets no capture and refers to none |
| `RegexAnalysis.MustAdvance` | Sources/QuickJSC/libregexp.c:950-1030 | soundness of result 1: every way to match such an atom moves the pointer strictly in its direction |
| `RegexYields.YieldsAppend` | Sources/QuickJSC/libregexp.c:2117-2173 | a machine that offers one list of outcomes over a split frame and another when the frame resumes offers the concatenation: frames resume only on failure, last pushed first |
| `RegexLayout.SplitYields` | Sources/QuickJSC/libregexp.c:2192-2210 | a split offers the outcomes of its first branch and then those of its second |
| `RegexLayout.LookYields` | Sources/QuickJSC/libregexp.c:2160-2170 | a lookahead goes on once, with the captures of the first way its body matches and the position it started at; a negative one goes on, captures restored, iff the body has no way; frames pushed inside are discarded |
| `RegexLayout.AtomForward` | Sources/QuickJSC/libregexp.c:2175-2191 | a character instruction goes on behind the character iff its test accepts it, else fails |
| `RegexLayout.AtomBackward` | Sources/QuickJSC/libregexp.c:2444-2449 | prev, test, prev reads one character towards the start |
| `RegexLayout.RefYields` | Sources/QuickJSC/libregexp.c:2323-2366 | a back reference goes on behind the text that repeats the captured one, up to case folding, in the direction of matching, and fails iff there is none |
| `RegexReference.ForwardRepeats` | Sources/QuickJSC/libregexp.c:2336-2348 | the forward loop ends at q iff the canonicalised characters up to q are those of the capture |
| `RegexReference.BackwardRepeats` | Sources/QuickJSC/libregexp.c:2350-2363 | the backward loop ends at q iff the canonicalised characters from q on are those of the capture |
| `RegexReference.RefRepeats` | Sources/QuickJSC/libregexp.c:2323-2366 | a back reference in either direction matches exactly where the captured text repeats; a capture that is not set matches the empty text |
| `RegexFast.RunAtomsMaximal` | Sources/QuickJSC/libregexp.c:2464-2476 | the loop of simple_greedy_quant stops after the greatest number of runs within the maximum |
| `RegexFast.GreedyFrameYields` | Sources/QuickJSC/libregexp.c:2137-2159 | a greedy quantifier frame offers the positions after ever fewer runs, one character length back at a time, down to the minimum, and then is gone |
| `RegexFast.FastCorrect` | Sources/QuickJSC/libregexp.c:1566-1590 | the fast path offers the same continuations in the same order as the general meaning of the same atom and bounds |
| `RegexRepeat.UpToYields` | Sources/QuickJSC/libregexp.c:1638-1649 | one iteration of a counted optional loop leads, for each of its outcomes in order, back to the split with the counter one less, or past the loop when it was the last |
| `RegexCorrect.Correct` | Sources/QuickJSC/libregexp.c:1563-1691 | central induction: the code of a pattern, or of a loop entered with so many iterations left, offers exactly the outcomes of the ordered matcher, from any operand stack and over any frames |
| `RegexCorrect.EitherCorrect` | Sources/QuickJSC/libregexp.c:1738-1770 | alternation: the split and patched jump offer the left outcomes before the right ones |
| `RegexCorrect.CaptureCorrect` | Sources/QuickJSC/libregexp.c:1336-1354 | a capture saves its two ends around every outcome of its body, in swapped order when matching backward |
| `RegexCorrect.AroundCorrect` | Sources/QuickJSC/libregexp.c:1283-1313 | lookahead and lookbehind, the body of the latter matched backward whatever surrounds it |
| `RegexCorrect.StarCorrect` | Sources/QuickJSC/libregexp.c:1621-1637 | unbounded loops, greedy or lazy, guarded by push_char_pos and bne_char_pos or not: an iteration that consumes nothing leaves a guarded loop |
| `RegexCorrect.QuantCorrect` | Sources/QuickJSC/libregexp.c:1563-1691 | every quantifier shape and bound, through the fast path, the capture reset, the copies of the atom and the counters |
| `RegexExec.ProgramYields` | Sources/QuickJSC/libregexp.c:2089-2174 | whatever budget the matcher is given: if it comes to a result the machine halts with that result, and if it runs out the machine is still running after as many steps |
| `RegexExec.ProgramCorrect` | Sources/QuickJSC/libregexp.c:1821-1909 | compiler correctness: running the bytecode of any pattern halts with a given result (no match, or a match with its captures) iff the ordered backtracking matcher on the pattern comes to that result |
| `RegexExec.CapturesOnBoundaries` | Sources/QuickJSC/libregexp.c:2257-2267 | every capture pointer of a reported match lies on a code-point boundary, whatever the buffer type |
| `RegexExec.ProgramNeverAborts` | Sources/QuickJSC/libregexp.c:2089-2174 | no run of a compiled program pops an empty operand stack, jumps off its instructions or leaves the subject |
| `RegexExec.HaltsOnce` | Sources/QuickJSC/libregexp.c:2089-2174 | a run has at most one result |
| `RegexSearch.LeftmostSearch` | Sources/QuickJSC/libregexp.c:1851-1860 | the search program halts with no match iff the sticky program does from every boundary at or after the start; it halts with given captures iff the sticky program does at some boundary and has no match from those before it, and capture 0 starts at that boundary |
| `RegexTermination.SafeProgramsHalt` | Sources/QuickJSC/libregexp.c:1594-1678 | if every unbounded quantifier is greedy with re_check_advance not -1, or has an atom that always advances, every run halts with a match or no match |
| `RegexTermination.RegularProgramsHalt` | Sources/QuickJSC/libregexp.c:1594-1678 | in particular every pattern without back references, whose lazy loops are over single characters, halts on every subject |
| `RegexTermination.GreedySpins` | Sources/QuickJSC/libregexp.c:1594-1598 | an unguarded greedy loop whose atom first stays where it is never comes to a result, at any budget |
| `RegexTermination.LazySpins` | Sources/QuickJSC/libregexp.c:1596-1598 | nor does a lazy loop over such an atom, if what follows the loop fails where the atom stays |
| `RegexTermination.GreedyLoopHalts` | Sources/QuickJSC/libregexp.c:1619-1637 | exact criterion: the program of an unguarded greedy loop over an atom with at most one way to match halts iff the iterations come to a state where the atom does not match |
| `RegexTermination.LazyLoopHalts` | Sources/QuickJSC/libregexp.c:1619-1637 | exact criterion: with a lazy loop over such an atom, it halts iff the iterations come to a state where what follows the loop matches or the atom does not |
| `RegexTermination.SelfReferringDiverges` | Sources/QuickJSC/libregexp.c:1019-1026 | concrete case: no run of the sticky program of (?:()\1)* halts, on any subject |
| `RegexTermination.LazyEmptyDiverges` | Sources/QuickJSC/libregexp.c:1596-1598 | concrete case: no run of the sticky program of (?:)*?c from the end of a subject halts |
| `RegexStack.Relocate` | Sources/QuickJSC/libregexp.c:114-121 | an instruction whose jump lands on a boundary at the right depth inside a piece of code still does so wherever the piece is embedded |
| `RegexStack.CompiledClosed` | Sources/QuickJSC/libregexp.c:1674-1687 | in the code of every pattern each jump, over inserted instructions, copied atoms and patched alternatives, lands on an instruction boundary at the depth the linear scan computes there, and the code is neutral on the stack |
| `RegexStack.ClosedQuant` | Sources/QuickJSC/libregexp.c:1570-1691 | every quantifier encoding around closed code is closed |
| `RegexDepth.StepOk` | Sources/QuickJSC/libregexp.c:2277-2300 | one step keeps the operand stack, and the stacks saved in all frames, at the depth of the linear scan |
| `RegexDepth.StackBounded` | Sources/QuickJSC/libregexp.c:1772-1815 | in every reachable state the operand stack is as deep as the scan says at that pc, and neither it nor any saved one exceeds the size in the header |
| `RegexScan.IsSimpleQuantifier` | Sources/QuickJSC/libregexp.c:1034-1071 | the byte loop returns the number of characters of a straight run of one-character tests and assertions, and -1 for anything else |
| `RegexScan.ComputeStackSize` | Sources/QuickJSC/libregexp.c:1772-1815 | the byte loop returns the maximum depth of the code, or -1 iff it exceeds 255 |
| `RegexScan.CheckAdvanceScan` | Sources/QuickJSC/libregexp.c:950-1030 | the byte loop with its bitmap of captures returns -1, 0 or 1 as the analysis of the instructions says |
| `RegexEmit.ReParseState.EmitU32` | Sources/QuickJSC/libregexp.c:400-407 | appends an opcode and a 32-bit operand and returns where the operand is |
| `RegexEmit.ReParseState.EmitGoto` | Sources/QuickJSC/libregexp.c:409-416 | appends a jump whose offset leads from behind the operand to the target |
| `RegexEmit.ReParseState.Insert` | Sources/QuickJSC/libregexp.c:114-121 | opens a gap in front of code already emitted, which moves up unchanged |
| `RegexEmit.ReParseState.PutSelf` | Sources/QuickJSC/cutils.c:148-157 | appends a copy of bytes already in the buffer |
| `RegexEmit.ReParseState.EmitSimple` | Sources/QuickJSC/libregexp.c:1570-1589 | turns an emitted atom into the fast quantifier instruction around it |
| `RegexEmit.ReParseState.EmitReset` | Sources/QuickJSC/libregexp.c:1603-1612 | puts the reset of the captures since last_capture_count in front of the atom, if there are any |
| `RegexEmit.ReParseState.EmitStar` | Sources/QuickJSC/libregexp.c:1621-1637 | turns an emitted atom into the unbounded loop over it, with the position check if wanted |
| `RegexEmit.ReParseState.EmitUpTo` | Sources/QuickJSC/libregexp.c:1638-1649 | turns an emitted atom into the counted optional loop over it |
| `RegexEmit.ReParseState.EmitTimes` | Sources/QuickJSC/libregexp.c:1655-1666 | turns an emitted atom into its mandatory iterations and tells where the atom is now |
| `RegexEmit.ReParseState.EmitTail` | Sources/QuickJSC/libregexp.c:1667-1688 | appends the optional iterations as copies of the atom |
| `RegexEmit.ReParseState.EmitQuantifier` | Sources/QuickJSC/libregexp.c:1563-1692 | the whole quantifier branch turns an emitted atom into the quantifier code of the two analyses, the bounds and the captures inside |
| `RegexEmit.ReParseState.EmitRange` | Sources/QuickJSC/libregexp.c:821-857 | appends the class instruction in the one of its three forms that the range calls for |
| `RegexEmit.ReParseState.ParseAtom` | Sources/QuickJSC/libregexp.c:1224-1500 | emits the code of an atom and counts its captures; fails iff there are more than 254 |
| `RegexEmit.ReParseState.ParseCapture` | Sources/QuickJSC/libregexp.c:1336-1354 | emits a capture around the code of its body, its index the count so far |
| `RegexEmit.ReParseState.ParseAround` | Sources/QuickJSC/libregexp.c:1283-1313 | emits a lookaround and patches the jump over its body |
| `RegexEmit.ReParseState.ParseTerm` | Sources/QuickJSC/libregexp.c:1215-1702 | emits the code of a term, its quantifier in place around the atom |
| `RegexEmit.ReParseState.Rotate` | Sources/QuickJSC/libregexp.c:1721-1733 | moves the last term in front of the terms before it, by the two memory moves of the original |
| `RegexEmit.ReParseState.ParseAlternative` | Sources/QuickJSC/libregexp.c:1704-1736 | emits the code of a sequence, each term rotated to the front when matching backward |
| `RegexEmit.ReParseState.ParseDisjunction` | Sources/QuickJSC/libregexp.c:1738-1770 | emits the code of a disjunction: a split inserted in front, a jump patched behind, for each further alternative |
| `RegexEmit.AlternativeOrder` | Sources/QuickJSC/libregexp.c:1721-1733 | the code of a sequence is its term codes in order, and inside a lookbehind exactly its term codes in reverse order |
| `RegexEmit.CompiledFits` | Sources/QuickJSC/libregexp.c:400-428 | every operand of the code of a pattern fits its field |
| `RegexCompile.ScanNeverUnderflows` | Sources/QuickJSC/libregexp.c:1798-1802 | the asserted condition of the stack scan holds at every drop and bne_char_pos of compiled code |
| `RegexCompile.ProgramHolds` | Sources/QuickJSC/libregexp.c:1891-1893 | bytes with the header lre_compile writes hold the program that the machine is proved to run correctly |
| `RegexCompile.HeaderLayout` | Sources/QuickJSC/libregexp.c:1891-1893 | the header byte by byte: capture count, stack size and the length of the code in little-endian order |
| `RegexCompile.LreCompile` | Sources/QuickJSC/libregexp.c:1821-1909 | returns the program of the pattern with its header, or None iff it has more than 254 captures or needs an operand stack deeper than 255 |
| `RegexVm.SearchRange` | Sources/QuickJSC/libregexp.c:2391-2402 | the search loop of the range instructions decides as the recursive search, which decides membership |
| `RegexVm.TestRange` | Sources/QuickJSC/libregexp.c:2367-2443 | both range instructions after the character has been read, with the 0xffff-as-infinity rule |
| `RegexVm.MatchRef` | Sources/QuickJSC/libregexp.c:2323-2366 | the two loops of the back references end at q iff the text between the pointer and q repeats the captured one, up to case folding |
| `RegexVm.RunSimple` | Sources/QuickJSC/libregexp.c:2106-2116 | the nested run of an atom (no_recurse) ends where the specification of one atom run says |
| `RegexVm.RunGreedy` | Sources/QuickJSC/libregexp.c:2464-2476 | the loop over atom runs counts them and leaves the pointer behind the last |
| `RegexVm.ExecContext.constructor` | Sources/QuickJSC/libregexp.c:2518-2532 | starts with all captures unset, an empty operand stack of the size in the header and the pc behind the header |
| `RegexVm.ExecContext.PushState` | Sources/QuickJSC/libregexp.c:2050-2086 | saves pc, pointer, captures and operand stack in a new frame, and nothing else changes |
| `RegexVm.ExecContext.Restore` | Sources/QuickJSC/libregexp.c:2125-2133 | brings back a saved state, the captures only if they are not to be kept |
| `RegexVm.ExecContext.ResumeGreedy` | Sources/QuickJSC/libregexp.c:2137-2159 | one resumption of a greedy frame: pointer one atom back, count one less, the frame gone at zero |
| `RegexVm.ExecContext.Unwind` | Sources/QuickJSC/libregexp.c:2117-2173 | unwinding resumes or ends exactly as the specification of failure and success over the frames |
| `RegexVm.ExecContext.ExecJumps` | Sources/QuickJSC/libregexp.c:2192-2226 | split, lookahead, goto, loop and bne_char_pos change the mutable state as the step function |
| `RegexVm.ExecContext.ExecSaves` | Sources/QuickJSC/libregexp.c:2257-2276 | the save instructions write the capture array as the step function |
| `RegexVm.ExecContext.ExecStack` | Sources/QuickJSC/libregexp.c:2277-2294 | the stack instructions write the operand stack within its reserved size |
| `RegexVm.ExecContext.ExecTests` | Sources/QuickJSC/libregexp.c:2175-2256 | character tests, assertions, back references and prev go on or unwind as the step function |
| `RegexVm.ExecContext.ExecGreedys` | Sources/QuickJSC/libregexp.c:2450-2489 | simple_greedy_quant goes on, pushes its frame or unwinds as the step function |
| `RegexVm.ExecContext.ExecBacktrack` | Sources/QuickJSC/libregexp.c:2089-2494 | the loop over mutable pc, pointer, capture array, operand stack and frames halts with the result of the run, and stays within the stack the header reserves |
| `RegexVm.LreExec` | Sources/QuickJSC/libregexp.c:2499-2535 | on the bytes lre_compile produced, returns the match and captures, or none, that the ordered matcher finds on the pattern; it is the result with which the run halts |
| `RegexAnswers.Reads` | Sources/QuickJSC/libregexp.c:1924-2012 | the access macros read the code points of the units, a surrogate pair as the one it encodes, forwards and backwards |
| `RegexAnswers.ReadsUtf16` | Sources/QuickJSC/libregexp.c:1924-1942 | in well-formed UTF-16 GET_CHAR reads exactly the characters encoded, one after another |
| `RegexAnswers.CharacterAnswer` | Sources/QuickJSC/libregexp.c:2175-2191 | the program of a character matches one code point iff it is that character, up to case folding under the i flag only |
| `RegexAnswers.DotAnswer` | Sources/QuickJSC/libregexp.c:2244-2255 | the program of . matches one code point iff it is not one of 10, 13, 0x2028 and 0x2029, or under the s flag any |
| `RegexAnswers.ClassAnswer` | Sources/QuickJSC/libregexp.c:2367-2443 | the program of a class matches one code point iff it, canonicalised under the i flag, lies in one of the intervals |
| `RegexAnswers.AssertAnswer` | Sources/QuickJSC/libregexp.c:2227-2322 | ^ and $ go on iff at an end of the text or, under the m flag only, next to a line terminator; \b goes on iff exactly one of the neighbouring code points is in [0-9A-Za-z_], \B iff not, the ends counting as outside |
| `RegexAnswers.LookbehindAnswer` | Sources/QuickJSC/libregexp.c:2444-2449 | a character in a lookbehind is compared with the code point that ends at the position |
| `RegexAnswers.StartsEmpty` | Sources/QuickJSC/libregexp.c:2518-2532 | a run starts behind the header with no capture set and nothing on its stacks |
| `RegexAnswers.SavesAre` | Sources/QuickJSC/libregexp.c:2257-2276 | save_start and save_end write the pointer into one slot, save_reset clears both slots of each of its captures, and every other slot stays |
| `RegexAnswers.CaptureAnswer` | Sources/QuickJSC/libregexp.c:2257-2267 | when a captured pattern matches, the capture has the two ends of the match |
| `RegexPrescan.ReParseCaptures` | Sources/QuickJSC/libregexp.c:1125-1172 | the prescan loop with its skipped escapes and classes returns what the scan of the text counts, and reports named captures iff the scan comes to one before it stops |
| `RegexPrescan.ParseDigits` | Sources/QuickJSC/libregexp.c:446-469 | the number that the longest run of decimal digits denotes, 0x7fffffff for one that does not fit if that is allowed, else -1 |
| `RegexPrescan.PropertyWord` | Sources/QuickJSC/libregexp.c:627-631 | reads the whole run of letters, digits and underscores, or stops after 63 iff it is longer |
| `RegexPrescan.HexDigits` | Sources/QuickJSC/libregexp.c:545-552 | the number that n hexadecimal digits denote, or -1 iff one is missing |
| `RegexPrescan.LreParseEscape` | Sources/QuickJSC/libregexp.c:492-601 | the value of every escape: the six letters, two or four hexadecimal digits, digits in braces, octal digits up to 255, and under the u flag the code point of an escaped surrogate pair; -1 for a fixed-width or octal escape iff it is malformed, -2 iff it is none; and the text accepted is such that the prescan counts nothing in it |
| `RegexPrescan.NormalChar` | Sources/QuickJSC/libregexp.c:803-818 | a character taken as itself is the byte, or the value whose UTF-8 encoding stands there; -1 iff none does that the mode allows |
| `RegexPrescan.ControlAtom` | Sources/QuickJSC/libregexp.c:750-765 | a control escape gives the low five bits of its letter, inside a class also of a digit or underscore, and otherwise the backslash itself, or an error under the u flag |
| `RegexPrescan.ParseUnicodeProperty` | Sources/QuickJSC/libregexp.c:613-704 | an accepted property escape holds nothing that the prescan counts |
| `RegexPrescan.GetClassAtom` | Sources/QuickJSC/libregexp.c:711-819 | an accepted atom, inside or outside a class, leaves the prescan in the state it is in behind the atom, also where a backslash is taken as a character |
| `RegexPrescan.ReParseCharClass` | Sources/QuickJSC/libregexp.c:859-943 | the parser leaves a class at the bracket at which the prescan does |
| `RegexPrescan.ReParseGroupName` | Sources/QuickJSC/libregexp.c:1074-1120 | an accepted group name holds nothing that the prescan counts |
| `RegexPrescan.ReParser.ReCountCaptures` | Sources/QuickJSC/libregexp.c:1177-1184 | the cached total is what the prescan counts |
| `RegexPrescan.ReParser.ReHasNamedCaptures` | Sources/QuickJSC/libregexp.c:1186-1191 | true iff the prescan comes to a named capture, whether the parser met one itself or had to ask |
| `RegexPrescan.ReParser.ParseCount` | Sources/QuickJSC/libregexp.c:1521-1553 | a counted quantifier has the two bounds its digits denote, capped at 0x7fffffff, without an upper one if no digits follow the comma; bounds in the wrong order fail, and under the u flag everything that is no count |
| `RegexPrescan.ReParser.ParseQuantifier` | Sources/QuickJSC/libregexp.c:1504-1559 | the bounds of each quantifier, greedy iff no question mark follows |
| `RegexPrescan.ReParser.ParseBrace` | Sources/QuickJSC/libregexp.c:1245-1265 | a brace where a term should be is a character iff the u flag is off and it does not read like a count |
| `RegexPrescan.ClassItem` | Sources/QuickJSC/libregexp.c:875-923 | an interval of plain characters is accepted iff it is not reversed, and one that begins with a class escape only without the u flag |
| `RegexPrescan.ReParser.ParseGroup` | Sources/QuickJSC/libregexp.c:1271-1356 | a group raises the count of the parser by what its parentheses raise that of the prescan |
| `RegexPrescan.ReParser.ParseNumber` | Sources/QuickJSC/libregexp.c:1402-1452 | a number behind a backslash is a back reference iff the whole pattern, by the count of the prescan, has that many captures; otherwise it is an error under the u flag unless it is a single zero, and else an octal escape with its value |
| `RegexPrescan.ReParser.ReParseTerm` | Sources/QuickJSC/libregexp.c:1215-1562 | a term is consumed with the two counts in step |
| `RegexPrescan.ReParser.ReParseDisjunction` | Sources/QuickJSC/libregexp.c:1738-1770 | a disjunction is consumed up to the end or a closing parenthesis with the two counts in step |
| `RegexPrescan.ReParser.ParsePattern` | Sources/QuickJSC/libregexp.c:1862-1878 | on every pattern that the parser accepts, its capture count is the one the prescan returns |
| `Sort.Med3IsMedian` | Sources/QuickJSC/cutils.c:504-509 | med3 picks a median of its three values under any total preorder |
| `Sort.RootIsMax` | Sources/QuickJSC/cutils.c:470-502 | the root of a heap is its maximum |
| `Sort.SiftDown` | Sources/QuickJSC/cutils.c:482-489 | the inner loop of heapsortx restores the heap by rearranging the stretch |
| `Sort.HeapSort` | Sources/QuickJSC/cutils.c:470-502 | heapsortx sorts the stretch and rearranges nothing else |
| `Sort.InsertionSort` | Sources/QuickJSC/cutils.c:623-627 | the closing insertion sort sorts the stretch |
| `Sort.Scan` | Sources/QuickJSC/cutils.c:547-573 | the two scanning loops and their exchange put every element into one of four parts: equal, smaller, greater, equal |
| `Sort.SwapBlock` | Sources/QuickJSC/cutils.c:589 | swap_block exchanges two disjoint stretches |
| `Sort.Gather` | Sources/QuickJSC/cutils.c:584-599 | the two block swaps bring the equal elements to the middle, whichever spans are shorter |
| `Sort.Partition` | Sources/QuickJSC/cutils.c:542-605 | one partitioning step leaves smaller, equal (at least one) and greater elements |
| `Sort.Refine` | Sources/QuickJSC/cutils.c:529-628 | rearranging one pending stretch keeps every pair outside the pending stretches in order |
| `Sort.DepthsBound` | Sources/QuickJSC/cutils.c:514-541 | a stack whose depths are strictly increasing in 1..50 has at most fifty entries |
| `Sort.SplitSegment` | Sources/QuickJSC/cutils.c:542-621 | the larger outer part is stacked, one deeper than all before it, and the smaller goes on |
| `Sort.SortSegment` | Sources/QuickJSC/cutils.c:530-627 | an entry popped from the stack is dealt with inside the fifty entries, by heapsort beyond depth fifty |
| `Sort.Rqsort` | Sources/QuickJSC/cutils.c:511-629 | for any length and any total preorder no element is greater than a later one afterwards, the elements are those before, and the 50-entry stack never overflows |
| `CharRangeSets.InIsOdd` | Sources/QuickJSC/include/libunicode.h:68-76 | membership in the half-open intervals is parity of the points at or below |
| `CharRangeSets.CanonicalUnique` | Sources/QuickJSC/libunicode.c:326-352 | two strictly increasing boundary arrays of even length with the same members are the same array |
| `CharRangeOps.MergePoint` | Sources/QuickJSC/libunicode.c:364-401 | consuming the next point of either array, and adding it iff the status changes, keeps the output the combination of what was consumed |
| `CharRangeOps.CharRange.Realloc` | Sources/QuickJSC/libunicode.c:299-314 | grows the buffer and keeps the points |
| `CharRangeOps.CharRange.AddInterval` | Sources/QuickJSC/include/libunicode.h:78-87 | appends the two points of an interval |
| `CharRangeOps.CharRange.Compress` | Sources/QuickJSC/libunicode.c:326-352 | in place, makes the array strictly increasing with the same members and no new points |
| `CharRangeOps.CharRange.Operate` | Sources/QuickJSC/libunicode.c:355-405 | the result is strictly increasing, of even length, and a code point is in it iff in one operand or the other for union, in both for intersection, in exactly one for exclusive or |
| `CharRangeOps.CharRange.Union1` | Sources/QuickJSC/libunicode.c:407-417 | adds the members of another array to the range |
| `CharRangeOps.CharRange.Invert` | Sources/QuickJSC/libunicode.c:419-431 | the canonical array whose members are the numbers below 0xffffffff that were no members |
| `CharRangeOps.IntervalDenoted` | Sources/QuickJSC/include/libunicode.h:91-97 | the two points handed to cr_union1 denote [c1, c2] iff c2 + 1 does not wrap around to 0 |
| `CharRangeOps.CharRange.UnionInterval` | Sources/QuickJSC/include/libunicode.h:91-97 | adds the code points c1 to c2 |
| `CharRangeOps.OperationIsPointwise` | Sources/QuickJSC/libunicode.c:355-405 | an array that the merge may produce has, in terms of intervals, the members of one operand or the other, of both, or of exactly one |
| `CharRangeOps.ComplementTwice` | Sources/QuickJSC/libunicode.c:419-431 | inverting a canonical range twice gives back the same array |
| `PropOps.UnicodePropOps` | Sources/QuickJSC/libunicode.c:1253-1326 | runs to its end iff the stack length passes every assertion, and then leaves for each code point what the program selects; for the program of a set expression these are the members of the denoted set, over the general-category, property and case tables by name |
| `PropOps.BinaryOp` | Sources/QuickJSC/libunicode.c:1286-1305 | the two top sets are replaced by one with the members of either, of both or of exactly one, made in the entry above them |
| `PropOps.InvertOp` | Sources/QuickJSC/libunicode.c:1306-1310 | the top set is replaced by its complement |
| `PropOps.PostfixLength` | Sources/QuickJSC/libunicode.c:1253-1326 | a postfix expression pushes one entry iff its height fits the stack of four |
| `PropOps.ExpressionsEvaluate` | Sources/QuickJSC/libunicode.c:1253-1326 | the program of a set expression runs to its end iff the expression fits the stack, and then selects exactly the denoted set: the table named by each base, joined by or, and, and exclusive or, or complemented |
| `PropTable.UnicodeProp1` | Sources/QuickJSC/libunicode.c:1129-1166 | the decoding loop builds the ranges of the alternating runs of the table |
| `PropTable.MemberIsIn` | Sources/QuickJSC/libunicode.c:205-238 | the linear scan for a code point and the ranges built from the same bytes agree |
| `PropTable.IndexEntries` | Sources/QuickJSC/libunicode.c:172-203 | an index is well formed iff its three-byte entries, 21 bits of code point and 3 bits of offset beside 32 bytes a block, lead to places that decoding passes |
| `PropTable.PassedSame` | Sources/QuickJSC/libunicode.c:172-203 | decoding from a place that the whole decoding passes gives the same answer for every code point from there on |
| `PropTable.GetIndexPos` | Sources/QuickJSC/libunicode.c:172-203 | the binary search returns a negative position iff the code point is beyond the table, and otherwise a place from which decoding may start |
| `PropTable.LreIsInTable` | Sources/QuickJSC/libunicode.c:205-238 | for any table with a well-formed block index, the lookup is true iff the code point lies in the ranges unicode_prop1 builds |
| `Normalize.StableSortUnique` | Sources/QuickJSC/libunicode.c:773-807 | there is one stable sort by combining class |
| `Normalize.InsertChar` | Sources/QuickJSC/libunicode.c:783-794 | the shifting loop inserts a character behind everything of the same or a lower class |
| `Normalize.SortRun` | Sources/QuickJSC/libunicode.c:780-796 | a maximal run of non-starters is stably sorted in place |
| `Normalize.SortCc` | Sources/QuickJSC/libunicode.c:773-807 | starters stay where they are and every maximal run of non-starters is stably sorted by class |
| `Normalize.CanonicalOrderUnique` | Sources/QuickJSC/libunicode.c:773-807 | that determines the result |
| `Normalize.ReorderedIsOrdered` | Sources/QuickJSC/libunicode.c:773-807 | afterwards no two neighbours are out of canonical order |
| `Normalize.OrderedStays` | Sources/QuickJSC/libunicode.c:773-807 | a string in canonical order is left as it is |
| `Hangul.SyllableRoundTrip` | Sources/QuickJSC/libunicode.c:818-851 | composing the decomposition of any Hangul syllable restores it |
| `Hangul.CompositionRoundTrip` | Sources/QuickJSC/libunicode.c:838-851 | decomposing what compose_pair makes of jamo gives back the parts iff the trailing one is not U+11A7 |
| `Composition.Buffer.ToNfdRec` | Sources/QuickJSC/libunicode.c:809-836 | appends the full decomposition of its input |
| `Composition.NfdIsFull` | Sources/QuickJSC/libunicode.c:809-836 | no character of a full decomposition decomposes further |
| `Composition.NfdOfFull` | Sources/QuickJSC/libunicode.c:809-836 | what does not decompose further is left as it is |
| `Composition.FindStarter` | Sources/QuickJSC/libunicode.c:899-912 | on ordered text the search, which compares one class only, returns the last starter iff nothing blocks the character from it (definition D115 of the Unicode Standard) |
| `Composition.ComposeInPlace` | Sources/QuickJSC/libunicode.c:897-923 | the in-place loop computes the character-by-character composition that asks the full blocking condition, given that composites are starters; what that composition is, ComposesPair and BlockedStays say |
| `Composition.UnicodeNormalize` | Sources/QuickJSC/libunicode.c:853-923 | the result is the Latin-1 input for NFC, else the canonically ordered decomposition, composed for the composed forms |
| `NormalForms.CanonicalOrder` | Sources/QuickJSC/libunicode.c:773-807 | canonical ordering written out: starters keep their places, nothing moves across one, no class is followed by a lower one but zero, and the characters of each class keep their order |
| `NormalForms.ComposesPair` | Sources/QuickJSC/libunicode.c:838-851 | a character that is not blocked is composed with the last starter iff the table has the pair, or by the arithmetic of Hangul syllables; otherwise both stay |
| `NormalForms.BlockedStays` | Sources/QuickJSC/libunicode.c:897-923 | a character with no starter in front of it, or with one of its class or a higher one between, stays |
| `NormalForms.FormsAre` | Sources/QuickJSC/libunicode.c:853-923 | only NFKC and NFKD decompose by compatibility, only NFC and NFKC compose, and NFC leaves text below U+0100 alone |
| `NormalForms.CompositeSurvives` | Sources/QuickJSC/libunicode.c:853-923 | NFD takes a primary composite of the table apart and NFC puts it together, whether it or its two characters are given |
| `NormalForms.SyllableForms` | Sources/QuickJSC/libunicode.c:818-923 | every Hangul syllable, by the numbers of its parts, decomposes into their jamo and is composed of them again, in all four forms |
| `Composition.DecomposedFormsStable` | Sources/QuickJSC/libunicode.c:880-889 | normalising a decomposed form again changes nothing |
| `Composition.SyllableComposes` | Sources/QuickJSC/libunicode.c:818-851 | composition restores a decomposed syllable |
| `Utf8.EncodedForms` | Sources/QuickJSC/cutils.c:206-239 | the six forms of an encoding, byte by byte |
| `Utf8.UnicodeToUtf8` | Sources/QuickJSC/cutils.c:204-239 | writes the encoding of any value below 2^31, and nothing for larger ones |
| `Utf8.UnicodeFromUtf8` | Sources/QuickJSC/cutils.c:241-304 | accepts exactly the encodings: what it returns encodes to the bytes consumed, and wherever an encoding begins, whatever follows, it returns the encoded value |
| `Utf8.PrefixFree` | Sources/QuickJSC/cutils.c:206-304 | no encoding is the beginning of another |
| `Utf8.TagFits` | Sources/QuickJSC/cutils.c:215-229 | the value bits of a first byte never reach its tag bits |
| `RefCounts.Released` | Sources/QuickJSC/quickjs-libc.c:3118-3128 | one reference less: the count goes to zero iff it was the last reference |
| `RefCounts.Duplicated` | Sources/QuickJSC/quickjs-libc.c:3130-3135 | one reference more keeps counts equal to references |
| `WorkerSafety.PostAppendSafe` | Sources/QuickJSC/quickjs-libc.c:3431-3446 | appending a message keeps the invariant |
| `WorkerSafety.HandleTakeSafe` | Sources/QuickJSC/quickjs-libc.c:2149-2157 | taking the first message keeps the invariant |
| `WorkerSafety.HandleDrainSafe` | Sources/QuickJSC/quickjs-libc.c:2157-2167 | the draining read finds its byte |
| `WorkerSafety.LockedIsShared` | Sources/QuickJSC/quickjs-libc.c:3177-3198 | a locked pipe has a holder besides the one being released, so no locked mutex is destroyed |
| `WorkerSafety.ReleasePipeSafe` | Sources/QuickJSC/quickjs-libc.c:3177-3198 | releasing a reference, the last one or not, keeps the invariant; the messages left pass to the releasing thread |
| `WorkerSafety.SetOnMessageSafe` | Sources/QuickJSC/quickjs-libc.c:3460-3493 | setting, changing and clearing the handler keep ports and references in step; where the port listens, PointersMeet says |
| `WorkerSafety.FinalizeSafe` | Sources/QuickJSC/quickjs-libc.c:3209-3219 | finalising a Worker object gives up exactly its references |
| `WorkerSafety.StartWorkerSafe` | Sources/QuickJSC/quickjs-libc.c:3304-3384 | a new worker begins with two pipes of two references each |
| `WorkerSafety.StepSafe` | Sources/QuickJSC/quickjs-libc.c:2140-2203 | no step of any thread, whenever it is taken, faults, and every step keeps the invariant |
| `WorkerSafety.EveryRunSafe` | Sources/QuickJSC/quickjs-libc.c:3118-3219 | under every schedule: no pipe, message or shared buffer is used after its release or released twice, no count falls below zero, no locked mutex is destroyed, no draining read blocks |
| `WorkerSafety.NoLostWakeUp` | Sources/QuickJSC/quickjs-libc.c:3432-3446 | at every moment a queued message means a byte in the OS pipe, and when the mutex is free the byte means a queued message |
| `WorkerSafety.ExactlyOnceInOrder` | Sources/QuickJSC/quickjs-libc.c:3432-3446 | what was received followed by what is queued is what was sent: in order, nothing lost, doubled or altered |
| `WorkerSafety.PipeLiveness` | Sources/QuickJSC/quickjs-libc.c:3137-3198 | a pipe exists iff some pointer of a thread, Worker object or port leads to it, and its count is their number |
| `WorkerSafety.SabLiveness` | Sources/QuickJSC/quickjs-libc.c:3108-3135 | a shared buffer exists iff some object or message entry refers to it, and its count is their number |
| `WorkerSafety.NoMessageLeaks` | Sources/QuickJSC/quickjs-libc.c:3165-3175 | every message is in the queue of a live pipe or in the hands of one thread |
| `WorkerSafety.LockHolderProceeds` | Sources/QuickJSC/quickjs-libc.c:2149-2169 | a thread that has locked a mutex can always take its next step |
| `WorkerRouting.StepKeepsRoutes` | Sources/QuickJSC/quickjs-libc.c:3226-3493 | every step keeps the routing: two pointers lead to one pipe iff they are ends of one channel, down to a thread or up from it |
| `WorkerRouting.PointersMeet` | Sources/QuickJSC/quickjs-libc.c:3226-3493 | in every reachable state a port listens to the pipe its Worker object receives from, the Worker object of a thread and the two pointers of that thread meet crosswise, so do Worker.parent and its thread, and an object sends to a port iff they belong to the two ends of one thread |
| `WorkerRouting.MessagesDelivered` | Sources/QuickJSC/quickjs-libc.c:3385-3458 | end to end, under every schedule: what ports at one end of a channel have taken is, in contents and order, the first of what was given to postMessage at the other end, and the rest is what is queued while the channel has an end |
| `WorkerRouting.HandlerReads` | Sources/QuickJSC/quickjs-libc.c:2149-2175 | the message taken from the queue is the one that is read behind the mutex, and each buffer object made refers to the buffer at its place in the message |
| `WorkerProgress.PostEnds` | Sources/QuickJSC/quickjs-libc.c:3426-3447 | with the mutex free, postMessage goes through by steps of its thread alone: the message is the last of the queue to which the object sends, and the OS pipe gets a byte iff the queue was empty |
| `WorkerProgress.HandleEnds` | Sources/QuickJSC/quickjs-libc.c:2140-2203 | with the mutex free, the first message leaves the queue for the thread of the port, the last one with the byte of the OS pipe; an empty queue is left alone |
| `WorkerProgress.ReleaseEnds` | Sources/QuickJSC/quickjs-libc.c:3165-3208 | releasing always comes to its end by steps of the thread alone, and then exactly the pointers to be released and the messages are gone |
| `WorkerProgress.FinalizeEnds` | Sources/QuickJSC/quickjs-libc.c:3210-3219 | the finaliser of a Worker object comes to its end with the object, its handler and its three pointers gone |
| `WorkerProgress.ExitEnds` | Sources/QuickJSC/quickjs-libc.c:3752-3782 | the end of a thread comes to its end with the two pointers of the thread gone |
| `WorkerProgress.HandlerIsLastSet` | Sources/QuickJSC/quickjs-libc.c:3471-3491 | under every schedule the handler of a Worker object is the last one set and not taken away |
| `WorkerProgress.IdleProceeds` | Sources/QuickJSC/quickjs-libc.c:3304-3493 | an idle thread may always set a handler and ask for Worker.parent, and the main thread start a thread |

## Left out

- Emission from pattern text: the compiler starts from the syntax tree, and `RegexPrescan` models the text separately without code. A tree stands for a pattern that the text parser has read.
- Named groups appended behind the bytecode, `lre_get_capture_count`, `lre_get_flags` and error messages.
- Case folding: `Flags.canon` is any function, applied where `lre_canonicalize` is; `cr_canonicalize` of class ranges is not modelled.
- Allocation failure, the check for native stack overflow and the sizes of C integers where a stated bound keeps values inside them: `RegexEmit.Small` and `RegexCompile.Compilable` require the code of every part of a pattern to fit 32-bit offsets.
- RegexVm.ExecContext.ExecBacktrack: requires that the run stops, because a method must terminate; `SafeProgramsHalt` says when it does, and `RegexMachine.Steps` covers the runs that do not.
- RegexVm.LreExec: requires that the matcher comes to a result, which by `ProgramCorrect` is that the run stops.
- RegexVm.RunGreedy: also stops when a run of the atom does not move the pointer, where the original would spin; only bytes that the compiler never emits have such an atom.
- RegexTermination.SafeProgramsHalt: is one direction; the loops it leaves out can spin but need not on a given subject. `GreedyLoopHalts` and `LazyLoopHalts` say exactly when they halt for atoms with at most one way to match; atoms with several ways have only the sufficient conditions `GreedySpins` and `LazySpins`.
- RegexSearch.LeftmostSearch: starts at a code-point boundary; from the middle of a surrogate pair PREV_CHAR does not undo GET_CHAR (`BackUndoesGet`).
- RegexPrescan.ReParser.ParsePattern: says nothing of which patterns are accepted, only that on those the counts agree; the values of escapes, numbers and characters are stated by the methods that read them.
- RegexPrescan: looking up a name with re_parse_captures, the Unicode identifier and property tables and the check for duplicate names are answers given to the parser as functions.
- CharRangeOps.CharRange.UnionInterval: is stated for c2 below UINT32_MAX, because the pair of points denotes the interval exactly then (`IntervalDenoted`); the callers pass code points.
- CharRangeOps.CharRange.Operate: starts from an empty range, as every caller does.
- The generators of general-category, property and case sets, and the concrete Unicode tables: `PropOps.Tables` gives their ranges as functions.
- Composition: decomposition and composition tables are parameters, and that the Latin-1 shortcut of NFC agrees with the long way is not stated, since it is a fact about the tables.
- Sort.Rqsort: elements are abstract and `cmp` is a function, so the exchange routines for each element size, and a `cmp` that is not a total preorder, are not modelled.
- WorkerSafety.EveryRunSafe: is about pipes, messages and shared buffers. The port records are not modelled as memory, and finalisers run between the other operations of their thread, although the garbage collector may also run them while a message is deserialised.
- WorkerPipe.Worker: carries the thread it was made with (`peer`), which the original does not store; no step looks at it, it only names the object.
- Worker threads are modelled on values, not as objects: their steps interleave, and a method would fix an order. The writes to the OS pipe succeed, the contents of messages are opaque, and select, timers and the port list as a linked list are not modelled.
- The Swift bindings, file, process and terminal functions, and object serialisation.
