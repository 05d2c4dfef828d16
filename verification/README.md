# Verification of the Oniguruma 5.6.1 core

A model, in Dafny, of the regular-expression engine under `Dependencies/oniguruma5`: the compiler from
parse trees to byte code, the backtracking matcher, the rewrites made before compilation, the analysis
and the fast search built on it, the character-class sets, the search for character heads in multi-byte
text, and the hash table. `dafny verify dfyconfig.toml` checks all of it.

## How it is put together

**Trees and what they mean.** `Regparse` holds the parse trees, `Meaning` the reference semantics:
`Ends(n, ml, x, cfg, s)` is the list of end positions of the matches of `n` from `s`, in the order in
which backtracking finds them. It knows no stack and no instruction, but it does ask which form a repeat
is compiled to (`FormOf`, through `CompileLength`): that decides whether a round the lower bound asks for
is watched by the empty check, and whether a loop consults its heads. `Declared` is the reference without
any of this: `Matches`, the relation between starts and ends that the expression describes. For trees
without atomic groups, and without anchors or look-around inside a repeat, the two have the same ends
(`Declared.EndsAreMatches`), and `Declared.OnigMatch` and `Declared.OnigSearch` are specified by it alone;
`Declared.LookInsideDiffers` shows why look-around inside a repeat is apart.

**Compiler.** `Regcomp` says, as functions, what each part of the compiler appends, and that the
predicted lengths are exact. `Compiler` is the compiler as it runs, with its loops and its growing
buffer, proved equal to those functions. `Regint` has the instructions and their sizes.

**Matcher.** `Machine` is the control part of `match_at` as a step function; its state `Stuck` stands
for everything that must never happen. `Enumeration` to `TreeCorrect` prove compiler correctness
against the semantics, `ProgramCorrect` termination and the absence of `Stuck`. `Layout` and
`CodeLayout` prove where jumps land; `Undoing`, `Tables`, `PopLevels`, `Captures` and `Unwinding` prove
what the stack, the counter table, the pop levels and the capture cells keep. `Matcher` and `MatchAt`
are `match_at` itself: a class whose methods change the stack and the cells in place. With every stack
entry it keeps, for the proof only, what the capture cells held when the entry was pushed.

**Captures.** `Spans` says where the groups of a tree may begin and end. The machine has a second mode, in
which it notes on the stack where every group opens and closes; compiler correctness covers both, so what a
path has noted are spans in which the bodies of the groups match. `Cells` has what each instruction does to
the capture cells, which the methods of `Matcher` are proved to do. `Noting` proves that the matcher runs as
the noting machine does, `Levels`, `TreeLevels` and `PathLevels` that groups are opened in a fixed order
wherever they have no undo bit, and `Truth` and `Alongside` that the cells always lead to what has been
noted, also after backtracking. `Regions` and `MatchAt` join this at OP_END, `MemoryBits` has the undo bits
that set-up asks for, and `SourceSpans` leads back to the parse tree.

**Rewrites.** `Setup` is `setup_tree`; `SetupMeaning`, `SetupCorrect` and `SetupReady` prove that it
keeps the ordered results, `Misled` and `EmptyLoops` exactly when it does not. `LookBehinds` is about
look-behind and its division, `LengthsExact` about the lengths it rests on, `Reduction`, `ReductionMeaning`
and `ReductionOrder` about nested repeats.

**Search.** `Optimize` is the analysis, `OptimizeSound`, `LastRepeat` and `DotStar` its soundness,
`LostLiterals` says when it loses a literal, `Searching` has the literal and map searches, `Search` the
search driver, `SearchLongest` the driver with FIND_LONGEST, and `SearchReady` gives simple signs of a
parse tree that the analysis can be trusted with. `Regex` joins
everything: a method for matching at one position and two for searching, specified by the semantics of the
tree as it was parsed wherever the code keeps it. `FixedRepeat`, `StarAnchor`, `RefusedSearch`, `Forgetting`
and `StaleCapture` apply them to inputs where it does not.

**Sets, heads, table.** `CodeRange`, `RangeBuffer`, `RangeSets`, `RangeAlgebra` and `ClassAlgebra` are
the interval arrays and character classes; `CharHeads`, `DoubleByte` and `Gb18030` find character
heads; `HashTable` is the hash table.

## Conventions

- The matcher runs on single-byte text, case-sensitive, with the default switches of
  `Dependencies/oniguruma5/regint.h` lines 57 to 92 and without subexpression calls. The byte behind the
  text is a free parameter, so nothing depends on it.
- One cell of a program is one byte of code. The first cell of an instruction carries the opcode and
  its decoded operands, the others stand for the operand bytes, so addresses and lengths are those of
  the C code.
- `Parsed` is what the parser guarantees of a tree inside the modelled part; so it repeats no anchor, no
  look-around and no alternation that has one for an alternative (`Setup.InvalidTarget` is
  `is_invalid_quantifier_target`, `regparse.c` lines 2141 to 2169). `Ready` is what set-up leaves: an
  unbounded loop has a body that cannot match empty, or the empty check. Set-up makes every parsed tree
  ready (`SetupReady.SetupIsReady`).
- `Matcher.Matcher` holds its stack as a sequence and its cells as maps. Saved capture cells are stack
  indices or text positions, kept apart by a datatype.
- Proofs that go through the solver quickly only with little in view begin with `hide`.

## Where the code does not keep its promise

Each of these has an input that shows it, a tree the parser builds, and the condition, which is exact except
where "Left out" says that it is only sufficient.

- `(?>(?:)*)`: turning an atomic group around a repeat of the empty string into a simple repeat makes a
  loop that does not end (`EmptyLoops.NeverHalts`). A simple repeat ends if and only if its body is not
  the empty string (`EmptyLoops.SimpleHalts`), an atomic group if and only if it is not such a loop
  (`EmptyLoops.AtomicHalts`).
- `(?:b|c)*(?:(?:(?=a)(?=a)){0,3})+` on the empty text: a loop that takes over the head of an inner repeat
  which may run zero times makes the loop in front of it wait for a byte that need not come
  (`Misled.HeadMoves`).
  This happens to every such loop and to no other (`Misled.KeptExactly`); without one the whole tree keeps
  its results (`SetupCorrect.SetupEnds`).
- `(ab){2}c` on `ababc`: the literal of a fixed repeat leaves out one copy and is still joined with what
  follows, and the search misses the match (`FixedRepeat.MissesFixed`). The claim about `X{n,n}` is right
  if and only if the copied literal is not taken to reach the end (`FixedRepeat.FixedExactly`). Where
  nothing stands behind the repeat, a search without `.*` is right all the same (`LastRepeat.TrailSound`).
- `(?!a).*b` on `ab`: a look-around in front of a leading `.*` leaves the anchor that skips starts, and the
  search misses the match (`StarAnchor.MissesLook`). The anchor is right if and only if what stands in
  front holds backwards along the line (`StarAnchor.AnchorExactly`); for a literal this is a matter of its
  ends (`StarAnchor.LiteralExactly`), for one character of the bytes it takes (`StarAnchor.CharExactly`).
- `(?>.*a|.*b)c` on `a`, a zero byte, `b`, `c`: the same anchor is kept for the alternatives of an atomic
  group, and the search misses the match (`StarAnchor.MissesChoice`). For any three bytes it is right if and
  only if `a` and `b` are the same, or `a` is a newline the dot stops at, or `c` is one of the two and `b` is
  not such a newline (`StarAnchor.ChoiceExactly`).
- `(?=a[\x80]|a[\x81]|...|a[\xb3]).*x`, with 52 alternatives, on `a`, `\x80`, `x`: the literal that the
  look-ahead asks for is cut to what the next item can take, `.*` makes that length negative, and the search
  fails with `ONIGERR_MEMORY` (`RefusedSearch.RefusesMatch`). It fails so if and only if the cut literal is
  chosen and the byte map is empty or weighs more than 200 (`LostLiterals.RefusedExactly`); never for an
  expression in which nothing that can take more than 0x7fffffff bytes stands behind a positive look-ahead
  with a literal (`LostLiterals.NeverRefused`). The contracts of the four search methods say both.
- `a|ab|` on `abc`, with `FIND_LONGEST` together with `FIND_NOT_EMPTY`: the best result is forgotten when
  an empty one follows (`Forgetting.LosesLongest`; exact condition in `MatchAt.BothOutcome`).
- The empty expression on `a`, searched for with both options: the place of an empty match is returned
  (`Forgetting.ReturnsEmpty`). This happens if and only if something matches and no start has a match that
  is not empty (`SearchLongest.NotEmptyKept`).
- `(?:(?=())a?){3}a` on `a`: `setup_tree` gives an undo bit to groups under a repeat with different bounds
  only (`regcomp.c` lines 3803 to 3810), but a counter with equal bounds leaves at an empty round. The second
  round captures behind the `a`, is taken back, and its capture is what the region has
  (`StaleCapture.StaleCapture`). Where no such counter may leave early the region has the captures of the
  match (`Regex.Match`, `MemoryBits.SetupSteady`), and this is so wherever no group is inside a look-around
  (`MemoryBits.OpenSteady`).
- `(?:a+?)*` on `aa`: the table of nested repeats makes it `(?:a+?)?`, and `(?:a+?)+` becomes `a+?`. The set
  of matches is the same, but the first one takes one letter where the nested repeats take both
  (`ReductionOrder.FirstLost`). The other 34 nestings keep the first match (`ReductionOrder.FirstExactly`).
- Inserting 3 to 8 beside 0 to 5: an interval at code 0 can be missed (`CodeRange.InsertedUnsorted`; exact
  condition in `CodeRange.InsertedSorted`).

One function does not do what it is for, though no pattern gets there: `and_code_range1` drops the last piece
of an interval when another interval follows (`ClassAlgebra.AndNotLoses`), and wraps at the end of the code
space (`RangeSets.CutWrapped`). The difference comes out right if and only if neither happens
(`RangeSets.DifferenceExactly`). But `parse_char_class` sets the flag of negation at its very end
(`regparse.c` lines 4346 to 4349) and takes nested classes in with `or_cclass`, so both classes that
`and_cclass` is given (lines 4303 and 4340) are plain, and `and_code_range1` is not called: a bracket
expression holds what it says (`ClassAlgebra.BracketMeans`).

## Model

| member | source | states |
|---|---|---|
| Regcomp.CompileTree | Dependencies/oniguruma5/regcomp.c:1482-1740 | compile_tree only appends, and appends exactly the number of bytes compile_length_tree predicts, for every tree and option state |
| Regcomp.CompileQuant | Dependencies/oniguruma5/regcomp.c:959-1149 | the same exactness for whichever of the seven code shapes of a repeat is chosen |
| Regcomp.CompileAlt | Dependencies/oniguruma5/regcomp.c:1589-1618 | the same exactness for alternations, whose jumps are computed from the predicted lengths |
| Compiler.PatternBuffer.CompileTree | Dependencies/oniguruma5/regcomp.c:1575-1740 | the running compile_tree leaves exactly the code, repeat table and counters that the function of the same name describes, and the options as they were |
| Compiler.PatternBuffer.CompileList | Dependencies/oniguruma5/regcomp.c:1582-1587 | the loop over a list appends what the recursion appends |
| Compiler.PatternBuffer.CompileAlt | Dependencies/oniguruma5/regcomp.c:1589-1618 | the two loops over an alternation: the first computes the goal address that the jumps of the second are relative to |
| Compiler.PatternBuffer.CompileTimes | Dependencies/oniguruma5/regcomp.c:400-410 | the loop of compile_tree_n_times |
| Compiler.PatternBuffer.CompileOptional | Dependencies/oniguruma5/regcomp.c:1122-1137 | the loop for the copies past the lower bound, each with a jump to the common end |
| Compiler.PatternBuffer.CompileEmptyCheck | Dependencies/oniguruma5/regcomp.c:353-382 | compile_tree_empty_check: numbered start and end around the body |
| Compiler.PatternBuffer.CompileCounter | Dependencies/oniguruma5/regcomp.c:674-708 | compile_range_repeat_node: the body is compiled after the table entry of its counter |
| Compiler.PatternBuffer.CompileQuant | Dependencies/oniguruma5/regcomp.c:1024-1149 | compile_quantifier_node takes the branch that FormOf names |
| Compiler.PatternBuffer.CompileOption | Dependencies/oniguruma5/regcomp.c:1172-1196 | compile_option_node puts the options back |
| Compiler.PatternBuffer.AddMultiByteCClass | Dependencies/oniguruma5/regcomp.c:547-568 | add_multi_byte_cclass puts the ranges at an aligned address and appends the same number of bytes wherever the buffer lies |
| Compiler.PatternBuffer.CompileCClass | Dependencies/oniguruma5/regcomp.c:570-641 | compile_cclass_node appends an opcode and a pointer, or the bits, the ranges and their padding as far as there are any, which is the number of bytes compile_length_cclass_node returns |
| LengthSound.MinLenSound | Dependencies/oniguruma5/regcomp.c:2017-2138 | no match is shorter than get_min_match_length says |
| LengthSound.CharLenSound | Dependencies/oniguruma5/regcomp.c:2261-2382 | if get_char_length_tree1 accepts a tree with a length, every match is exactly that long |
| LengthsExact.CharLenExactly | Dependencies/oniguruma5/regcomp.c:2261-2382 | get_char_length_tree finds a length exactly where all matches are equally long: where it finds none, two texts of different lengths are matched as a whole |
| LengthsExact.TopAltExactly | Dependencies/oniguruma5/regcomp.c:2280-2311 | GET_CHAR_LEN_TOP_ALT_VARLEN is returned exactly for an alternation at the top whose alternatives each have a length, but not all the same |
| LengthsExact.MinLenAttained | Dependencies/oniguruma5/regcomp.c:2017-2138 | get_min_match_length is the length of some match where nothing saturates and nothing looks around |
| Ctypes.ByTable | Dependencies/oniguruma5/regenc.c:248-281 | the word test and the newline of matcher and semantics are, for every byte, the bits of the ctype table |
| Enumeration.VoidToMark | Dependencies/oniguruma5/regexec.c:774-802 | closing a group finds its own opening mark whatever lies above it, blanks the choice points above it and keeps every undo entry |
| Enumeration.PopTilMark | Dependencies/oniguruma5/regexec.c:734-772 | failing a negative look-around undoes exactly down to its own opening mark |
| Enumeration.PopThrough | Dependencies/oniguruma5/regexec.c:690-732 | a stretch of the stack without choice points is popped as a whole |
| Loops.CopiesImpl | Dependencies/oniguruma5/regcomp.c:1122-1137 | inline copies of {n,m} enumerate the results of the repeat in order |
| Loops.LazyOptionImpl | Dependencies/oniguruma5/regcomp.c:1138-1144 | the code of ?? enumerates the results of the repeat in order |
| LoopBody.EachClosed | Dependencies/oniguruma5/regexec.c:2383-2415 | a loop body with its empty check: every round of every result is enumerated, and an empty round leaves the loop |
| PushLoops.StarImpl | Dependencies/oniguruma5/regexec.c:1855-1917 | OP_ANYCHAR_STAR and its peeking form enumerate the results of .* in order |
| Counters.CounterEach | Dependencies/oniguruma5/regexec.c:2586-2648 | OP_REPEAT_INC with its count on the stack enumerates the rounds of a counted repeat, and backtracking restores the count |
| Quantifiers.PushLoopImpl | Dependencies/oniguruma5/regcomp.c:1051-1110 | the greedy unbounded loop, entered directly or by a jump and with any of its three heads, enumerates the results of the repeat in order |
| Quantifiers.LazyLoopImpl | Dependencies/oniguruma5/regcomp.c:1111-1118 | the lazy unbounded loop enumerates the results of the repeat in order |
| Quantifiers.AnycharStarImpl | Dependencies/oniguruma5/regcomp.c:1034-1051 | the .* form of a repeat enumerates its results in order |
| Quantifiers.CounterImpl | Dependencies/oniguruma5/regcomp.c:674-708 | the OP_REPEAT form of a repeat enumerates its results in order |
| Quantifiers.QuantImpl | Dependencies/oniguruma5/regcomp.c:1024-1149 | whichever form compile_quantifier_node chooses, the code enumerates the results of the repeat in order |
| CompilerCorrect.MarkedAt | Dependencies/oniguruma5/regexec.c:2650-2688 | a body between an opening and a closing mark delivers its first result and leaves no choice point of its own |
| CompilerCorrect.NotAt | Dependencies/oniguruma5/regexec.c:2666-2676 | a body between a negative mark and its failing instruction succeeds exactly when the body has no result |
| CompilerCorrect.SimpleRepeatImpl | Dependencies/oniguruma5/regcomp.c:1330-1347 | the PUSH, body, POP, JUMP loop of an atomic simple repeat keeps only the last choice, and OP_POP drops the entry its OP_PUSH pushed |
| TreeCorrect.GroupImpl | Dependencies/oniguruma5/regcomp.c:1287-1326 | a capture group enumerates the results of its body in order |
| TreeCorrect.AtomicImpl | Dependencies/oniguruma5/regcomp.c:1348-1356 | an atomic group delivers the first result of its body only |
| TreeCorrect.LookImpl | Dependencies/oniguruma5/regcomp.c:1398-1480 | look-ahead and look-behind, positive and negative, are zero-width tests of their bodies |
| TreeCorrect.TreeImpl | Dependencies/oniguruma5/regcomp.c:1575-1740 | compiler correctness: from any position and on any stack the compiled code of a tree leaves at its end with the ordered results of the tree one after the other, then falls back to the older stack |
| ProgramCorrect.ProgramEnum | Dependencies/oniguruma5/regexec.c:1338-1364 | the same for a whole program above the bottom entry |
| ProgramCorrect.ProgramHalts | Dependencies/oniguruma5/regexec.c:1341-2788 | termination: every run stops, at OP_END with the first result if there is one, at OP_FINISH otherwise |
| ProgramCorrect.NeverStuck | Dependencies/oniguruma5/regexec.c:2383-2411 | in no reachable state does control leave the instructions, a scan pass the bottom entry, OP_POP drop anything but a choice point, or an empty check meet an unexpected opcode |
| Layout.PartSeq | Dependencies/oniguruma5/regcomp.c:1575-1740 | stretches of code whose addresses stay inside can be put together |
| CodeLayout.TreeFrag | Dependencies/oniguruma5/regcomp.c:1575-1740 | in the code of every tree each address lands on an instruction or on the end of the fragment, each counter is closed by its own increment, each empty check is followed by the instruction that closes its loop, and the undo bits of groups are kept |
| CodeLayout.AroundFrag | Dependencies/oniguruma5/regcomp.c:674-708 | a counter around a body in which nothing uses the index table is a closed fragment again, and its own increment uses the table only outside all loops |
| CodeLayout.QuantFrag | Dependencies/oniguruma5/regcomp.c:1024-1149 | the same facts for every code shape of a repeat |
| ProgramLayout.WholeProgram | Dependencies/oniguruma5/regcomp.c:5328-5511 | the same for whole programs |
| Undoing.StepKeeps | Dependencies/oniguruma5/regexec.c:566-603 | one step of any program keeps each counter on the stack equal to the number of live increments that point at it |
| Undoing.RunKeeps | Dependencies/oniguruma5/regexec.c:690-732 | counts are exact in every reachable state of every program |
| Undoing.UndoKeeps | Dependencies/oniguruma5/regexec.c:713-731 | popping an entry takes its effect back and never fails |
| Tables.StepTable | Dependencies/oniguruma5/regexec.c:2551-2608 | repeat_stk keeps pointing at the counters of the running loops through every step, backtracking included |
| Tables.TableFinds | Dependencies/oniguruma5/regexec.c:2586-2608 | where OP_REPEAT_INC reads repeat_stk, a search of the stack would find the same entry |
| PopLevels.StepKinds | Dependencies/oniguruma5/regcomp.c:5465-5472 | no step pushes an entry kind that the chosen pop level does not look for |
| PopLevels.LevelPops | Dependencies/oniguruma5/regexec.c:690-732 | so at the lower pop levels dropping an entry is the full undo |
| Captures.MemPush | Dependencies/oniguruma5/regexec.c:582-603 | the saved values of a capture entry are those from before it was pushed |
| Captures.AllPop | Dependencies/oniguruma5/regexec.c:701-731 | the values restored by popping a capture entry are the ones the rest of the stack tells |
| Captures.RecordPush | Dependencies/oniguruma5/regexec.c:566-603 | what the capture cells hold when an entry is pushed is what the stack under the entry tells |
| Captures.RecordSame | Dependencies/oniguruma5/regexec.c:774-802 | counting, undoing a count and blanking choice points leave what was recorded under every entry true |
| Unwinding.UnwoundMem | Dependencies/oniguruma5/regexec.c:713-731 | capture cells that agree with the unwound stack agree with the old stack cut at that height |
| Matcher.Matcher.Start | Dependencies/oniguruma5/regexec.c:1308-1341 | cleared capture cells and the bottom entry |
| Matcher.Matcher.PushMemStart | Dependencies/oniguruma5/regexec.c:582-592 | STACK_PUSH_MEM_START: the entry, the new cells, and the invariant that ties all capture cells to the stack |
| Matcher.Matcher.PushMemEnd | Dependencies/oniguruma5/regexec.c:594-603 | STACK_PUSH_MEM_END likewise |
| Matcher.Matcher.DropUndo | Dependencies/oniguruma5/regexec.c:713-731 | one full undo: what is restored and what is not touched |
| Matcher.Matcher.Unwind | Dependencies/oniguruma5/regexec.c:690-732 | one round of STACK_POP at the chosen level has the effect of the full undo |
| Matcher.Matcher.StackPop | Dependencies/oniguruma5/regexec.c:690-732 | undo exactness: STACK_POP resumes the last choice point at its height, and the capture cells of every group with both undo bits get the values recorded when it was pushed |
| Matcher.Matcher.PopTilMark | Dependencies/oniguruma5/regexec.c:734-772 | STACK_POP_TIL_POS_NOT and STACK_POP_TIL_LOOK_BEHIND_NOT |
| Matcher.Matcher.VoidToMark | Dependencies/oniguruma5/regexec.c:774-802 | STACK_POS_END and STACK_STOP_BT_END overwrite entries in place |
| Matcher.Matcher.GetRepeat | Dependencies/oniguruma5/regexec.c:926-942 | STACK_GET_REPEAT finds the topmost counter with the number |
| Matcher.Matcher.NullCheck | Dependencies/oniguruma5/regexec.c:804-816 | STACK_NULL_CHECK compares with the position its own loop started from |
| Matcher.Matcher.MatchString | Dependencies/oniguruma5/regexec.c:1475-1577 | the string comparison loop: all bytes and no reading behind the end |
| Matcher.Matcher.ExecStar | Dependencies/oniguruma5/regexec.c:1855-1917 | the loop of OP_ANYCHAR_STAR and its peeking form pushes a choice point for every start it passes |
| Matcher.Matcher.ExecRepeat | Dependencies/oniguruma5/regexec.c:2551-2584 | OP_REPEAT and OP_REPEAT_NG |
| Matcher.Matcher.ExecInc | Dependencies/oniguruma5/regexec.c:2586-2648 | the four increments, with the counter taken from the table or from the stack |
| Matcher.Matcher.ExecNullEnd | Dependencies/oniguruma5/regexec.c:2383-2415 | OP_NULL_CHECK_END skips the instruction that would close an empty loop |
| Matcher.Matcher.ExecBehind | Dependencies/oniguruma5/regexec.c:2690-2721 | the look-behind instructions |
| Matcher.Matcher.ExecMem | Dependencies/oniguruma5/regexec.c:2126-2150 | OP_MEMORY_START and OP_MEMORY_END, with or without push: the cell of the group gets the old text position, or the index of the entry that saves the old cells, and no other cell changes |
| Matcher.Matcher.CopyRegion | Dependencies/oniguruma5/regexec.c:1400-1420 | OP_END copies the two positions of every group whose end cell is set, looked up through the stack where the group has the undo bit, and nothing for the others |
| Matcher.Matcher.ExecInstr | Dependencies/oniguruma5/regexec.c:1341-2788 | one round of the main loop has the effect of the instruction on the control state, leaves in the capture cells of every group exactly what the instruction puts there, keeps the index table, and rewrites nothing recorded for an entry that stays |
| Matcher.Matcher.Round | Dependencies/oniguruma5/regexec.c:1341-2752 | a round with its backtracking keeps all invariants and follows the run of the machine, capture cells included |
| MatchAt.FirstOutcome | Dependencies/oniguruma5/regexec.c:1364-1473 | without options OP_END keeps the first result |
| MatchAt.NotEmptyOutcome | Dependencies/oniguruma5/regexec.c:1364-1473 | with FIND_NOT_EMPTY the first result that is not empty |
| MatchAt.LongestOutcome | Dependencies/oniguruma5/regexec.c:1364-1473 | with FIND_LONGEST the longest of all results if it beats the search so far; stopping early at the end of the text loses nothing |
| MatchAt.BothOutcome | Dependencies/oniguruma5/regexec.c:1364-1473 | with both options, in any call of a search: the longest result, if it is not empty and beats the search so far, is kept if and only if it reaches the end of the text or no empty result follows it; the best length of the search grows to it all the same |
| Forgetting.LosesLongest | Dependencies/oniguruma5/regexec.c:1364-1473 | an expression and a text where an empty alternative loses the match already found |
| Forgetting.ReturnsEmpty | Dependencies/oniguruma5/regexec.c:3706-3714 | an expression and a text where a search with both options returns a place with an empty match only |
| CompilerCorrect.GroupStep | Dependencies/oniguruma5/regexec.c:2126-2150 | on a machine that notes every opening and closing of a group, the code of a group notes a span in which its body matches, for each of its results |
| Noting.ExecStrip | Dependencies/oniguruma5/regexec.c:1341-2788 | the matcher runs as that machine does: its stack is the other one without the notes |
| TreeLevels.TreeLevels | Dependencies/oniguruma5/regcomp.c:1287-1326 | in the code of every tree control reaches an address with the same groups open and, for groups without undo bit, after the same number of openings, those of a counter with equal bounds counted by rounds |
| PathLevels.StepLeveled | Dependencies/oniguruma5/regexec.c:1341-2788 | every step of the noting machine, backtracking included, keeps to these levels, under every choice point too |
| Alongside.RunsTogether | Dependencies/oniguruma5/regexec.c:690-732 | along every run the capture cells, now and after everything that can be taken back, lead to what the path has noted |
| Regions.RegionCaptures | Dependencies/oniguruma5/regexec.c:1400-1420 | at OP_END the region has for every group that the path has noted its last span, from a to b with a at most b, in which its body matches, and nothing for the others |
| MatchAt.MatchAt | Dependencies/oniguruma5/regexec.c:1288-2788 | match_at with its stack, tables and capture cells returns what the reference semantics of the tree and the options ask for; the region is what the cells say at the arrival it takes, and, where no group without undo bit is under an alternation, a negative look-around or a repeat but one that makes all its rounds, the captures of that match |
| MemoryBits.SetupSteady | Dependencies/oniguruma5/regcomp.c:3803-3810 | with the undo bits that setup_tree asks for, the finished tree is one of these if and only if no counter with equal bounds round a group without the bit stops at an empty round |
| MemoryBits.OpenSteady | Dependencies/oniguruma5/regcomp.c:3803-3810 | and so it always is where no group is inside a look-around or a {0} |
| SourceSpans.SetupSpan | Dependencies/oniguruma5/regcomp.c:3644-3888 | a span of a group in the finished tree is one of the same group in the parse tree |
| StaleCapture.StaleCapture | Dependencies/oniguruma5/regexec.c:2383-2415 | an expression and a text for which the region has a capture of a round that was taken back |
| SetupMeaning.LeadSound | Dependencies/oniguruma5/regcomp.c:2566-2651 | every match of a tree starts with a match of the node get_head_value_node finds without looking at the heads of loops |
| SetupMeaning.HeadSound | Dependencies/oniguruma5/regcomp.c:2566-2651 | every match of a tree whose loops carry true heads starts with a match of the node get_head_value_node returns |
| SetupMeaning.NotIncludedSound | Dependencies/oniguruma5/regcomp.c:2391-2564 | where is_not_included returns 1, no position matches both nodes |
| SetupMeaning.PeekRep | Dependencies/oniguruma5/regexec.c:2538-2549 | a peeking loop loses only ends from which the next node cannot match, whatever byte lies behind the text |
| SetupMeaning.PossessRep | Dependencies/oniguruma5/regcomp.c:3135-3176 | the possessive form of X* loses only ends from which the next node cannot match |
| SetupMeaning.SimpleIsFirst | Dependencies/oniguruma5/regcomp.c:1330-1347 | the simple repeat has exactly the first result of the atomic group it stands for |
| EmptyLoops.NeverHalts | Dependencies/oniguruma5/regcomp.c:1330-1347 | the simple repeat of the empty string runs in a circle of three instructions: no number of steps ends it |
| EmptyLoops.SimpleHalts | Dependencies/oniguruma5/regcomp.c:3812-3825 | a simple repeat stops, on every text and from every start, if and only if its body is not the empty string |
| EmptyLoops.AtomicHalts | Dependencies/oniguruma5/regcomp.c:3812-3825 | an atomic group of the parse tree stops after set-up if and only if it is not a greedy loop, with no lower bound past 1, round the empty string |
| SetupCorrect.ExpandEnds | Dependencies/oniguruma5/regcomp.c:3752-3771 | a repeated string written out has the results of the repeat |
| SetupCorrect.NextPrune | Dependencies/oniguruma5/regcomp.c:3135-3176 | next_setup loses only ends from which the next node cannot match |
| SetupCorrect.SetupFormed | Dependencies/oniguruma5/regcomp.c:3644-3888 | set-up keeps trees well formed |
| SetupCorrect.SetupEnds | Dependencies/oniguruma5/regcomp.c:3644-3888 | setup_tree, with automatic possessification, peek-next heads, heads of loops, expanded strings and simple atomic repeats, keeps the ordered results of every tree in which no loop takes over the head of a repeat that may run zero times |
| SetupReady.SetupMin | Dependencies/oniguruma5/regcomp.c:2017-2138 | set-up keeps the minimum length |
| SetupReady.SetupChar | Dependencies/oniguruma5/regcomp.c:2261-2382 | set-up keeps the character length |
| SetupReady.SetupIsReady | Dependencies/oniguruma5/regcomp.c:3720-3744 | after set-up every unbounded loop has a body that advances or an empty check |
| SetupReady.SetupHeads | Dependencies/oniguruma5/regcomp.c:3773-3786 | set-up gives a loop a head of its own if and only if the tree is not head-free |
| SetupReady.PlainlyHeadFree | Dependencies/oniguruma5/regcomp.c:3773-3786 | without positive look-ahead and length overflow every tree is head-free |
| Misled.KeptExactly | Dependencies/oniguruma5/regcomp.c:3773-3786 | a repeat whose body is kept has its results kept, alone and behind another loop, if and only if it does not take over the head of an inner repeat that may run zero times |
| Misled.LosesMatch | Dependencies/oniguruma5/regcomp.c:3773-3786 | every such repeat that has to run makes a loop in front of it miss a match |
| Misled.FewerResults | Dependencies/oniguruma5/regcomp.c:3773-3786 | every such repeat that need not run loses a result of its own |
| Misled.HeadFreeUnmisled | Dependencies/oniguruma5/regcomp.c:3773-3786 | a tree in which set-up gives no loop a head is not misled |
| Misled.HeadMoves | Dependencies/oniguruma5/regcomp.c:3773-3786 | an expression and a text whose match disappears |
| Regex.CompileProgram | Dependencies/oniguruma5/regcomp.c:5328-5511 | compile_tree and OP_END give the program the correctness theorems are about |
| Regex.Match | Dependencies/oniguruma5/regexec.c:1288-2788 | set-up, compilation and match_at together give the outcome of the finished tree for every parse tree, and of the parse tree itself where no loop is misled; and the captures: with the undo bits that set-up asks for and where no repeat may leave early, those of the match, each a place where the body of its group in the parse tree matches |
| Regex.Search | Dependencies/oniguruma5/regexec.c:3393-3751 | set-up, analysis, compilation and onig_search together, for every parse tree: a memory error exactly where the cut literal of a look-ahead is chosen and the byte map is empty or weighs over 200, so never for an expression without an overlong item behind a positive look-ahead with a literal; otherwise, whatever the analysis says, the first hit among exactly the starts it leaves to be tried, or MISMATCH if none of them hits; and the leftmost hit of the parse tree where the analysis can be trusted and no loop is misled |
| Regex.SearchLongest | Dependencies/oniguruma5/regexec.c:3393-3714 | set-up, analysis, compilation and onig_search with FIND_LONGEST together: the first of the starts from which the longest match of all begins, of the finished tree, and of the parse tree where no loop is misled; the memory error as in Regex.Search |
| SearchReady.SetupSearchable | Dependencies/oniguruma5/regcomp.c:3644-3888 | a parse tree without anchors and fixed repeats, and without look-around or without .*, is one after set-up for which the analysis can be trusted; and so is one without .* whose fixed repeats have nothing behind them |
| Declared.EndsAreMatches | Dependencies/oniguruma5/regexec.c:1341-2788 | the results of a tree are exactly the matches of the expression as a relation between starts and ends, which knows no order, no form of a repeat and no code |
| Declared.OnigMatch | Dependencies/oniguruma5/regexec.c:3100-3159 | onig_match returns MISMATCH exactly where the expression does not match, and otherwise the length of a match, with FIND_LONGEST of the longest |
| Declared.OnigSearch | Dependencies/oniguruma5/regexec.c:3393-3751 | onig_search returns the first place from start on where the expression matches, or MISMATCH if there is none; a memory error instead exactly where the analysis has lost a literal, which cannot be without an overlong item behind a positive look-ahead with a literal |
| Declared.OnigSearchLongest | Dependencies/oniguruma5/regexec.c:3393-3714 | onig_search with FIND_LONGEST returns where the longest of all matches begins, the first such place, or MISMATCH if there is none; a memory error instead exactly as in OnigSearch |
| Declared.LookInsideDiffers | Dependencies/oniguruma5/regexec.c:2383-2415 | inside a counted repeat a look-ahead can make the two differ: an empty round leaves the repeat |
| LookBehinds.BehindMeans | Dependencies/oniguruma5/regexec.c:2690-2721 | look-behind is zero-width and holds exactly where some match of the target ends; the negated form exactly where none does |
| LookBehinds.DividesFixed | Dependencies/oniguruma5/regcomp.c:3115-3133 | setup_look_behind divides only where every alternative has a length |
| LookBehinds.DivideKeeps | Dependencies/oniguruma5/regcomp.c:3079-3112 | divide_look_behind_alternatives keeps the meaning of both forms |
| OptimizeSound.ConcatSound | Dependencies/oniguruma5/regcomp.c:4453-4510 | concat_left_node_opt_info: what it claims of a concatenation holds if the claims about the parts do |
| OptimizeSound.AltSound | Dependencies/oniguruma5/regcomp.c:4512-4522 | alt_merge_node_opt_info claims only what holds of both alternatives |
| OptimizeSound.QuantSound | Dependencies/oniguruma5/regcomp.c:4760-4811 | the claims about a repeat hold of every match of it, but for the end of the copied literal of a fixed repeat where that is taken to reach the end of the repeat |
| OptimizeSound.OptSound | Dependencies/oniguruma5/regcomp.c:4527-4869 | optimize_node_left, look-around included: every match has a length in the interval, starts with the begin literal, and contains the other literals and a mapped byte within their distances |
| LastRepeat.TrailSound | Dependencies/oniguruma5/regcomp.c:4779-4799 | where nothing stands behind such a repeat, every match has all the rest of what the analysis says, and a search uses no more |
| LostLiterals.RefusedExactly | Dependencies/oniguruma5/regcomp.c:4872-4891 | onig_new fails with ONIGERR_MEMORY if and only if the literal whose length was lost is chosen and the byte map is empty or weighs more than 200 |
| LostLiterals.OptMax | Dependencies/oniguruma5/regcomp.c:4527-4869 | the maximum length that optimize_node_left finds is a function of the tree alone |
| LostLiterals.WholeOpt | Dependencies/oniguruma5/regcomp.c:4496-4507 | no literal is lost in a tree that has no item of more than 0x7fffffff bytes behind a positive look-ahead with a literal |
| LostLiterals.NeverRefused | Dependencies/oniguruma5/regcomp.c:4872-4891 | so onig_new does not fail for a parse tree without such an item |
| RefusedSearch.RefusesMatch | Dependencies/oniguruma5/regcomp.c:4496-4507 | an expression and a text where it matches, and the search fails for want of memory |
| DotStar.EmptyMatches | Dependencies/oniguruma5/regcomp.c:4527-4869 | a tree without look-around whose maximum length is 0 matches the empty string everywhere |
| DotStar.LeadPrefix | Dependencies/oniguruma5/regcomp.c:4770-4778 | the results of a tree that begins with .* are the first results from every start from which the dot reaches the place |
| DotStar.StarBack | Dependencies/oniguruma5/regcomp.c:4770-4778 | the ANYCHAR_STAR anchors: a match that begins at t is also found from every start from which the dot reaches t, if nothing in front of the .* looks around but for harmless look-arounds of a literal or a character, and no atomic group has alternatives in front of it but for settled choices between two .* |
| StarAnchor.AnchorExactly | Dependencies/oniguruma5/regcomp.c:4539-4555 | with anything in front of .* the anchor is right if and only if that holds backwards along the line |
| StarAnchor.LiteralExactly | Dependencies/oniguruma5/regcomp.c:4690-4716 | with a look-around for a literal in front of .* the anchor is right if and only if the literal is empty or, in the two forms where that helps, begins or ends with a newline; and exactly then the analysis is trusted |
| StarAnchor.CharExactly | Dependencies/oniguruma5/regcomp.c:4690-4716 | with a look-around for a class, a type or any character in front of .* the anchor is right if and only if, of what the dot runs over, that takes everything (or it takes nothing at all), for the negated look-ahead and the look-behind nothing; and exactly then the analysis is trusted |
| StarAnchor.ChoiceExactly | Dependencies/oniguruma5/regcomp.c:4770-4778 | for (?>.*a or .*b)c, any three bytes and either mode, the anchor is right if and only if a and b are the same, or a is a newline the dot does not take, or c is one of the two and b is no such newline; and exactly then the analysis is trusted |
| DotStar.SettledBack | Dependencies/oniguruma5/regcomp.c:4770-4778 | behind such a choice a match is found from every start the dot reaches it from |
| StarAnchor.MissesLook | Dependencies/oniguruma5/regexec.c:3624-3636 | an expression with a negative look-ahead in front of .* and a text where the search finds nothing |
| StarAnchor.MissesChoice | Dependencies/oniguruma5/regexec.c:3624-3636 | an expression with .* in the alternatives of an atomic group and a text it matches, where the search finds nothing |
| FixedRepeat.FixedExactly | Dependencies/oniguruma5/regcomp.c:4780-4796 | the claim about X{n,n} holds on every text if and only if the copied literal of X is not taken to reach the end of the repeat |
| FixedRepeat.CopiesRefute | Dependencies/oniguruma5/regcomp.c:4784-4791 | where it is, n copies of the literal refute the claim |
| FixedRepeat.MissesFixed | Dependencies/oniguruma5/regexec.c:3604-3618 | an expression with a fixed repeat and a text where the search finds nothing |
| Searching.FirstOccLeast | Dependencies/oniguruma5/regexec.c:2791-2820 | the specification the single-byte searches are compared with is the least occurrence |
| Searching.FirstHeadLeast | Dependencies/oniguruma5/regexec.c:2791-2820 | the specification the searches over characters are compared with is the least head with an occurrence |
| Searching.LastHeadGreatest | Dependencies/oniguruma5/regexec.c:2867-2897 | the specification of the backward searches is the greatest head with an occurrence |
| Searching.FirstInLeast | Dependencies/oniguruma5/regexec.c:3071-3083 | the specification of the map search is the least head with a byte of the map |
| Searching.LastInGreatest | Dependencies/oniguruma5/regexec.c:3085-3098 | and backwards the greatest |
| Searching.SlowSearch | Dependencies/oniguruma5/regexec.c:2791-2820 | slow_search finds the first character head where the target stands |
| Searching.SetBmSkip | Dependencies/oniguruma5/regcomp.c:3891-3915 | set_bm_skip fills in, for each byte, the distance of its last occurrence before the last place |
| Searching.SkipSafe | Dependencies/oniguruma5/regexec.c:2983-3019 | no occurrence begins less than the skip behind a window |
| Searching.BmSearch | Dependencies/oniguruma5/regexec.c:2983-3019 | bm_search returns the first occurrence, as slow_search does |
| Searching.BmSearchNotRev | Dependencies/oniguruma5/regexec.c:2925-2981 | bm_search_notrev returns the first occurrence at a character head, for any character lengths |
| Searching.MapSearch | Dependencies/oniguruma5/regexec.c:3071-3083 | map_search returns the first character head with a byte of the map |
| Searching.SlowSearchBackward | Dependencies/oniguruma5/regexec.c:2867-2897 | slow_search_backward returns the last occurrence at a character head, for any character lengths; the place it begins at need not be a head |
| Searching.SetBmBackwardSkip | Dependencies/oniguruma5/regexec.c:3021-3040 | set_bm_backward_skip fills in the distance of the first occurrence behind the first place |
| Searching.BmSearchBackward | Dependencies/oniguruma5/regexec.c:3042-3069 | bm_search_backward returns the same place |
| Searching.MapSearchBackward | Dependencies/oniguruma5/regexec.c:3085-3098 | map_search_backward returns the last character head with a byte of the map; the place it begins at need not be a head |
| Search.InfoSound | Dependencies/oniguruma5/regcomp.c:4946-4999 | what set_optimize_info_from_tree keeps is in every match, within its distances |
| Search.ForwardSearchRange | Dependencies/oniguruma5/regexec.c:3161-3283 | the window of starts it returns leaves out no place of the literal or of a mapped byte |
| Search.WindowSafe | Dependencies/oniguruma5/regexec.c:3604-3618 | in front of the window no start matches |
| Search.AnalysisTrusted | Dependencies/oniguruma5/regcomp.c:4946-4999 | what the driver relies on holds of the analysis: a hit has the literal or byte, and behind the anchors a hit is one from every start the dot reaches it from |
| Search.MissReaches | Dependencies/oniguruma5/regexec.c:3624-3636 | behind a leading .* a miss is a miss wherever the dot reaches |
| Search.TryWindow | Dependencies/oniguruma5/regexec.c:3613-3617 | the starts of one window: the first hit, or none |
| Search.TryWindows | Dependencies/oniguruma5/regexec.c:3604-3618 | with bounded distances, whatever the analysis says: exactly the starts with a place within their distances are tried, up to the limit that the star of a dot-all .* sets, and the first of them that hits is returned |
| Search.TryLines | Dependencies/oniguruma5/regexec.c:3624-3636 | behind a leading .* start and the places behind newlines are tried, and the first of them that hits is returned |
| Search.SearchInformed | Dependencies/oniguruma5/regexec.c:3584-3638 | the part that uses the information: where it gives up, which starts it tries, and where it leaves all starts to be tried |
| Search.SearchForward | Dependencies/oniguruma5/regexec.c:3575-3649 | forward search with range at the end of the text: the first hit among the starts that the information leaves to be tried, all of them where there is none |
| Search.OnigSearch | Dependencies/oniguruma5/regexec.c:3393-3649 | onig_search likewise, the empty text and a start behind the end included |
| Search.UntriedMisses | Dependencies/oniguruma5/regexec.c:3575-3649 | with information that can be trusted, a start that is not tried does not hit unless one before it does |
| Search.TrustedLeftmost | Dependencies/oniguruma5/regexec.c:3575-3649 | so the first start tried that hits is the leftmost hit |
| Search.SkimsMisses | Dependencies/oniguruma5/regexec.c:3624-3636 | where the distance has no bound and the literal is nowhere in the text, or the first start of the only line misses, the search returns MISMATCH |
| SearchLongest.EndsTrusted | Dependencies/oniguruma5/regcomp.c:4946-4999 | behind the anchors even the end of a match is reached from every start the dot reaches it from |
| SearchLongest.LaterShorter | Dependencies/oniguruma5/regexec.c:3624-3636 | so no match that begins further along the line is longer |
| SearchLongest.SearchLen | Dependencies/oniguruma5/regexec.c:1364-1473 | in every call the best length of the search grows to the longest result, whether or not an empty one is refused |
| SearchLongest.WindowsLongest | Dependencies/oniguruma5/regexec.c:3604-3618 | the windows without stopping at a hit: the record is the first longest match of all starts so far |
| SearchLongest.LinesLongest | Dependencies/oniguruma5/regexec.c:3624-3636 | one start on every line, the record being that of all starts |
| SearchLongest.OnigSearchLongest | Dependencies/oniguruma5/regexec.c:3393-3714 | onig_search with FIND_LONGEST returns the first of the starts from which the longest match of all begins, or MISMATCH if nothing matches from any start |
| SearchLongest.NotEmptyKept | Dependencies/oniguruma5/regexec.c:3706-3714 | with FIND_NOT_EMPTY as well, the start it returns has a match that is not empty if and only if some start has one |
| Reduction.NestedSame | Dependencies/oniguruma5/regparse.c:2208-2216 | for every inner language and all 36 nestings of two popular repeats, one of them alone relates the same positions |
| Reduction.ReduceNestedQuantifier | Dependencies/oniguruma5/regparse.c:2217-2264 | the overwritten nodes are the one repeat the table names, and relate the same positions as the two nested ones did |
| ReductionOrder.FirstExactly | Dependencies/oniguruma5/regparse.c:2208-2264 | around every body that advances the reduced node has the first result of the two nested ones, greediness included, for exactly 34 of the 36 nestings |
| ReductionOrder.FirstLost | Dependencies/oniguruma5/regparse.c:2208-2216 | for the other two, +? in * and +? in +, on aa the nested repeats first take both letters and the reduced one takes one |
| ReductionOrder.SetFirst | Dependencies/oniguruma5/regparse.c:4628-4716 | set_quantifier keeps the first result around every body that advances, the dropped upper bound and {1,1} included, but for these two |
| Reduction.DropSame | Dependencies/oniguruma5/regparse.c:4694-4705 | lowering the upper bound of (?:X*){n,m} and (?:X+){n,m} keeps the language |
| Reduction.SetQuantifier | Dependencies/oniguruma5/regparse.c:4628-4716 | whatever it does to a repeat of a repeat, the result relates the same positions |
| ReductionMeaning.QuantRel | Dependencies/oniguruma5/regexec.c:2376-2415 | the ends of a repeat, as a set, are those of repeated matches of its body, although the machine leaves a loop after an empty round |
| ReductionMeaning.ReduceTree | Dependencies/oniguruma5/regparse.c:2217-2264 | around any tree without look-around and atomic groups the reduced node matches exactly the strings the two nested ones match |
| ReductionMeaning.SetTree | Dependencies/oniguruma5/regparse.c:4628-4716 | the same for set_quantifier, the dropped upper bound and {1,1} included |
| CodeRange.InsertedUnion | Dependencies/oniguruma5/regparse.c:1692-1765 | after an insertion the array stands for the old set together with the new interval |
| CodeRange.InsertedSorted | Dependencies/oniguruma5/regparse.c:1692-1765 | the array stays sorted and disjoint if and only if no interval at code 0 is missed by the wrapped comparison |
| CodeRange.InsertedNormal | Dependencies/oniguruma5/regparse.c:1692-1765 | with all bounds at least 1 it stays sorted and disjoint, and grows by at most one interval |
| CodeRange.InsertedUnsorted | Dependencies/oniguruma5/regparse.c:1722-1728 | an array and an interval where the interval at code 0 is missed |
| RangeBuffer.BBuf.Write | Dependencies/oniguruma5/regint.h:435-440 | BBUF_WRITE: one cell written or appended, the buffer grown when needed |
| RangeBuffer.BBuf.MoveRight | Dependencies/oniguruma5/regint.h:455-459 | BBUF_MOVE_RIGHT on overlapping stretches |
| RangeBuffer.BBuf.MoveLeftReduce | Dependencies/oniguruma5/regint.h:467-470 | BBUF_MOVE_LEFT_REDUCE closes the gap |
| RangeBuffer.BBuf.Splice | Dependencies/oniguruma5/regparse.c:1744-1764 | the intervals from low to high give way to one, the others keep their values and order |
| RangeBuffer.FindLow | Dependencies/oniguruma5/regparse.c:1714-1720 | the binary search finds the first interval that ends at from or later |
| RangeBuffer.FindHigh | Dependencies/oniguruma5/regparse.c:1722-1728 | the binary search finds the end of the intervals that are met or touched, even where the comparison wraps at code 0 |
| RangeBuffer.AddCodeRangeToBuf | Dependencies/oniguruma5/regparse.c:1692-1765 | the array after the call, or unchanged with the error exactly when there would be too many intervals |
| RangeBuffer.IsInCodeRange | Dependencies/oniguruma5/regexec.c:1219-1238 | membership in exactly the set the array stands for |
| RangeSets.NotMeans | Dependencies/oniguruma5/regparse.c:1780-1813 | not_code_range_buf is complement on the codes of multi-byte characters, keeps the array sorted, and can fail only at the limit |
| RangeSets.OrMeans | Dependencies/oniguruma5/regparse.c:1822-1877 | or_code_range_buf is union on those codes, of plain and of negated buffers |
| RangeSets.OrFits | Dependencies/oniguruma5/regparse.c:1822-1877 | and fails only when the intervals might be too many together |
| RangeSets.AllMeetsMean | Dependencies/oniguruma5/regparse.c:1943-1960 | 1 AND 2 is intersection |
| RangeSets.CutDrops | Dependencies/oniguruma5/regparse.c:1879-1917 | and_code_range1, which no pattern gets to, loses a code whenever an interval follows behind a piece that is still pending |
| RangeSets.CutWraps | Dependencies/oniguruma5/regparse.c:1891-1894 | when to2 + 1 wraps, and_code_range1, which no pattern gets to, adds everything from code 0 on |
| RangeSets.CutWrapped | Dependencies/oniguruma5/regparse.c:1891-1894 | an interval and a buffer where that happens; no pattern hands them to and_code_range1 |
| RangeSets.DifferenceExactly | Dependencies/oniguruma5/regparse.c:1961-1969 | 1 AND (not 2) is set difference if and only if no addition wraps and every last piece is kept |
| RangeSets.AndMeans | Dependencies/oniguruma5/regparse.c:1919-1974 | and_code_range_buf is intersection: of plain buffers always, of a plain and a negated one when the difference comes out right |
| RangeAlgebra.NotCodeRangeBuf | Dependencies/oniguruma5/regparse.c:1780-1813 | the loop adds the gaps between the intervals in turn; a fresh result, or the error |
| RangeAlgebra.OrCodeRangeBuf | Dependencies/oniguruma5/regparse.c:1822-1877 | all cases of null and negated buffers; a fresh result, or the error |
| RangeAlgebra.AndCodeRange1 | Dependencies/oniguruma5/regparse.c:1879-1917 | the loop adds the pieces of one interval outside the second buffer |
| RangeAlgebra.AndCodeRangeBuf | Dependencies/oniguruma5/regparse.c:1919-1974 | all cases of null and negated buffers; a fresh result, or the error |
| ClassAlgebra.OrClassMeans | Dependencies/oniguruma5/regparse.c:2057-2114 | membership after or_cclass is disjunction for every character, whichever class is negated |
| ClassAlgebra.AndClassMeans | Dependencies/oniguruma5/regparse.c:1999-2055 | membership after and_cclass is conjunction when both or neither class is negated, and with one negated when the difference comes out right |
| ClassAlgebra.BracketMeans | Dependencies/oniguruma5/regparse.c:4270-4371 | parse_char_class: a bracket expression holds a character if and only if every section between two ampersand pairs has a range or nested class that holds it, or not, if it is negated; it sets the flag at its end, so it meets plain classes only and takes no difference; and where the syntax asks for it no negated bracket but that of nothing holds the newline |
| ClassAlgebra.ClearNotMeans | Dependencies/oniguruma5/regparse.c:1976-1997 | membership after clear_not_flag_cclass is unchanged |
| ClassAlgebra.AndNotLoses | Dependencies/oniguruma5/regparse.c:1919-1974 | two buffers, one of them negated, of which and_code_range_buf loses a character; no pattern makes parse_char_class hand it a negated one |
| ClassAlgebra.IsCodeInCc | Dependencies/oniguruma5/regexec.c:1240-1261 | is_code_in_cc |
| ClassAlgebra.InvertTo | Dependencies/oniguruma5/regparse.c:166-182 | bitset_invert and bitset_invert_to |
| ClassAlgebra.ClearNotFlag | Dependencies/oniguruma5/regparse.c:1976-1997 | the class after the call; after an error the bits are inverted and the flag is still set |
| ClassAlgebra.OrCClass | Dependencies/oniguruma5/regparse.c:2057-2114 | the class after the call, and what an error leaves |
| ClassAlgebra.AndCClass | Dependencies/oniguruma5/regparse.c:1999-2055 | the class after the call, and what an error leaves |
| CharHeads.RightAdjust | Dependencies/oniguruma5/regenc.c:53-61 | the first character head at or behind s |
| CharHeads.PrevHead | Dependencies/oniguruma5/regenc.c:79-86 | the last character head in front of s, none at the start |
| CharHeads.StepBack | Dependencies/oniguruma5/regenc.c:88-98 | n characters back from anywhere: walking forward again leads to s, or behind the character s lies in; none exactly when there are not so many |
| CharHeads.Step | Dependencies/oniguruma5/regenc.c:100-108 | n characters on, none behind the end |
| DoubleByte.PairHeadRight | Dependencies/oniguruma5/enc/euc_jp.c:145-162 | behind a known head, parity of the distance tells the head in a run of double-byte characters |
| CharHeads.DividedHead | Dependencies/oniguruma5/enc/euc_jp.c:145-162 | walking forward over the lengths of a text that is divided into characters stops at the places where characters begin |
| DoubleByte.EucExactly | Dependencies/oniguruma5/enc/euc_jp.c:32-57 | a text is well formed if and only if it is a sequence of characters, each of one byte, of a lead byte and a trail byte, or of 8F and two trail bytes, said by their values |
| DoubleByte.BigExactly | Dependencies/oniguruma5/enc/big5.c:32-112 | the same for Big5, with its two ranges of trail bytes |
| DoubleByte.EucLeftAdjust | Dependencies/oniguruma5/enc/euc_jp.c:145-162 | on such a text left_adjust_char_head is the place where the character begins that the byte lies in, which is the head that walking forward finds |
| DoubleByte.BigLeftAdjust | Dependencies/oniguruma5/enc/big5.c:114-135 | the same for Big5 |
| Gb18030.GbExactly | Dependencies/oniguruma5/enc/gb18030.c:46-76 | a text is well formed if and only if it is a sequence of characters: one byte, 81-FE with 40-7E or 80-FE, or 81-FE 30-39 81-FE 30-39 |
| Gb18030.PartNext | Dependencies/oniguruma5/enc/gb18030.c:65-76 | which part of its character a byte is follows from the part before it and two byte classes |
| Gb18030.Transfer | Dependencies/oniguruma5/enc/gb18030.c:147-470 | each of the 23 states keeps, byte by byte backwards, the claim it makes about the distance to the head |
| Gb18030.LeftAdjustCharHead | Dependencies/oniguruma5/enc/gb18030.c:147-470 | gb18030_left_adjust_char_head is the place where the character begins that the byte lies in, and the head that walking forward finds, for lead-byte runs of any length |
| HashTable.StTable.FindEntry | Dependencies/oniguruma5/st.c:227-237 | FIND_ENTRY returns the entry for the key, or null when there is none |
| HashTable.StTable.Lookup | Dependencies/oniguruma5/st.c:239-258 | st_lookup reads the finite map |
| HashTable.StTable.MoveBin | Dependencies/oniguruma5/st.c:325-334 | the inner loop of rehash relinks one chain entry by entry; the later bins stay linked |
| HashTable.StTable.Rehash | Dependencies/oniguruma5/st.c:313-337 | the table after growth stands for the same entries in bin hash mod the new number of bins |
| HashTable.StTable.AddDirect | Dependencies/oniguruma5/st.c:260-276 | ADD_DIRECT, growth included, adds one key to the map |
| HashTable.StTable.Insert | Dependencies/oniguruma5/st.c:278-298 | st_insert updates the finite map: a key that is there keeps its spelling and gets the new record |
| HashTable.StTable.Delete | Dependencies/oniguruma5/st.c:380-420 | st_delete removes the key from the finite map and returns the stored key and record |
| HashTable.StTable.CutAfter | Dependencies/oniguruma5/st.c:408-416 | passing over an entry in the middle of a chain keeps all other chains |
| HashTable.NewSize | Dependencies/oniguruma5/st.c:103-126 | new_size returns the entry of the table of primes for the first doubled size above the one asked for, or -1 exactly from 2^30 on, where the doubled size wraps |
| HashTable.Found | Dependencies/oniguruma5/st.c:218-237 | the first entry of the bin with the hash and key is the one entry for the key |
| HashTable.AllGathered | Dependencies/oniguruma5/st.c:313-337 | when every entry has been moved, the new bins are a table again |
| HashTable.StaticDrop | Dependencies/oniguruma5/st.c:401-416 | a chain without one entry: keys stay distinct and in their bins |
| HashTable.CountAll | Dependencies/oniguruma5/st.c:275-276 | num_entries is the sum of the lengths of the chains |

## Left out

- Subexpression calls, back-references, the capture-aware empty check and capture history.
- Word and line-begin anchors and `sprev`: after `.*` the loop leaves a value there that is not the
  previous character.
- Case folding and ambiguous strings: the folded length can differ from the matched one.
- Multi-byte characters inside the matcher: classes with multi-byte ranges are compiled, and match no
  further character than a byte.
- The bytes of operands: an instruction carries its operands decoded; 16-bit group numbers and `int`
  overflow in the length arithmetic of the compiler are not modelled.
- Allocation failure and the growth of the match stack; `regcomp.c` node recycling.
- The region of a search: `Regex.Match` returns the one that `match_at` fills; the searches return a place.
- The undo bits that back-references and FIND options add: the theorems hold for any bits, and ask of the
  start bits no more than `MemoryBits.StartBits` where they ask anything.
- Regex.Match: that no repeat may leave early is sufficient for the captures to be those of the match; a
  repeat that may leave early keeps them on some texts.
- MemoryBits.OpenSteady: a repeated body that can match empty holds no group outside look-around, since the
  capture-aware empty check is not part of this model.
- LengthsExact.CharLenExactly: its converse half is about trees without anchors, look-around, atomic groups and
  classes that take no byte, whose lengths do not reach the end of their range, and without `{0}` and repeats
  with different bounds of a body of length 0, which the C code takes for variable.
- LengthsExact.MinLenAttained: not where a sum or product of lengths reaches the end of its range.
- ReductionOrder.FirstExactly: around a body that may match empty the first result depends on the empty check.
- Backward `onig_search` as a whole (its literal and map searches are modelled), a search range that ends
  before the text, and the retry gate of `forward_search_range`, which single-byte text never takes.
- Regex.Search: the shortcuts for anchors (begin and end of the text or of a line, start of the search) are
  not modelled, so for a tree with an anchor it does not stand for the C code; matching at one position
  does.
- Lazy `{0,0}?`, whose code can run the body once when it backtracks.
- Setup.SetupTree: a function from tree to tree; the C code overwrites the nodes, so sharing of nodes is
  not captured. In a divided look-behind the C code leaves the first alternative without set-up; here
  the character length is a function of the target.
- Optimize.OptNode: a function; the C code fills in a structure that is passed along.
- Matcher.Matcher.StackPop: says what groups with both undo bits get; a group that lacks one of them is
  not restored exactly by the C code either.
- SearchLongest.OnigSearchLongest: for an analysis that can be trusted; the same code without FIND_LONGEST is
  `Search.OnigSearch`, which is about every analysis.
- DotStar.StarBack: exact in front of `.*` for look-around for a literal or one character, and for the choice
  of an atomic group between `.*a` and `.*b` before a literal; for look-around for anything else, and for
  other alternatives of an atomic group, the condition is sufficient.
- FixedRepeat.FixedExactly: about one repeat with a body for which the analysis is right; for the search, that
  no such repeat has anything behind it is sufficient, and shown for trees without `.*`.
- LostLiterals.NeverRefused: a condition on the expression that is sufficient; the exact one,
  `LostLiterals.RefusedExactly`, is about the literals and the byte map of the analysis.
- ClassAlgebra.BracketMeans: the tokens of a bracket expression are not modelled; each range, type and nested
  class comes in as a class of its own, and it says nothing of a bracket that fails for too many ranges.
- Declared.EndsAreMatches: not for atomic groups, whose result depends on the order, and not with anchors or
  look-around inside a repeat.
- Reduction.SetQuantifier: the split of the last character off a string in front of a repeat is not covered;
  it says which part of the string is repeated at all.
- ReductionMeaning.ReduceTree: keeps the set of matched strings, not the order of the results, which
  the reduction does change; of the order `ReductionOrder` has the first result.
- RangeAlgebra.AndCodeRange1: requires that `to2 + 1` does not wrap, since the buffer it adds to is not
  sorted any more afterwards; `RangeSets.CutWraps` says what is added.
- ClassAlgebra.AndCClass: requires the same of one plain and one negated class.
- The bit sets of classes are arrays of 256 truth values, not packed words; encodings whose shortest
  character is longer than a byte (UTF-16, UTF-32) are not covered by the class theorems.
- EUC-TW, whose backward scan takes the lead byte of four-byte characters for a trail byte.
- `st_foreach`, `st_copy`, `st_delete_safe` and the string hash.
- The parser, the syntax tables, named groups, group renumbering, the POSIX and GNU interfaces, the
  Etoile headers and everything else outside the engine.
