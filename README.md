# A verified model of a Brainfuck-to-JavaScript compiler

The compiler reads a Brainfuck source file and writes a web page. The page
runs the program as a flat array of JavaScript closures. It works in four
steps, and this project models each one in Dafny:

- **Lexing** (`lexer.dfy`, module `Lexing`). A `Lexer` object reads the file
  one character at a time through a cursor and an end-of-file flag. It
  returns only the eight symbol tokens `< > + - . , [ ]`, each with the
  line/column position of its character. The pure function `Lex` specifies
  the whole token stream, and the methods are proved against it.
- **Parsing** (`parser.dfy`, module `Parsing`). A `Parser` object holds the
  lexer, the current token and the error list. Its recursive-descent methods
  build the command tree defined in `commands.dfy` (module `Commands`). Any
  bracket error clears the program, which leaves it ill-formed (empty).
  `ParseTop` and `ParseBody` specify what the methods compute. The lemmas
  show two things. First, the tree prints back to the exact token kinds it
  came from. Second, parsing succeeds exactly when the brackets balance.
- **Folding** (`folder.dfy`, module `Folding`). An in-place pass over an
  array of commands, driven by a `first`/`last` cursor pair. A maximal run
  of Arithmetic (or Shift) commands collapses into one command carrying
  the signed total. A run whose total is zero is removed. Loop bodies are
  folded recursively, and a loop whose folded body is empty is removed.
  Deleted commands are rotated past `last`, the way `std::rotate` does it.
  `Fold` specifies the pass. The methods are proved to leave
  `a[..last] == Fold(old(a[..]))`.
- **Code generation and runtime** (`codegen.dfy`, module `CodeGen`, and
  `runtime.dfy`, module `Runtime`). Every command becomes a run of slots:
  - a non-loop command becomes one slot;
  - a loop becomes a check slot, its body's slots, then a back-jump slot.

  Both jumps are measured by the loop's depth. The slot closures are an
  abstract instruction set, and `Exec`/`Step` give their semantics. The
  page's `Program` object is the class `Runtime.Machine`. The central
  result is jump correctness. In every generated array, a check slot at `i`
  with a zero cell skips to just past its back-jump. That back-jump leads
  back to the check. A command at any loop depth is named by a path of
  indices (`CodeGen.At`), and `CodeGen.SlotIndex` gives where its slots
  start, so the slot lemmas of `Runtime` hold for nested commands too.

## Model

| member | source | states |
|---|---|---|
| Commands.Delta | optimize/folder.cpp:63-65 | the signed amount of a command: its size is the command's amount, it is positive only for Add and Right and negative only for Sub and Left, and IO commands and loops have none |
| Lexing.KindOf | lex/token.h:10-18 | a symbol's token kind is never eof, and it maps back to the same character |
| Lexing.Advance | lex/lexer.cpp:32-38 | a newline, and only a newline, moves to the next line, at column 1; any other character keeps the line and moves one column on; the column is always at least 1 |
| Lexing.PosOf | lex/lexer.cpp:7-39 | every position is at line 1 or later and column 1 or later, and the first character is at line 1, column 1 |
| Lexing.LexFrom | lex/lexer.cpp:41-60 | from any index on there is at most one token per character, and no token is eof |
| Lexing.Lex | lex/lexer.cpp:41-62 | a file yields at most one token per character, and none of them is eof (`NextToken` adds eof at the end) |
| Lexing.LexSymbols | lex/lexer.cpp:41-62 | the characters of the token stream are exactly the symbol characters of the input, in input order: one token per symbol, every other character skipped |
| Lexing.LexFromSymbols | lex/lexer.cpp:42-59 | the same, for the tokens from any index on |
| Lexing.LexFromPositions | lex/lexer.cpp:43-56 | the `k`-th token is the kind of the symbol character that has exactly `k` symbols before it, with the position that character had before it was consumed |
| Lexing.SkipNonSymbols | lex/lexer.cpp:57-58 | a stretch without symbol characters produces no tokens |
| Lexing.PosOfLine | lex/lexer.cpp:27-39 | the line of a character is 1 plus the newlines before it; after a newline the column is 1, otherwise it is one more than the previous column |
| Lexing.Lexer.constructor | lex/lexer.cpp:7-16 | the position starts at line 1, column 0, and the first character is read; the tokens still to come are `Lex(input)` |
| Lexing.Lexer.Get | lex/lexer.cpp:20-23 | the stream's `get` returns the next character, or EOF and sets the end-of-file flag |
| Lexing.Lexer.UpdatePos | lex/lexer.cpp:27-39 | a newline increments the line and resets the column to 1, other characters increment the column, and nothing changes at end of file |
| Lexing.Lexer.NextC | lex/lexer.cpp:18-25 | consumes the current character and skips newlines; only newlines are skipped |
| Lexing.Lexer.NextToken | lex/lexer.cpp:41-62 | returns the next token of `Lex`, and once the input is exhausted returns eof (at the end-of-file position) on this and every later call without changing anything |
| Parsing.StmtOf | parse/parser.cpp:48-66 | each of the six command tokens becomes exactly one non-loop command with amount 1 |
| Parsing.UnitUnparse | parse/parser.cpp:49-66 | the token a non-loop command prints as parses back to that command |
| Parsing.ParseBody | parse/parser.cpp:84-108 | a successful loop body consumes at least its closing bracket |
| Parsing.ParseTop | parse/parser.cpp:119-156 | a successful parse has at most one top-level command per token |
| Parsing.Parser.constructor | parse/parser.h:23 | the parser starts with the lexer's whole remaining stream and no errors |
| Parsing.Parser.NextToken | parse/parser.cpp:115-117 | the current token becomes the lexer's next token; errors unchanged |
| Parsing.Parser.Expect | parse/parser.cpp:34-43 | succeeds exactly when the current token has the expected kind, advances only then, and never records an error |
| Parsing.Parser.ParseStmt | parse/parser.cpp:45-76 | a command token yields its command and is consumed; any other token records one unexpected-token error and is not consumed |
| Parsing.Parser.ParseLoop | parse/parser.cpp:78-113 | on `[` the result and the errors are those of `ParseBody`: a loop over the body and the stream after the matching `]`, or no loop, the errors of the innermost unclosed loop, and the whole stream consumed |
| Parsing.Parser.Parse | parse/parser.cpp:119-156 | the program and the errors are those of `ParseTop`, the program is empty after any error, and parsing ends on the eof token |
| Parsing.Parser.ParseBodyStatement | parse/parser.cpp:85-107 | one turn of a loop body's parse consumes at least one token and extends the body as `ParseBody` does, or stops with `ParseBody`'s errors recorded and the input used up |
| Parsing.Parser.ParseTopStatement | parse/parser.cpp:124-152 | one turn of the `parse` loop consumes at least one token; it extends the program as `ParseTop` does, or on a stray `]` or a failed loop clears the program, records `ParseTop`'s errors and moves to eof |
| Parsing.ParseBodyUnparse | parse/parser.cpp:84-112 | a parsed body prints back to the token kinds it was read from, followed by `]` and the rest |
| Parsing.ParseBodyUnparseLoop | parse/parser.cpp:94-99 | the same, when the body starts with a nested loop |
| Parsing.ParseBodyUnparseStmt | parse/parser.cpp:86-92 | the same, when the body starts with a command token |
| Parsing.ParseBodyUnit | parse/parser.cpp:84-99 | every amount in a parsed body is 1 |
| Parsing.SuffixOf | parse/parser.cpp:84-112 | what follows a parsed body is a suffix of the stream |
| Parsing.ParseTopUnparse | parse/parser.cpp:119-156 | a successful parse prints back to exactly the input's token kinds (commands in token order, each matched bracket pair one loop over what it encloses), with every amount 1 |
| Parsing.ParseTopUnparseLoop | parse/parser.cpp:133-144 | the same, when the stream starts with a loop |
| Parsing.ParseTopUnparseStmt | parse/parser.cpp:125-132 | the same, when the stream starts with a command token |
| Parsing.ParseTopUnit | parse/parser.cpp:125-144 | every amount in a successfully parsed program is 1 |
| Parsing.ParseBodyBalanced | parse/parser.cpp:84-112 | a loop body parses exactly when its closing bracket comes before the brackets go unbalanced |
| Parsing.ParseBodyBalancedLoop | parse/parser.cpp:94-99 | the same, when the body starts with a nested loop |
| Parsing.ParseTopBalanced | parse/parser.cpp:119-156 | parsing succeeds if and only if the brackets of the token stream balance |
| Parsing.ParseTopBalancedLoop | parse/parser.cpp:133-144 | the same, when the stream starts with a loop |
| Parsing.ParseResult | parse/parser.cpp:119-156 | the program is not ill-formed (it is non-empty) if and only if the stream is non-empty and balanced, and then it prints back to the stream |
| Parsing.ParseBodyErrors | parse/parser.cpp:94-104 | a failed body records exactly two errors: an unmatched-bracket error naming an open bracket of the stream (or the loop's own), then unexpected end of input |
| Parsing.ParseTopErrors | parse/parser.cpp:133-149 | a failed parse records either one unexpected-token error for a stray `]` of the stream, or the two errors of an unclosed loop |
| Folding.RunKindOf | optimize/folder.cpp:50-53 | an Arithmetic or Shift command belongs to the run kind its handler collects |
| Folding.RunLength | optimize/folder.cpp:51-53 | the run is maximal: all its commands are of the kind, and the command after it, if any, is not |
| Folding.Collapse | optimize/folder.cpp:73-80 | the collapsed command has the run's kind, a positive amount, and the run's signed total as its net effect (Add/Right for a positive total, Sub/Left for a negative one) |
| Folding.FoldKeep | optimize/folder.cpp:55-58 | a lone Arithmetic or Shift command, or an IO command, is kept and the pass moves on |
| Folding.FoldRunHead | optimize/folder.cpp:59-80 | a run of two or more is removed when its total is zero, and otherwise replaced by its collapsed command |
| Folding.FoldLoopHead | optimize/folder.cpp:86-100 | a loop is removed when its folded body is empty, and otherwise replaced by a loop over its folded body |
| Folding.Rotated | optimize/folder.cpp:69-73 | after a rotation the prefix and the tail past `last` are unchanged, and the moved block sits at `first` |
| Folding.Fold | optimize/folder.cpp:42-156 | the folded program is never longer than the input |
| Folding.FoldNoEmptyLoops | optimize/folder.cpp:86-100 | no loop of the folded program, at any depth, has an empty body |
| Folding.FoldPositive | optimize/folder.cpp:73-80 | folding keeps every amount positive |
| Folding.FoldPositiveKeep | optimize/folder.cpp:55-58 | the same, when the first command is kept |
| Folding.FoldPositiveLoop | optimize/folder.cpp:86-100 | the same, when the first command is a loop |
| Folding.FoldPositiveRun | optimize/folder.cpp:73-80 | the same, when the first command starts a run of two or more: a run that does not cancel out collapses to one positive amount |
| Folding.RunTraceEmpty | optimize/folder.cpp:50-81 | an Arithmetic or Shift run performs no input or output |
| Folding.FoldTrace | optimize/folder.cpp:82-100 | folding keeps every input and output command, in order, at every depth |
| Folding.FoldTraceKeep | optimize/folder.cpp:55-58 | the same, when the first command is kept |
| Folding.FoldTraceLoop | optimize/folder.cpp:86-100 | the same, when the first command is a loop |
| Folding.FoldTraceRun | optimize/folder.cpp:59-80 | the same, when the first command starts a run of two or more |
| Folding.NotIdempotent | optimize/folder.cpp:118-121 | `+><+` folds to Add 1, Add 1, and folding that again gives Add 2, so folding is not idempotent |
| Folding.Rotate | optimize/folder.cpp:69-73 | `std::rotate`: `[mid, last)` moves to `first`, `[first, mid)` follows it, the rest is unchanged, and the result is `first + (last - mid)` |
| Folding.FindRunEnd | optimize/folder.cpp:51-53 | `find_if` stops at the first command in `[first, last)` that is not of the run's kind |
| Folding.RunLengthIs | optimize/folder.cpp:51-53 | an index before which everything is of the kind, and at which the kind stops, is the run length |
| Folding.SumRun | optimize/folder.cpp:60-66 | the accumulated total is the signed sum of the run |
| Folding.KeepStepped | optimize/folder.cpp:55-58 | keeping the command under the cursor is one step of the pass |
| Folding.ZeroRunStepped | optimize/folder.cpp:67-71 | rotating a zero-total run out is one step of the pass |
| Folding.CollapseStepped | optimize/folder.cpp:72-80 | rotating all but one command of the run out and overwriting that one is one step of the pass |
| Folding.VisitRun | optimize/folder.cpp:50-81 | the Arithmetic and Shift handlers make one step: what is emitted, followed by the fold of what is left, is the fold of the old range |
| Folding.DropRun | optimize/folder.cpp:67-71 | a run of two or more with zero total is rotated out: `first` stays, and `last` moves back by the run's length |
| Folding.CollapseRun | optimize/folder.cpp:72-80 | a run of two or more with nonzero total is reduced to its collapsed command at `first`, and `first` advances past it |
| Folding.VisitLoop | optimize/folder.cpp:86-100 | the loop handler replaces the loop by its folded form, or rotates it out when nothing is left of it |
| Folding.EmptyLoopStepped | optimize/folder.cpp:88-96 | moving a loop whose folded body is empty out of the range is one step of the pass |
| Folding.LoopStepped | optimize/folder.cpp:98-99 | replacing a loop by the loop over its folded body is one step of the pass |
| Folding.Visit | optimize/folder.cpp:42-133 | every handler either advances `first` or moves `last` back, keeps everything outside `[first, last)`, and keeps the commands ahead of the cursor in order |
| Folding.StepKeepsInvariant | optimize/folder.cpp:151-154 | one step keeps the loop invariant of the pass |
| Folding.FoldRange | optimize/folder.cpp:147-156 | `fold`: when the cursors meet, the array up to `last` is the folded program (what `erase` leaves) |
| Folding.FoldLoop | optimize/folder.cpp:135-145 | `fold_loop`: the result is a loop over the folded body |
| CodeGen.Depth | code_gen/code_gen.cpp:26-45 | a non-loop command counts exactly 1, and a loop counts at least 2 (check and back-jump) |
| CodeGen.BodyDepth | code_gen/code_gen.cpp:41-43 | a body counts at least one slot per command |
| CodeGen.SlotOf | code_gen/code_gen.cpp:53-73 | a non-loop command becomes one slot that is never a jump: an add slot exactly for Arithmetic, a shift slot exactly for Shift, a read or write slot for IO |
| CodeGen.Flatten | code_gen/code_gen.cpp:49-95 | a command's slots start with a check exactly when it is a loop, and a loop's slots end with its back-jump |
| CodeGen.FlattenSeq | code_gen/code_gen.cpp:84-87 | a command sequence flattens to at least one slot per command |
| CodeGen.CmdToJs | code_gen/code_gen.cpp:25-96 | a command's slots are `Flatten`: one slot for a non-loop command; for a loop the check, each body command's slots in order, then the back-jump |
| CodeGen.EmitCode | code_gen/code_gen.cpp:120-124 | the slot array is the program's commands flattened in program order |
| CodeGen.FlattenSeqSnoc | code_gen/code_gen.cpp:85-87 | flattening one more command appends its slots |
| CodeGen.FlattenSeqAppend | code_gen/code_gen.cpp:120-124 | the slots of a concatenation are the concatenated slots |
| CodeGen.FlattenAt | code_gen/code_gen.cpp:120-124 | the slots of the `k`-th command start after exactly `BodyDepth` of the commands before it |
| CodeGen.FlattenLength | code_gen/code_gen.cpp:26-91 | a command flattens to exactly `Depth` slots |
| CodeGen.FlattenSeqLength | code_gen/code_gen.cpp:85-87 | a command sequence flattens to exactly `BodyDepth` slots |
| CodeGen.WellJumpedAppend | code_gen/code_gen.cpp:120-124 | placing two jump-correct slot arrays side by side keeps them jump-correct |
| CodeGen.WellJumpedWrap | code_gen/code_gen.cpp:79-90 | a check with skip `depth`, a jump-correct body and a back-jump of `depth - 1` form a jump-correct array |
| CodeGen.FlattenWellJumped | code_gen/code_gen.cpp:74-91 | every command flattens to a jump-correct array |
| CodeGen.LoopWellJumped | code_gen/code_gen.cpp:74-91 | a loop flattens to a jump-correct array |
| CodeGen.FlattenSeqWellJumped | code_gen/code_gen.cpp:120-124 | every generated program is jump-correct: each check skips to just past its back-jump, and each back-jump leads to its check |
| CodeGen.SlotsAt | code_gen/code_gen.cpp:84-124 | the generated program holds the slots of every command, at any loop depth, as one block starting at its slot index |
| CodeGen.SlotsInLoop | code_gen/code_gen.cpp:84-87 | the same, for a command inside a loop body: its block sits one check slot after the start of the enclosing body's slots |
| CodeGen.LoopJumps | code_gen/code_gen.cpp:79-90 | the check of a loop at any depth skips `depth` slots, and the back-jump sits in the last of them and goes back `depth - 1` slots |
| Runtime.Initial | code_gen/code_gen.cpp:100-116 | `init` yields a valid state for any slot array, with the current cell 0, all input still pending and no output |
| Runtime.ReadChar | code_gen/code_gen.cpp:129-140 | `get_char` keeps the cell cursor and the output |
| Runtime.Fault | code_gen/code_gen.cpp:145-148 | `seg_fault` prints the fault line, moves `SP` to the end, and leaves the cells and the cursor alone |
| Runtime.Exec | code_gen/code_gen.cpp:53-90 | every slot keeps the current cell defined, only appends to the output, and keeps the saved `SP` |
| Runtime.Step | code_gen/code_gen.cpp:149-154 | one turn saves `SP` in `SP_save`, keeps the current cell defined, and only appends to the output |
| Runtime.Run | code_gen/code_gen.cpp:149-155 | running slots keeps the runtime's state valid and only appends to the output |
| Runtime.Machine.constructor | code_gen/code_gen.cpp:100-116 | `init` installs the slot array, both cursors are 0, and cell 0 holds 0 |
| Runtime.Machine.GetChar | code_gen/code_gen.cpp:129-140 | with input, stores it in the current cell and resumes just after the read slot; without input, stops and waits |
| Runtime.Machine.PutChar | code_gen/code_gen.cpp:141-144 | prints the current cell and moves on |
| Runtime.Machine.SegFault | code_gen/code_gen.cpp:145-148 | prints the fault line and stops |
| Runtime.Machine.Apply | code_gen/code_gen.cpp:53-90 | runs one slot's closure as `Exec` specifies |
| Runtime.Machine.ProcessCommand | code_gen/code_gen.cpp:149-155 | saves `SP` and runs the slot it points at, while `SP` is inside the array, as `Run` specifies |
| Runtime.Machine.Retry | code_gen/code_gen.cpp:137-138 | the timer callback reads again, and carries on running slots when the read succeeds |
| Runtime.StepKeepsValid | code_gen/code_gen.cpp:149-155 | on a jump-correct array every slot keeps `SP` within the array or just past it, and keeps the current cell defined |
| Runtime.CheckJumps | code_gen/code_gen.cpp:80-82 | a check slot with a zero cell skips to just past its back-jump; with a nonzero cell it moves to the next slot; nothing else changes |
| Runtime.BackJumpLands | code_gen/code_gen.cpp:90 | a back-jump lands exactly on its loop's check, whose skip would land just past the back-jump |
| Runtime.CompiledLoopCheck | code_gen/code_gen.cpp:80-82 | the check of a loop at any depth leads, on a zero cell, to the first slot after the loop, and otherwise to the loop's first body slot; nothing but `SP` and `SP_save` changes |
| Runtime.CompiledLoopBack | code_gen/code_gen.cpp:90 | the back-jump of a loop at any depth leads to the loop's own check; nothing but `SP` and `SP_save` changes |
| Runtime.CompiledArithmetic | code_gen/code_gen.cpp:53-56 | the slot of an Arithmetic command at any depth adds +amount (Add) or -amount (Sub) to the current cell and moves on; the whole next state is given, so the cursor, the other cells, the input and the output are unchanged |
| Runtime.CompiledShift | code_gen/code_gen.cpp:66-72 | the slot of a Shift command at any depth faults, printing the fault line and stopping without moving, exactly when the cursor would go below 0; otherwise it moves the cursor, creates an unseen cell as 0, and moves on; in both cases the whole next state is given, so nothing else changes |
| Runtime.CompiledIO | code_gen/code_gen.cpp:129-144 | at any depth, an output command's slot prints the current cell and moves on; an input command's slot stores the next input character and moves on, or stops and waits when there is none; each case gives the whole next state, so the cursor and everything else not named stay unchanged |
| Runtime.SlotIs | code_gen/code_gen.cpp:53-73 | a non-loop command at any depth is exactly its one slot, at its slot index |
| Runtime.RetryResumes | code_gen/code_gen.cpp:129-138 | waiting for input and retrying ends where a read that had the input all along would have |

## Left out

- Error messages are not modelled. Their text and the file name in a position are left out; errors are a list of `ParseError` values holding the offending token.
- Opening files, and the exceptions thrown when that fails, are left out. The input file is a `seq<char>`, and the generated code is the slot array.
- `main.cpp` is left out entirely. That covers argument parsing, the token and command dumps, and exit codes.
- The HTML, CSS and I/O-manager text of the page is not modelled, and neither are the DOM listeners or the text of the slot closures.
- The 500 ms delay of the timer is not modelled. `Runtime.Machine.Retry` is the callback the timer runs, and the caller decides when.
- Character encoding is not modelled (`charCodeAt`, `fromCharCode`). Input and output characters are integer codes, and cells are unbounded integers.
- Folding.SumRun: does not model the `int32` accumulator or its overflow, because totals are unbounded integers. Parser amounts are 1, so the source's accumulator overflows only on more than 2^31 commands in one run.
- Folding.Collapse: does not model the `uint32` cast of the total, which is exact for any total that fits in `int32`.
- CodeGen.SlotOf: does not model the `int32` cast of an amount when it is printed into a closure.
- Runtime.Run: stops after `fuel` slots, because a Dafny function must terminate. A Brainfuck program that loops forever is only followed for `fuel` steps.
- Runtime.Machine.ProcessCommand: has the same `fuel` bound as `Runtime.Run`.
- Runtime.Machine.GetChar: a successful read continues the same `process_command` loop. The source starts a nested `process_command` call instead, which ends in the same state, so the model leaves out only the growing call stack.
- The page's `exe` entry point only calls `process_command`, so it is not modelled separately from `Runtime.Machine.ProcessCommand`.
- Folding.FoldRange: leaves the contents of the array past `last` unspecified, because `erase` drops them.
- Folding is not proved to preserve the program's meaning. Two source behaviours break that. First, it deletes a loop with an empty body, which turns a loop that never ends into a no-op. Second, it merges a Shift run, which can hide a segmentation fault partway through the run. The model proves structural facts instead: the output length bound, run collapse, loop removal, that input and output are kept in order, and that amounts stay positive.
