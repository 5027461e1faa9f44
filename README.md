# sish: a model of a small Unix shell's core

`sish.c` is a small interactive shell. Each pass of its main loop takes a line. When no line was left by a `history N` recall, it reads a new one, and then:

- it resolves the backspace characters typed in the line (`rmbksp`);
- it drops the newline and records the line in a 100-entry command history (`addhst`);
- it counts the `|`-separated segments of the line (`countPipe`); a recalled line goes straight to this step.

When a line has no pipe, `strsplt` splits it on spaces into an argument buffer. The shell then does one of two things:

- for one of the built-ins `cd`, `exit`/`logout` or `history` (show, `-c` to clear, `N` to recall line N), it decides what to do in `execbldi`;
- otherwise it runs the program.

When a line has pipes, the shell:

- creates `pipeCount` pipes;
- splits the line on `|` and forks one stage per segment, each wired to its neighbours through `dup2`;
- closes every pipe end and waits for each stage.

The Dafny model follows that structure, one module per piece:

| module | file | models |
|---|---|---|
| `Numeric` | numeric.dfy | `isNum`, `atoi` on digit strings, the `%d` rendering of listing indices |
| `Tokenize` | tokenize.dfy | `strtok_r` as `NextToken`, `strsplt` as the in-place `Split`, `countPipe` |
| `Backspace` | backspace.dfy | `rmbksp`: the two-pointer rewrite of a `char` array, then its NUL padding |
| `HistoryStore` | history.dfy | class `History`: the slot array and count with `addhst`, `clrhist`, `shist` and the count reset of `main` |
| `Builtin` | builtin.dfy | the decisions of `execbldi`, returned as an `Action` |
| `Pipeline` | pipeline.dfy | the pipeline branch of `main` as descriptor bookkeeping: class `FdTable`, one per process |
| `Shell` | shell.dfy | the routing of `main` and one pass of its loop (class `Shell`) |

The main specification functions are:

- `Tokens`: maximal delimiter-free runs.
- `Replay`: a line replayed keystroke by keystroke on a stack.
- `Appended`: append with eviction of the oldest entry.
- `Listing`: the lines `shist` prints.
- `StdinOf` and `StdoutOf`: the wiring conditions of a stage.

The methods are proved against these functions, and the functions' own properties are proved as lemmas. Properties proved this way include:

- splitting round-trips through joining;
- the store keeps the 100 most recent lines in order;
- each pipe has exactly one writer and one reader.

`countPipe` is not the number of `|` characters: it counts the non-empty `|`-separated segments and subtracts one (sish.c:465-492). `Tokenize.CountPipeSkipsEmptySegments` shows lines where the two differ. `Tokenize.CountPipeOfJoinedStages` shows that they agree when no segment is empty.

A recalled line is handed back through `iline` (sish.c:76) and is not recorded again (sish.c:53-58). Two consequences are proved:

- `Builtin.RecallWhatWasListed`: when the `history N` command itself fills the store to 100, the line listed at N - 1 comes back.
- `Shell.RecallOfItselfRepeats`: with c < 99 lines stored, `history c` is stored at index c and recalls itself. Each later pass recalls it again with the store unchanged, so the shell never prompts again.

## Model

| member | source | states |
|---|---|---|
| Numeric.IsNum | sish.c:451-459 | the result is 0 or -1, and it is 0 exactly when every character is an ASCII digit; the empty string counts as numeric |
| Numeric.Decimal | sish.c:400 | the `%d` rendering of an index is non-empty, all digits, and has no leading zero |
| Numeric.DecimalRoundTrip | sish.c:344 | `atoi` applied to the `%d` rendering of n gives n back |
| Tokenize.TokensAreFields | sish.c:282-293 | every token `strtok_r` returns is non-empty and free of the delimiter |
| Tokenize.TokensCoverInput | sish.c:282-293 | concatenated, the tokens are exactly the input with its delimiters removed |
| Tokenize.SplitJoin | sish.c:267-303 | splitting a line written as non-empty, delimiter-free fields joined by the delimiter gives back those fields |
| Tokenize.SplitIsIdempotent | sish.c:267-303 | joining the tokens with single delimiters and splitting again gives the same tokens |
| Tokenize.TokensAfterField | sish.c:282-293 | a non-empty field followed by the delimiter is the first token, and the tokens of the rest follow it |
| Tokenize.WholeLineIsOneToken | sish.c:282-293 | a non-empty line without the delimiter is one token, the whole line |
| Tokenize.NoTokensIffAllDelimiters | sish.c:284-291 | the first `strtok_r` call returns NULL exactly when the line is empty or consists only of delimiters |
| Tokenize.TokensBoundedByDelimiters | sish.c:282-293 | there are never more tokens than delimiters plus one |
| Tokenize.JoinedDelimiters | sish.c:282-293 | a line of k non-empty fields joined by the delimiter has k - 1 delimiters |
| Tokenize.NextToken | sish.c:284 | `strtok_r` from a saved position returns NULL exactly when only delimiters remain; otherwise it returns the first remaining token and a later position from which the rest of the tokens follow |
| Tokenize.Split | sish.c:267-303 | `strsplt` writes the tokens in order into `buf[0..n-1]` and NULL into `buf[n]`, and leaves the rest of `buf` unchanged; it needs at least one token and room for the NULL; the emptiness test on the last token never fires |
| Tokenize.CountTokensFrom | sish.c:478-486 | the `strtok_r` loop counts exactly the tokens after the cursor |
| Tokenize.CountPipe | sish.c:465-492 | `countPipe` is the number of `\|`-separated tokens minus one, which is the number of stages `strsplt` gives for `\|`, minus one |
| Tokenize.CountPipeNegative | sish.c:465-492 | the count is -1 exactly for the empty line and for a line made only of `\|` |
| Tokenize.CountPipeAtMostBars | sish.c:465-492 | the count never exceeds the number of `\|` characters |
| Tokenize.CountPipeOfJoinedStages | sish.c:465-492 | when no segment is empty, the count equals the number of `\|` characters, which is the number of stages minus one |
| Tokenize.CountPipeSkipsEmptySegments | sish.c:465-492 | for `"a\|\|b"`, `"\|a"` and `"a\|"` the count is lower than the number of `\|` characters |
| Backspace.Replay | sish.c:229-250 | the replayed text is no longer than the input and contains no backspace |
| Backspace.ReplayWithoutBackspace | sish.c:229-250 | text without a backspace comes out of the replay unchanged |
| Backspace.ReplayIdempotent | sish.c:223-258 | replaying twice gives the same text as replaying once |
| Backspace.ReplayKeepsLast | sish.c:56-57 | a final ordinary character, such as the newline, survives the replay, so `main` can strip it afterwards |
| Backspace.ReplayWithoutNul | sish.c:229-250 | text without a NUL replays to text without a NUL |
| Backspace.RemoveBackspaces | sish.c:223-258 | `rmbksp` leaves the replayed text at the start of the buffer and NULs from there up to the old terminator, and it does not touch anything after the old terminator |
| Backspace.Compact | sish.c:224-250 | after the copying loop, the prefix of length `write` is the replayed text, the region before the terminator holds no NUL, and the terminator and everything after it are unchanged |
| Backspace.Keystroke | sish.c:235-248 | one pass of the copying loop replays one keystroke on the written prefix, and only the cell at the write position can change, taking the character read |
| Backspace.PadWithNul | sish.c:253-256 | the padding loop writes NUL from the write position up to the terminator and leaves everything else unchanged |
| HistoryStore.FirstEmpty | sish.c:384 | the index where the walks stop: every slot before it is full, and the slot at it is empty |
| HistoryStore.WalkStopsAtCount | sish.c:381-405 | with a spare empty slot after the 100, the walks over a well-formed store stop at the count |
| HistoryStore.FullStoreWalksPastSourceArray | sish.c:384-399 | in the source's 100-slot array, a full store has no empty slot, so the walks run to index 100 |
| HistoryStore.AppendedIsLast | sish.c:413-445 | adding a line keeps the last 100 of the old lines plus the new one |
| HistoryStore.StoreKeepsMostRecent | sish.c:413-445 | after any sequence of additions, the store holds the 100 most recent lines in the order they were added |
| HistoryStore.OneHundredAndOneLines | sish.c:413-445 | adding 101 lines to an empty store evicts only the first one |
| HistoryStore.History.constructor | sish.c:46-48 | an empty store whose slots all start empty |
| HistoryStore.History.Add | sish.c:413-445 | below 100 lines, `addhst` appends the line and increments the count; at 100 it drops slot 0, moves the other slots down by one, puts the line last, and the count stays 100; the slot and count invariant is kept |
| HistoryStore.History.Evict | sish.c:415-429 | at capacity, slots 1..99 move down one place and slot 0 is dropped; slot 99 and the spare slot keep their contents, and the count drops to 99 |
| HistoryStore.History.Clear | sish.c:381-390 | `clrhist` empties every slot before the first empty one and touches nothing after it; the count is left unchanged |
| HistoryStore.History.Show | sish.c:396-405 | `shist` prints `"i text"` for each stored line, in ascending order of i |
| HistoryStore.History.ResetIfEmpty | sish.c:81-82 | after a clear, the count goes back to 0 and the store is empty again; otherwise nothing changes |
| Builtin.RecallSlot | sish.c:358 | the slot that `history N` reads always holds a stored line |
| Builtin.HistoryZeroAtCapacityAsWritten | sish.c:343-358 | with a full store, `history 0` passes both guards, and then the slot read is -1 |
| Builtin.Decide | sish.c:312-375 | each outcome of `execbldi` occurs exactly under its condition: `cd` with or without a path; `exit`/`logout`; `history` to show; `history -c`; a non-numeric argument; out of bound; or the recalled line, which is the stored entry at `N`, or at `N - 1` when the store is full |
| Builtin.Status | sish.c:312-375 | the result is 0 or -1, and it is -1 exactly when an error was reported |
| Builtin.RecallWhatWasListed | sish.c:352-359 | `history n`, typed after a listing and recorded by `addhst` (sish.c:58), returns the line listed at n. There are two exceptions: when the command itself fills the store to 100, it returns the line listed at n - 1; with a store of 99 or more lines, `history 0` is out of bound |
| Pipeline.StdinOf | sish.c:145-150 | a stage reads from a pipe only when that pipe exists |
| Pipeline.StdoutOf | sish.c:154-159 | a stage writes to a pipe only when that pipe exists |
| Pipeline.OneWriterOneReader | sish.c:145-159 | pipe k is the standard output of stage k alone and the standard input of stage k + 1 alone |
| Pipeline.StagesFormAChain | sish.c:145-159 | only the first stage keeps the shell's input, only the last keeps its output, and every other stage reads what its left neighbour writes |
| Pipeline.FdTable.constructor | sish.c:108 | a process with room for `pipeCount` pipes, none of them open yet |
| Pipeline.FdTable.Pipe | sish.c:121 | `pipe(fd[k])` opens both ends of pipe k and changes nothing else |
| Pipeline.FdTable.Fork | sish.c:135 | the child's descriptor table is a copy of the parent's |
| Pipeline.FdTable.RedirectStdin | sish.c:146 | standard input becomes the read end of pipe k, which must be open |
| Pipeline.FdTable.RedirectStdout | sish.c:155 | standard output becomes the write end of pipe k, which must be open |
| Pipeline.FdTable.CloseAll | sish.c:162-167 | both ends of every pipe are closed; the parent runs the same loop at sish.c:183-188 |
| Pipeline.WiredPipesHaveOneWriterOneReader | sish.c:141-167 | once every stage is wired, pipe k is held for writing only by stage k and for reading only by stage k + 1 |
| Pipeline.CreatePipes | sish.c:120-125 | the count-down loop opens every one of the `pipeCount` pipes |
| Pipeline.SpawnStage | sish.c:141-167 | a forked stage ends up with its standard input and output set as `StdinOf` and `StdoutOf` say, and with no other pipe end open |
| Pipeline.WaitAll | sish.c:191-198 | the parent waits for `cpid[0]` through `cpid[pipeCount]`, in that order |
| Pipeline.Launch | sish.c:105-199 | there is one stage per segment, each running its own segment and wired as its index says; every pipe has one writer and one reader; the parent has closed every pipe; the stages waited for are exactly the `pipeCount + 1` stages forked |
| Shell.Route | sish.c:64-128 | a line is blank exactly when it is made only of bar characters or only of spaces. A pipe count of 0 gives the single-command path with the space tokens as arguments; a positive pipe count gives the pipeline path with `pipeCount + 1` stages, the `\|` tokens. A line is refused when its tokens do not fit the 1000-slot buffer |
| Shell.BlankLineAsWritten | sish.c:284-296 | a line of bar characters only has pipe count -1 (which `main` uses as the size of `fd` at sish.c:108) and no token; a line of spaces only has pipe count 0 and no space token |
| Shell.ThousandWordsAsWritten | sish.c:282-293 | a line of 1000 one-letter words has pipe count 0 and 1000 tokens, so the NULL after them lands outside the 1000-slot `myargs` of sish.c:45 |
| Shell.ListingLineSplits | sish.c:400 | a line printed by `shist` splits on spaces into its index followed by the words of the stored line |
| Shell.HistoryCommandWords | sish.c:64-71 | the line `history n` has pipe count 0 and splits on spaces into `history` and the index |
| Shell.RecallOfItselfRepeats | sish.c:352-358 | with c < 99 lines stored, the line `history c` routes to the built-in and, once stored at index c, recalls exactly itself |
| Shell.Shell.constructor | sish.c:42-49 | the shell starts with an empty history and no pending line |
| Shell.Shell.Accept | sish.c:53-59 | a typed line is the replay of what was typed, without the newline; the buffer holds that line followed by a NUL, and the line is added to the history |
| Shell.Shell.RunBuiltin | sish.c:74-83 | the built-in's decision is taken against the current history. A listing is what `shist` prints. A clear empties the store and resets the count. A recalled line is left pending for the next pass; otherwise the history is unchanged |
| Shell.Shell.Run | sish.c:64-200 | the line's route decides the outcome. A built-in acts as `Decide` says. A program runs with `Argv` of its tokens. A pipeline launches one stage per segment, each wired as its index says, and waits for all of them |
| Shell.Shell.RunCommand | sish.c:67-103 | on the single-command path, the outcome is a built-in exactly when the first word is a built-in verb; otherwise the outcome is the execution of the tokenised argument buffer |
| Shell.Shell.RunPipeline | sish.c:105-200 | the pipeline path launches `pipeCount + 1` wired stages running the segments in order, and waits for each of them |
| Shell.Shell.Step | sish.c:51-201 | one pass of the loop. A freshly typed line is normalised and recorded; a recalled line runs as it is and is not recorded again. Built-ins see the history as recorded in this pass, and only a recall leaves a line pending |

## Left out

- `fork`, `pipe` and `dup2` are modelled only for their effect on descriptors (`Pipeline.FdTable`). Their process effects and failure paths are not modelled, and neither are `execvp` and `waitpid` (sish.c:86-100, sish.c:120-198). A forked stage is recorded as its descriptor state just before `execvp`, and a process handle is its stage index.
- The child's own `strsplt` of its segment and its `execvp` (sish.c:169-175) are left out. A segment made only of spaces (as in `a | | b`) would again give `strsplt` no token.
- `chdir` and `exit` in `execbldi` are not modelled (sish.c:317, sish.c:329). They are returned as `ChangeDirectory` and `Terminate`; `Builtin.Status` takes whether `chdir` failed as a parameter.
- `main` ignores the status `execbldi` returns, and so does the model.
- The model has no terminal I/O: the prompt, `getline`, `printf`, `perror` and `err_exit` are left out. `getline` is replaced by a NUL-terminated buffer that ends in a newline (`Shell.TypedLine`), and the listing is returned as a sequence of lines.
- `malloc` failures, and the `free` calls on pointers already set to NULL, are not modelled; lines and history entries are values.
- Numeric.DigitsValue: does not model the overflow of `atoi` on long digit strings; the value is an unbounded natural.
- `main` leaves `hist` uninitialised (sish.c:46); the model starts with every slot empty.
- HistoryStore.History: the slot array has 101 slots. The last one is always empty, so the walks of `clrhist` and `shist` stop inside the array when 100 lines are stored; the source's 100-slot array has no such stop (see Findings).
- Tokenize.Split: the delimiter is a single character, which is all the source ever passes (`" "` and `"|"`). The private copy that `strsplt` and `countPipe` tokenise is implicit, because the input is a value.
- The end of input (EOF on `getline`) is not modelled.

## Findings

| source | as written | input that shows it | evidently intended | confidence | as-written member | corrected member |
|---|---|---|---|---|---|---|
| sish.c:358 | with 100 lines stored, `history 0` passes the bound and empty-slot checks and reads `hist[-1]` | 100 stored lines, then `history 0` | `history 0` at capacity refers to the line already evicted, so it is out of bound | not executed | Builtin.HistoryZeroAtCapacityAsWritten | Builtin.Decide |
| sish.c:384, sish.c:399 | with 100 lines stored, `clrhist` and `shist` walk until they find an empty slot, and the 100-slot array has none, so they read `hist[100]`. Below capacity, the walks and the test `hist[argNum] != NULL` at sish.c:352 rely on empty slots that `main` never sets up (`hist` is uninitialised at sish.c:46), so they read uninitialised slots from the first command on; the model starts with every slot empty | 100 stored lines, then `history` or `history -c` | the walks stop at the count | not executed | HistoryStore.FullStoreWalksPastSourceArray | HistoryStore.WalkStopsAtCount |
| sish.c:64, sish.c:108, sish.c:289-296 | an empty line, or a line of only `\|`, has pipe count -1, which takes the pipeline path with `fd[-1]`; a line of only spaces has pipe count 0 and gives `strsplt` no token, so `strsplt` reads `buf[-1]` | the empty line; `"\|"`; `" "` | a blank line is ignored | not executed | Shell.BlankLineAsWritten | Shell.Route |
| sish.c:45, sish.c:282-293 | `strsplt` does not bound its index, and 1000 tokens put the terminating NULL at `myargs[1000]` | a line of 1000 one-letter words | a line with more arguments than the buffer holds is refused | not executed | Shell.ThousandWordsAsWritten | Shell.Route |
