# mpsh: the command-line core, modelled in Dafny

mpsh is a small Unix shell written in C (`src/mpsh.c`). This project models the
part of it that structures and dispatches a command line:

- **Tokenizer** (`tokenize.dfy`). The repeated `strtok(line, " \t\r\n\a")` calls
  become one pure function, `Tokens`.
- **Parser specification** (`parser.dfy`). The loop of `mpsh_split_line` becomes a
  pure fold, `Run`/`Parse`. It yields a `Line`: each command's words (its argv),
  its `<` and `>` targets (`files.input[cmdpos]`, `files.output[cmdpos]`), and the
  flags `piping` and `bg`. `Render` writes a line back as tokens, and the
  round-trip lemmas show that `Parse` inverts it.
- **Dispatch** (`dispatcher.dfy`). The decision of `mpsh_execute`: an empty line,
  the pipeline path, a builtin found by ordered lookup in `builtin_str`, or the
  launcher.
- **Launcher** (`launcher.dfy`). The parts of `mpsh_launch` that do not touch the
  operating system: which commands are started, in what order, where the scan
  stops, and how the unsigned short `jobs` numbers background announcements.
- **Shell state** (`mpsh.dfy`). Class `Shell` holds the globals `files`,
  `piping`, `bg`, `jobs` and `history`, and the history array `cmds`. Its methods
  are imperative:
  - `SplitLine` fills a 32×32 `array2` token table and the `files` arrays one
    token at a time, and is proved to build exactly the table of `Parse`.
  - `Execute` loops over the builtin table.
  - `Record` is the history append, and `ListHistory` is `mpsh_history`.
  - `Launch` is the visit loop with the background counter.
  - `Step` is one turn of `mpsh_loop` and ties all of the above together.

A NULL pointer is `None`, and a C string is a `string`, taken to hold no NUL
character. `fork`, `execvp`, `waitpid`, `pipe`, `dup2`, `open`/`creat`, console
I/O and `getline` are not modelled. The launcher records which command indices
it starts instead of starting them. An announcement
`[jobs] (pid) cmds[history-1]` is modelled without its pid: the index of the
command started stands in its place.

## Model

| member | source | states |
|---|---|---|
| Tokenize.Tokens | src/mpsh.c:130-165 | every token strtok hands out is non-empty and holds no character of `" \t\r\n\a"` |
| Tokenize.TokensKeepText | src/mpsh.c:130-165 | the tokens, laid end to end in order, are exactly the non-delimiter characters of the line: nothing but delimiters is dropped and order is kept |
| Tokenize.BlankIffNoTokens | src/mpsh.c:130-131 | a line yields no token if and only if it consists of delimiters only |
| Tokenize.TokensOfUnwords | src/mpsh.c:130-165 | words typed with single spaces between them split back into exactly those words |
| Parser.SymbolSpells | src/mpsh.c:132-148 | a token that matches one of the one-character operators is exactly that operator |
| Parser.Apply | src/mpsh.c:131-166 | one turn of the loop on the token in operator position: `<` and `>` make the next token (NULL if none) the current command's input or output target and consume it; the bar and `;` open a new command whose first word is the next token, and only the bar sets piping; `&` only sets bg; any other token is appended as the next word. Exactly the bar and `;` add a command |
| Parser.Remaining | src/mpsh.c:131-166 | after `<`, `>`, the bar or `;` the loop goes on two tokens later (one strtok in the branch, one at the end of the turn), otherwise one later; the tokens left are always fewer |
| Parser.Run | src/mpsh.c:131-166 | the loop from a given state over the tokens still to come, one turn at a time until strtok returns NULL |
| Parser.Parse | src/mpsh.c:115-169 | the loop from one empty command, with piping and bg reset to 0, over all tokens of the line |
| Parser.Heads | src/mpsh.c:131-166 | the tokens the loop compares against the operators, in order; each is a token of the line |
| Parser.LaterRedirectWins | src/mpsh.c:132-137 | a second `<` (or `>`) for the same command overwrites the first target, and neither enters argv |
| Parser.SeparatorTakesOperatorAsWord | src/mpsh.c:138-147 | for any token t, operator or not, the bar or `;` followed by t opens one new command whose only word so far is t, with no redirection, and leaves bg as it was |
| Parser.RunGrows | src/mpsh.c:131-166 | while the loop runs, no command disappears, stored words are never rewritten, and a set flag stays set |
| Parser.ParseIsParsable | src/mpsh.c:115-169 | every parse has at least one command, piping only with a second command, a word in every inner command, and operators as words only right after a separator |
| Parser.ApplyFlags | src/mpsh.c:138-149 | one turn leaves piping set exactly when it was set or the token is the bar, and bg exactly when it was set or the token is `&` |
| Parser.RunFlags | src/mpsh.c:131-166 | from any state, piping ends up set exactly when it was set or a bar comes in operator position, and likewise bg with `&` |
| Parser.FlagsNeedTheirTokens | src/mpsh.c:123-149 | piping and bg start at 0; piping ends up 1 exactly when a bar comes in operator position and bg exactly when a `&` does; a bar or `&` that is an operand sets nothing |
| Parser.BarAsTargetIsNoSeparator | src/mpsh.c:132-134 | in `a <` followed by a bar, the bar is the input file of `a` and the line is no pipeline |
| Parser.RunWords | src/mpsh.c:150-151 | a run of ordinary words is appended to the current command in input order |
| Parser.PlainLine | src/mpsh.c:150-167 | a line without operators is one command whose argv is its tokens in input order, with no redirection and both flags 0 |
| Parser.RunRendered | src/mpsh.c:131-166 | the tokens of any well-formed line without `&`, followed by more tokens, leave the loop in exactly that line's state |
| Parser.ParseRender | src/mpsh.c:115-169 | parsing the tokens of a well-formed line gives back the same commands, targets and flags |
| Parser.LineRoundTrip | src/mpsh.c:115-169 | typing a well-formed line out with spaces and splitting it gives back the same commands, targets and flags |
| Dispatcher.SizeBuiltins | src/mpsh.c:173-175 | the number of builtins is the length of builtin_str and of the parallel builtin_func |
| Dispatcher.IndexFrom | src/mpsh.c:187-192 | the lookup finds the first builtin name equal to the word, or reports that none is |
| Dispatcher.Lookup | src/mpsh.c:187-192 | the loop over builtin_str from index 0 |
| Dispatcher.Decide | src/mpsh.c:182-195 | the decision from the first words of commands 0 and 1 and piping, tested in the source's order: empty, pipeline, builtin table, launcher |
| Dispatcher.Dispatch | src/mpsh.c:182-195 | the decision for a parsed line, read from its token table as `**args` and `*args[1]` |
| Dispatcher.DecideEmpty | src/mpsh.c:183-184 | nothing is done if and only if the first word of command 0 is NULL |
| Dispatcher.DecidePipeline | src/mpsh.c:185-186 | the pipeline path is taken if and only if commands 0 and 1 have first words and piping is set |
| Dispatcher.DecideBuiltin | src/mpsh.c:187-192 | a builtin runs if and only if its name is the first word and the line is not a pipeline; only `history` receives the history list |
| Dispatcher.DecideLaunch | src/mpsh.c:194 | the launcher gets exactly the non-empty, non-pipeline lines whose first word is no builtin name |
| Dispatcher.BlankLineDoesNothing | src/mpsh.c:183-184 | a line of delimiters only is ignored |
| Dispatcher.PipelineNeedsBar | src/mpsh.c:185-186 | the pipeline path needs a bar token and at least two commands |
| Dispatcher.BuiltinIgnoresLaterCommands | src/mpsh.c:187-192 | on a `;`-separated line, a builtin as the first word runs alone, and the later commands are dropped |
| Dispatcher.SemicolonLineWithBarIsPipeline | src/mpsh.c:185-186 | any `;`-separated line followed by a bar and one more command parses to all its commands with piping set, and goes down the pipeline path as a whole, its `;` commands included |
| Launcher.Bump | src/mpsh.c:269 | `++jobs` on an unsigned short: one more, modulo 65536 |
| Launcher.JobNumbers | src/mpsh.c:266-269 | the numbers printed by n background announcements from a given counter value: each one more than the last, modulo 65536 |
| Launcher.JobsAfter | src/mpsh.c:266-269 | after n announcements the counter holds the last number printed, below 65536 |
| Launcher.JobNumbersContinue | src/mpsh.c:266-269 | numbering continues across lines from where the counter was left |
| Launcher.JobNumbersCount | src/mpsh.c:73 | from the initial 0, background jobs are numbered 1, 2, 3, ... in strictly increasing order |
| Launcher.JobNumberWraps | src/mpsh.c:28 | the 65536th announcement is numbered 0, because jobs is an unsigned short |
| Launcher.StopFrom | src/mpsh.c:257 | the scan from row c stops at the first row whose first word is NULL, or at the end of the table |
| Launcher.Visits | src/mpsh.c:257 | how many commands the launcher starts: rows 0, 1, ... up to the first whose first word is NULL |
| Launcher.VisitsUnique | src/mpsh.c:257 | any scan that stops where the launcher's does has visited the same number of commands |
| Launcher.VisitsCommandsWithWords | src/mpsh.c:257 | on a parsed line the launcher starts exactly the commands that have words, in order |
| Launcher.FullLineLeavesNoEnd | src/mpsh.c:257 | a typed line of 32 commands fits the table and reaches the launcher, yet no row of the table has a NULL first word |
| Mpsh.Allocate | src/mpsh.c:117-121 | the calloc'ed token table and files arrays are new, every slot NULL, and they hold the parse of no tokens |
| Mpsh.PutWord | src/mpsh.c:151 | storing a word at `tokens[cmdpos][pos]` makes the table hold the line with that word added |
| Mpsh.PutInput | src/mpsh.c:134 | `files.input[cmdpos] = token` makes the arrays hold the line with the new input target |
| Mpsh.PutOutput | src/mpsh.c:137 | `files.output[cmdpos] = token` makes the arrays hold the line with the new output target |
| Mpsh.PutCommand | src/mpsh.c:139-142 | terminating the row and writing the next token to row cmdpos+1 makes the table hold the line with the new command |
| Mpsh.PutEnd | src/mpsh.c:167 | the closing NULL keeps the table holding the parsed line |
| Mpsh.ScanRedirect | src/mpsh.c:132-137 | the `<`/`>` turn consumes two tokens, writes the target, and keeps the loop state consistent with Parse |
| Mpsh.ScanSeparator | src/mpsh.c:138-147 | the bar/`;` turn moves to the next row with the next token as its first word, keeping the loop state consistent with Parse |
| Mpsh.ScanAmpersand | src/mpsh.c:148-149 | the `&` turn sets only bg and keeps the loop state consistent with Parse |
| Mpsh.ScanWord | src/mpsh.c:150-151 | an ordinary word turn stores the word, advances pos, and keeps the loop state consistent with Parse |
| Mpsh.Shell.Scan | src/mpsh.c:131-166 | one loop turn keeps the table, the files arrays, piping and bg equal to the parse of the tokens consumed so far |
| Mpsh.Shell.SplitLine | src/mpsh.c:115-169 | the new token table and files arrays hold exactly Parse(Tokens(line)), NULL-terminated, and piping and bg are that parse's flags |
| Mpsh.Shell.Execute | src/mpsh.c:182-195 | the loop over builtin_str returns the decision Decide for the first words of commands 0 and 1 and piping |
| Mpsh.Shell.constructor | src/mpsh.c:72-73 | the history array starts all NULL, with history = jobs = 0 |
| Mpsh.Shell.Record | src/mpsh.c:78-79 | a line other than "\n" is stored at cmds[history] and history grows by one; "\n" changes nothing |
| Mpsh.Numbered | src/mpsh.c:228-229 | the listing: entry i with number i + 1, oldest first |
| Mpsh.Shell.ListHistory | src/mpsh.c:227-231 | every recorded line is listed oldest first with numbers 1, 2, ..., also when all 200 slots are used |
| Mpsh.Shell.ListHistoryAsWritten | src/mpsh.c:228-229 | the listing as written is correct when a NULL slot remains in cmds |
| Mpsh.FullHistoryLeavesNoEnd | src/mpsh.c:228 | after 200 recorded lines no slot of cmds is NULL, so the listing as written reads cmds[200] |
| Mpsh.Announcements | src/mpsh.c:266-269 | the lines printed by n background launches: the next n counter values, each with the command index and the last recorded line |
| Mpsh.Shell.Launch | src/mpsh.c:253-272 | commands 0, 1, ... are visited in order up to the first NULL first word; in the background each visit is announced with the next counter value and the last recorded line |
| Mpsh.Shell.LaunchAsWritten | src/mpsh.c:257-270 | the loop as written visits the same commands and numbers the same announcements when a row with a NULL first word exists |
| Mpsh.VisitedAreVisits | src/mpsh.c:257 | the rows the launcher visits over a parsed table are exactly the first Visits of the line |
| Mpsh.LaunchedLineIsRecorded | src/mpsh.c:78-79 | a line that reaches the launcher is never the bare "\n", so cmds[history - 1] is that line |
| Mpsh.Shell.LaunchRecorded | src/mpsh.c:253-272 | on the table of a parsed line, the launcher starts exactly its first Visits commands; a background line announces them with the next counter values and the line itself; a foreground line announces nothing and leaves jobs alone |
| Mpsh.Shell.Perform | src/mpsh.c:186-194 | after the decision: the launcher's visits and announcements for the launcher, the numbered history for `history`, and for every other outcome no launch, no announcement, no listing and jobs unchanged |
| Mpsh.Shell.Interpret | src/mpsh.c:80-81 | splitting and executing a recorded line leaves files.input and files.output holding its parse and piping and bg its flags, and gives the dispatch of its parse, the launched commands, their announcements (none in the foreground, with jobs unchanged) and the history listing (empty for any other outcome) |
| Mpsh.Shell.Step | src/mpsh.c:75-89 | one turn of the loop records the line, leaves files and the flags holding its parse, then decides, launches or lists exactly as the parse dictates; a foreground launch and every non-launch leave jobs unchanged and announce nothing |

## Left out

- Process plumbing (`fork`, `execvp`, `waitpid`, `pipe`, `dup2`, `open`/`creat` in `mpsh_launch`, `mpsh_redirect` and `mpsh_piping`, src/mpsh.c:253-364): system calls with no computable result. The launcher reports which command indices it would start. The pipeline parent waits `size-1` times on the same last pid (src/mpsh.c:361-362), so it never waits on the earlier stages.
- The job table and the `SIGCHLD` handler of `src/mpsh.h`: only declarations exist. `src/mpsh.h` is not part of this model.
- `mpsh_read_line`, `mpsh_help`, `mpsh_cd`, `mpsh_exit` and the `free` calls of `mpsh_loop`: console I/O, `chdir` and process exit.
- The grow branch of `mpsh_split_line` (src/mpsh.c:154-163): it reallocates the wrong pointer and checks the wrong one for failure. In its place, SplitLine and Step require that the line fits the fixed table: at most 32 commands and at most 31 words each.
- Allocation failure (src/mpsh.c:125-128): Dafny allocation does not fail.
- The 200-slot history array is never checked for overflow (src/mpsh.c:79). Record and Step require room for a recorded line.
- The pid in a background announcement: it comes from `fork`. The announcement carries the command index instead, which the source does not print.
- strtok's hidden static cursor and its writing of NUL bytes into the line: the line is split once by a pure function. A NUL byte inside a line is not modelled.
- Launcher.JobNumbersCount: states the 1, 2, 3, ... numbering only below 65536 announcements, because jobs is an unsigned short and wraps to 0 there (Launcher.JobNumberWraps).

## Findings

| source | as written | input that shows it | evidently intended | confidence | as-written member | corrected member |
|---|---|---|---|---|---|---|
| src/mpsh.c:257 | the launcher loops `for (i = 0; *args[i] != NULL; i++)` over a table of 32 rows | `a ; a ; ... ; a` with 32 commands fits the table and reaches the launcher, and no row has a NULL first word, so the loop reads row 32, past the table (Launcher.FullLineLeavesNoEnd) | stop after the last row of the table | not executed | Mpsh.Shell.LaunchAsWritten | Mpsh.Shell.Launch |
| src/mpsh.c:228 | the listing loops `for (i = 0; cmds[i] != NULL; i++)` over a 200-slot array | after 200 recorded lines no slot is NULL, so `history` reads cmds[200], past the array (Mpsh.FullHistoryLeavesNoEnd) | stop after the last slot of cmds | not executed | Mpsh.Shell.ListHistoryAsWritten | Mpsh.Shell.ListHistory |
