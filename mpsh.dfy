/**
  The state of the shell and the operations of src/mpsh.c that change it in
  place: the tokenizer loop filling the token table and files.input/output,
  the dispatch loop over the builtin table, the history buffer cmds[] with its
  listing, and the launcher's visit loop with the background counter.
 */
module Mpsh {
  import opened Wrappers
  import opened Tokenize
  import opened Parser
  import opened Dispatcher
  import opened Launcher

  /** MPSH_HISTORY_CMD: the number of slots of cmds[]. */
  const HistoryCap: nat := 200

  /**
    A background announcement `[jobs] (pid) cmds[history - 1]`. The pid comes
    from fork and is not modelled; cmd, the index of the command started,
    stands in for it.
   */
  datatype Announcement = Announcement(job: nat, cmd: nat, line: string)

  /** The token table holds the words of the parsed line l, NULL everywhere else. */
  ghost predicate TableHolds(tokens: array2<Option<string>>, l: Line)
    reads tokens
  {
    tokens.Length0 == Cap && tokens.Length1 == Cap &&
    forall c, w :: 0 <= c < Cap && 0 <= w < Cap ==> tokens[c, w] == Slot(l, c, w)
  }

  /** files.input holds the input targets of the parsed line l. */
  ghost predicate InputsHold(input: array<Option<string>>, l: Line)
    reads input
  {
    input.Length == Cap && forall c :: 0 <= c < Cap ==> input[c] == InputOf(l, c)
  }

  /** files.output holds the output targets of the parsed line l. */
  ghost predicate OutputsHold(output: array<Option<string>>, l: Line)
    reads output
  {
    output.Length == Cap && forall c :: 0 <= c < Cap ==> output[c] == OutputOf(l, c)
  }

  /** The token table, files.input and files.output together hold the parsed line l. */
  ghost predicate Holds(tokens: array2<Option<string>>, input: array<Option<string>>, output: array<Option<string>>, l: Line)
    reads tokens, input, output
  {
    TableHolds(tokens, l) && InputsHold(input, l) && OutputsHold(output, l)
  }

  /** The flags are not part of the arrays. */
  lemma HoldsIgnoresFlags(tokens: array2<Option<string>>, input: array<Option<string>>, output: array<Option<string>>, l: Line)
    requires Holds(tokens, input, output, l)
    ensures Holds(tokens, input, output, l.(bg := true))
  {
  }

  /** `tokens[cmdpos][pos++] = token` for an ordinary word t. */
  method PutWord(tokens: array2<Option<string>>, input: array<Option<string>>, output: array<Option<string>>,
                 cmdpos: nat, pos: nat, t: string, ghost l: Line)
    requires Holds(tokens, input, output, l) && l.cmds != []
    requires cmdpos == |l.cmds| - 1 && pos == |Last(l).words| && cmdpos < Cap && pos < Cap
    modifies tokens
    ensures Holds(tokens, input, output, AddWord(l, t))
  {
    SlotsAfterWord(l, t);
    tokens[cmdpos, pos] := Some(t);
  }

  /** `files.input[cmdpos] = token` after a `<`. */
  method PutInput(tokens: array2<Option<string>>, input: array<Option<string>>, output: array<Option<string>>,
                  cmdpos: nat, target: Option<string>, ghost l: Line)
    requires Holds(tokens, input, output, l) && l.cmds != [] && input != output
    requires cmdpos == |l.cmds| - 1 && cmdpos < Cap
    modifies input
    ensures Holds(tokens, input, output, SetInput(l, target))
  {
    SlotsAfterInput(l, target);
    input[cmdpos] := target;
  }

  /** `files.output[cmdpos] = token` after a `>`. */
  method PutOutput(tokens: array2<Option<string>>, input: array<Option<string>>, output: array<Option<string>>,
                   cmdpos: nat, target: Option<string>, ghost l: Line)
    requires Holds(tokens, input, output, l) && l.cmds != [] && input != output
    requires cmdpos == |l.cmds| - 1 && cmdpos < Cap
    modifies output
    ensures Holds(tokens, input, output, SetOutput(l, target))
  {
    SlotsAfterOutput(l, target);
    output[cmdpos] := target;
  }

  /**
    After `|` or `;`: `tokens[cmdpos][pos] = NULL`, then the word that follows
    becomes `tokens[cmdpos + 1][0]`.
   */
  method PutCommand(tokens: array2<Option<string>>, input: array<Option<string>>, output: array<Option<string>>,
                    cmdpos: nat, pos: nat, first: Option<string>, pipe: bool, ghost l: Line)
    requires Holds(tokens, input, output, l) && l.cmds != []
    requires cmdpos == |l.cmds| - 1 && |Last(l).words| <= pos < Cap && cmdpos + 1 < Cap
    modifies tokens
    ensures Holds(tokens, input, output, NewCommand(l, first, pipe))
  {
    tokens[cmdpos, pos] := None;
    SlotsAfterNewCommand(l, first, pipe);
    tokens[cmdpos + 1, 0] := first;
  }

  /** The closing `tokens[cmdpos][pos] = NULL`. */
  method PutEnd(tokens: array2<Option<string>>, input: array<Option<string>>, output: array<Option<string>>,
                cmdpos: nat, pos: nat, ghost l: Line)
    requires Holds(tokens, input, output, l) && l.cmds != []
    requires cmdpos == |l.cmds| - 1 && |Last(l).words| <= pos < Cap && cmdpos < Cap
    modifies tokens
    ensures Holds(tokens, input, output, l)
  {
    tokens[cmdpos, pos] := None;
  }

  /** strtok's cursor: once the tokens have run out it stays at the end. */
  function Advance(toks: seq<string>, i: nat): nat {
    if i < |toks| then i + 1 else i
  }

  /**
    The state of mpsh_split_line's loop: toks[i..] are still to come, token
    is what strtok returned last, cur is the parse of what was consumed, and
    cmdpos and pos point at the slot the next word goes to.
   */
  ghost predicate Scanning(toks: seq<string>, i: nat, token: Option<string>, cmdpos: nat, pos: nat, cur: Line, final: Line)
  {
    i <= |toks| && token == Ahead(toks, i) && cur.cmds != [] && Run(toks[i..], cur) == final &&
    cmdpos == |cur.cmds| - 1 && cmdpos < Cap && |Last(cur).words| <= pos < Cap &&
    (token.Some? ==> pos == |Last(cur).words|)
  }

  /** The calloc'ed token table, files.input and files.output: every slot NULL, as in the parse of no tokens. */
  method Allocate() returns (tokens: array2<Option<string>>, input: array<Option<string>>, output: array<Option<string>>)
    ensures fresh(tokens) && fresh(input) && fresh(output)
    ensures Holds(tokens, input, output, Start) && input != output
  {
    tokens := new Option<string>[Cap, Cap]((_, _) => None);
    input := new Option<string>[Cap](_ => None);
    output := new Option<string>[Cap](_ => None);
  }

  lemma ScanStarts(toks: seq<string>)
    ensures Scanning(toks, 0, Ahead(toks, 0), 0, 0, Start, Parse(toks))
  {
    assert toks[0..] == toks;
  }

  /** Once strtok returns NULL the loop has consumed everything: the state is the parse. */
  lemma ScanEnds(toks: seq<string>, i: nat, cmdpos: nat, pos: nat, cur: Line, final: Line)
    requires Scanning(toks, i, None, cmdpos, pos, cur, final)
    ensures cur == final
  {
    assert toks[i..] == [];
  }

  /** One word: the fold goes on from AddWord, which still fits. */
  lemma WordStep(rest: seq<string>, cur: Line, final: Line)
    requires cur.cmds != [] && rest != [] && !IsOperator(rest[0])
    requires Run(rest, cur) == final && Fits(final)
    ensures Run(rest[1..], AddWord(cur, rest[0])) == final
    ensures Fits(AddWord(cur, rest[0])) && |Last(AddWord(cur, rest[0])).words| < Cap
  {
    RunAtWord(rest, cur);
    RunGrows(rest[1..], AddWord(cur, rest[0]));
  }

  /** `|` or `;`: the fold goes on from NewCommand, which still fits. */
  lemma SeparatorStep(rest: seq<string>, cur: Line, final: Line)
    requires cur.cmds != [] && rest != [] && (Symbol(rest[0]) == '|' || Symbol(rest[0]) == ';')
    requires Run(rest, cur) == final && Fits(final)
    ensures Run(AfterPair(rest), NewCommand(cur, Ahead(rest, 1), Symbol(rest[0]) == '|')) == final
    ensures Fits(NewCommand(cur, Ahead(rest, 1), Symbol(rest[0]) == '|'))
    ensures |cur.cmds| < Cap
  {
    RunAtSeparator(rest, cur);
    RunGrows(AfterPair(rest), NewCommand(cur, Ahead(rest, 1), Symbol(rest[0]) == '|'));
  }

  /** The `<` and `>` branches: the next token becomes files.input or files.output of command cmdpos. */
  method ScanRedirect(tokens: array2<Option<string>>, input: array<Option<string>>, output: array<Option<string>>,
                      toks: seq<string>, i: nat, cmdpos: nat, pos: nat, ghost cur: Line, ghost final: Line)
    returns (next: nat, token: Option<string>, ghost after: Line)
    requires Scanning(toks, i, Ahead(toks, i), cmdpos, pos, cur, final) && i < |toks| && (Symbol(toks[i]) == '<' || Symbol(toks[i]) == '>')
    requires Holds(tokens, input, output, cur) && input != output
    modifies input, output
    ensures i < next && Scanning(toks, next, token, cmdpos, pos, after, final)
    ensures Holds(tokens, input, output, after) && after.piping == cur.piping && after.bg == cur.bg
  {
    ghost var rest := toks[i..];
    assert rest[0] == toks[i];
    next := Advance(toks, i);
    token := Ahead(toks, next);
    assert Ahead(rest, 1) == token;
    if Symbol(toks[i]) == '<' {
      RunAtInput(rest, cur);
      PutInput(tokens, input, output, cmdpos, token, cur);
      after := SetInput(cur, token);
    } else {
      RunAtOutput(rest, cur);
      PutOutput(tokens, input, output, cmdpos, token, cur);
      after := SetOutput(cur, token);
    }
    next := Advance(toks, next);
    token := Ahead(toks, next);
    assert toks[next..] == AfterPair(rest);
  }

  /** The `|` and `;` branches: close command cmdpos and open the next one with the token that follows. */
  method ScanSeparator(tokens: array2<Option<string>>, input: array<Option<string>>, output: array<Option<string>>,
                       toks: seq<string>, i: nat, cmdpos: nat, pos: nat, ghost cur: Line, ghost final: Line)
    returns (next: nat, token: Option<string>, cmdpos': nat, pos': nat, ghost after: Line)
    requires Scanning(toks, i, Ahead(toks, i), cmdpos, pos, cur, final) && i < |toks| && (Symbol(toks[i]) == '|' || Symbol(toks[i]) == ';')
    requires Holds(tokens, input, output, cur) && Fits(final)
    modifies tokens
    ensures i < next && Scanning(toks, next, token, cmdpos', pos', after, final)
    ensures Holds(tokens, input, output, after)
    ensures after.piping == (cur.piping || Symbol(toks[i]) == '|') && after.bg == cur.bg
  {
    ghost var rest := toks[i..];
    assert rest[0] == toks[i];
    SeparatorStep(rest, cur, final);
    next := Advance(toks, i);
    token := Ahead(toks, next);
    assert Ahead(rest, 1) == token;
    PutCommand(tokens, input, output, cmdpos, pos, token, Symbol(toks[i]) == '|', cur);
    cmdpos', pos' := cmdpos + 1, 1;
    after := NewCommand(cur, token, Symbol(toks[i]) == '|');
    next := Advance(toks, next);
    token := Ahead(toks, next);
    assert toks[next..] == AfterPair(rest);
  }

  /** The `&` branch: only the flag bg changes. */
  method ScanAmpersand(tokens: array2<Option<string>>, input: array<Option<string>>, output: array<Option<string>>,
                       toks: seq<string>, i: nat, cmdpos: nat, pos: nat, ghost cur: Line, ghost final: Line)
    returns (next: nat, token: Option<string>, ghost after: Line)
    requires Scanning(toks, i, Ahead(toks, i), cmdpos, pos, cur, final) && i < |toks| && Symbol(toks[i]) == '&'
    requires Holds(tokens, input, output, cur)
    ensures i < next && Scanning(toks, next, token, cmdpos, pos, after, final)
    ensures Holds(tokens, input, output, after) && after.piping == cur.piping && after.bg
  {
    ghost var rest := toks[i..];
    assert rest[0] == toks[i];
    RunAtAmpersand(rest, cur);
    HoldsIgnoresFlags(tokens, input, output, cur);
    after := cur.(bg := true);
    next := Advance(toks, i);
    token := Ahead(toks, next);
    assert toks[next..] == rest[1..];
  }

  /** Any other token is the next word of command cmdpos. */
  method ScanWord(tokens: array2<Option<string>>, input: array<Option<string>>, output: array<Option<string>>,
                  toks: seq<string>, i: nat, cmdpos: nat, pos: nat, ghost cur: Line, ghost final: Line)
    returns (next: nat, token: Option<string>, pos': nat, ghost after: Line)
    requires Scanning(toks, i, Ahead(toks, i), cmdpos, pos, cur, final) && i < |toks| && !IsOperator(toks[i])
    requires Holds(tokens, input, output, cur) && Fits(final)
    modifies tokens
    ensures i < next && Scanning(toks, next, token, cmdpos, pos', after, final)
    ensures Holds(tokens, input, output, after) && after.piping == cur.piping && after.bg == cur.bg
  {
    ghost var rest := toks[i..];
    assert rest[0] == toks[i];
    WordStep(rest, cur, final);
    PutWord(tokens, input, output, cmdpos, pos, toks[i], cur);
    pos' := pos + 1;
    after := AddWord(cur, toks[i]);
    next := Advance(toks, i);
    token := Ahead(toks, next);
    assert toks[next..] == rest[1..];
  }

  /** The lines `[jobs] (pid) line` that n background launches print, starting from counter value j. */
  function Announcements(j: nat, n: nat, line: string): seq<Announcement> {
    seq(n, k requires 0 <= k < n => Announcement(JobNumbers(j, n)[k], k, line))
  }

  /** The 1-based listing that mpsh_history prints. */
  function Numbered(entries: seq<string>): seq<(nat, string)> {
    seq(|entries|, i requires 0 <= i < |entries| => (i + 1, entries[i]))
  }

  /**
    The globals files, piping, bg, jobs and history of src/mpsh.c, and the
    history array cmds that mpsh_loop owns and passes around.
   */
  class Shell {
    var input: array<Option<string>>
    var output: array<Option<string>>
    var piping: bool
    var bg: bool
    var jobs: nat
    var history: nat
    var cmds: array<Option<string>>
    /** The recorded lines, oldest first. */
    ghost var Entries: seq<string>

    /** cmds[0 .. history-1] hold the recorded lines and every later slot is NULL. */
    ghost predicate Valid()
      reads this, cmds
    {
      cmds.Length == HistoryCap && history == |Entries| <= HistoryCap && jobs < UShortLimit &&
      (forall k :: 0 <= k < history ==> cmds[k] == Some(Entries[k])) &&
      (forall k :: history <= k < HistoryCap ==> cmds[k] == None)
    }

    /** The start of mpsh_loop: `cmds[] = {NULL}` and `history = jobs = 0`; files is still unset. */
    constructor ()
      ensures Valid() && fresh(cmds)
      ensures Entries == [] && jobs == 0 && !piping && !bg
    {
      cmds := new Option<string>[HistoryCap](_ => None);
      input := new Option<string>[0];
      output := new Option<string>[0];
      history, jobs := 0, 0;
      piping, bg := false, false;
      Entries := [];
    }

    /** The history append in mpsh_loop: a line other than "\n" goes to cmds[history++]. */
    method Record(line: string)
      requires Valid()
      requires line != "\n" ==> history < HistoryCap
      modifies this`history, this`Entries, cmds
      ensures Valid()
      ensures Entries == if line == "\n" then old(Entries) else old(Entries) + [line]
    {
      if line != "\n" {
        cmds[history] := Some(line);
        history := history + 1;
        Entries := Entries + [line];
      }
    }

    /**
      mpsh_history with its scan bounded by the capacity of cmds: every
      recorded line, oldest first, numbered from 1, also when all 200 slots
      are in use.
     */
    method ListHistory() returns (listing: seq<(nat, string)>)
      requires Valid()
      ensures listing == Numbered(Entries)
    {
      listing := [];
      var i := 0;
      while i < cmds.Length && cmds[i].Some?
        invariant 0 <= i <= history
        invariant listing == Numbered(Entries[..i])
      {
        listing := listing + [(i + 1, cmds[i].value)];
        i := i + 1;
        assert Entries[..i] == Entries[..i - 1] + [Entries[i - 1]];
      }
      assert Entries[..i] == Entries;
    }

    /**
      mpsh_history as written: `for (i = 0; cmds[i] != NULL; i++)`, which
      needs a NULL slot inside cmds to stop at.
     */
    method ListHistoryAsWritten() returns (listing: seq<(nat, string)>)
      requires Valid()
      requires exists k :: 0 <= k < cmds.Length && cmds[k] == None
      ensures listing == Numbered(Entries)
    {
      ghost var stop :| 0 <= stop < cmds.Length && cmds[stop] == None;
      listing := [];
      var i := 0;
      while cmds[i].Some?
        invariant 0 <= i <= history <= stop < cmds.Length
        decreases stop - i
        invariant listing == Numbered(Entries[..i])
      {
        listing := listing + [(i + 1, cmds[i].value)];
        i := i + 1;
        assert Entries[..i] == Entries[..i - 1] + [Entries[i - 1]];
      }
      assert Entries[..i] == Entries;
    }

    /** One turn of mpsh_split_line's loop: the token toks[i] and, after an operator that takes one, the next. */
    method Scan(tokens: array2<Option<string>>, inp: array<Option<string>>, out: array<Option<string>>,
                toks: seq<string>, i: nat, cmdpos: nat, pos: nat, ghost cur: Line, ghost final: Line)
      returns (next: nat, token: Option<string>, cmdpos': nat, pos': nat, ghost after: Line)
      requires Scanning(toks, i, Ahead(toks, i), cmdpos, pos, cur, final) && i < |toks| && Fits(final)
      requires Holds(tokens, inp, out, cur) && inp != out
      requires piping == cur.piping && bg == cur.bg
      modifies tokens, inp, out, this`piping, this`bg
      ensures i < next && Scanning(toks, next, token, cmdpos', pos', after, final)
      ensures Holds(tokens, inp, out, after)
      ensures piping == after.piping && bg == after.bg
    {
      var c := Symbol(toks[i]);
      cmdpos', pos' := cmdpos, pos;
      if c == '<' || c == '>' {
        next, token, after := ScanRedirect(tokens, inp, out, toks, i, cmdpos, pos, cur, final);
      } else if c == '|' || c == ';' {
        if c == '|' {
          piping := true;
        }
        next, token, cmdpos', pos', after := ScanSeparator(tokens, inp, out, toks, i, cmdpos, pos, cur, final);
      } else if c == '&' {
        bg := true;
        next, token, after := ScanAmpersand(tokens, inp, out, toks, i, cmdpos, pos, cur, final);
      } else {
        next, token, pos', after := ScanWord(tokens, inp, out, toks, i, cmdpos, pos, cur, final);
      }
    }

    /**
      mpsh_split_line: fresh token table, files.input and files.output, the
      flags reset, then one pass over the tokens with the cursors cmdpos and
      pos. The result is the table of Parse(Tokens(line)).
     */
    method SplitLine(line: string) returns (tokens: array2<Option<string>>)
      requires Fits(Parse(Tokens(line)))
      modifies this`input, this`output, this`piping, this`bg
      ensures fresh(tokens) && fresh(input) && fresh(output)
      ensures TableHolds(tokens, Parse(Tokens(line)))
      ensures InputsHold(input, Parse(Tokens(line))) && OutputsHold(output, Parse(Tokens(line)))
      ensures piping == Parse(Tokens(line)).piping && bg == Parse(Tokens(line)).bg
    {
      var toks := Tokens(line);
      ghost var final := Parse(toks);
      var inp, out;
      tokens, inp, out := Allocate();
      input, output := inp, out;
      piping, bg := false, false;
      var pos, cmdpos := 0, 0;
      ghost var cur := Start;
      var i := 0;
      var token := Ahead(toks, i);
      ScanStarts(toks);
      while token.Some?
        invariant Scanning(toks, i, token, cmdpos, pos, cur, final)
        invariant piping == cur.piping && bg == cur.bg
        invariant input == inp && output == out && inp != out && Holds(tokens, inp, out, cur)
        decreases |toks| - i
      {
        i, token, cmdpos, pos, cur := Scan(tokens, inp, out, toks, i, cmdpos, pos, cur, final);
      }
      ScanEnds(toks, i, cmdpos, pos, cur, final);
      PutEnd(tokens, inp, out, cmdpos, pos, cur);
    }

    /**
      mpsh_execute's decision, with its loop over builtin_str: the outcome for
      the first words of commands 0 and 1 and the flag piping.
     */
    method Execute(tokens: array2<Option<string>>) returns (o: Outcome)
      requires tokens.Length0 == Cap && tokens.Length1 == Cap
      ensures o == Decide(tokens[0, 0], tokens[1, 0], piping)
    {
      if tokens[0, 0].None? {
        return Empty;
      }
      if tokens[1, 0].Some? && piping {
        return ToPipeline;
      }
      var w := tokens[0, 0].value;
      var i := 0;
      while i < SizeBuiltins()
        invariant 0 <= i <= SizeBuiltins()
        invariant forall j :: 0 <= j < i ==> BuiltinNames[j] != w
      {
        if w == "history" && w == BuiltinNames[i] {
          return ToBuiltin(BuiltinFuncs[i], true);
        } else if w == BuiltinNames[i] {
          return ToBuiltin(BuiltinFuncs[i], false);
        }
        i := i + 1;
      }
      return ToLauncher;
    }

    /**
      mpsh_launch with its scan bounded by the 32 rows of the table: commands
      0, 1, ... are started in order up to the first whose first word is NULL;
      on a background line each start is announced with the next value of the
      unsigned short counter jobs and the last recorded line.
     */
    method Launch(tokens: array2<Option<string>>) returns (visited: seq<nat>, announced: seq<Announcement>)
      requires Valid() && history >= 1
      requires tokens.Length0 == Cap && tokens.Length1 == Cap
      modifies this`jobs
      ensures Valid() && history == old(history) && Entries == old(Entries)
      ensures |visited| <= Cap
      ensures forall k :: 0 <= k < |visited| ==> visited[k] == k && tokens[k, 0].Some?
      ensures |visited| < Cap ==> tokens[|visited|, 0] == None
      ensures !bg ==> announced == [] && jobs == old(jobs)
      ensures bg ==> jobs == JobsAfter(old(jobs), |visited|)
      ensures bg ==> announced == Announcements(old(jobs), |visited|, Entries[history - 1])
    {
      visited, announced := [], [];
      var i := 0;
      while i < Cap && tokens[i, 0].Some?
        invariant 0 <= i <= Cap && |visited| == i
        invariant forall k :: 0 <= k < i ==> visited[k] == k && tokens[k, 0].Some?
        invariant jobs < UShortLimit
        invariant !bg ==> announced == [] && jobs == old(jobs)
        invariant bg ==> jobs == (old(jobs) + i) % UShortLimit && |announced| == i
        invariant bg ==> forall k :: 0 <= k < i ==>
                           announced[k] == Announcement((old(jobs) + k + 1) % UShortLimit, k, Entries[history - 1])
      {
        // fork, mpsh_redirect(i) and execvp in the child, waitpid in the parent: not modelled
        visited := visited + [i];
        if bg {
          BumpAfter(old(jobs), i);
          jobs := Bump(jobs);
          announced := announced + [Announcement(jobs, i, cmds[history - 1].value)];
        }
        i := i + 1;
      }
    }

    /**
      mpsh_launch as written: `for (i = 0; *args[i] != NULL; i++)`, which needs
      a row with a NULL first word inside the table to stop at.
     */
    method LaunchAsWritten(tokens: array2<Option<string>>) returns (visited: seq<nat>, announced: seq<Announcement>)
      requires Valid() && history >= 1
      requires tokens.Length0 == Cap && tokens.Length1 == Cap
      requires exists c :: 0 <= c < Cap && tokens[c, 0] == None
      modifies this`jobs
      ensures Valid()
      ensures |visited| < Cap
      ensures forall k :: 0 <= k < |visited| ==> visited[k] == k && tokens[k, 0].Some?
      ensures tokens[|visited|, 0] == None
      ensures !bg ==> announced == [] && jobs == old(jobs)
      ensures bg ==> jobs == JobsAfter(old(jobs), |visited|)
      ensures bg ==> announced == Announcements(old(jobs), |visited|, Entries[history - 1])
    {
      ghost var stop :| 0 <= stop < Cap && tokens[stop, 0] == None;
      visited, announced := [], [];
      var i := 0;
      while tokens[i, 0].Some?
        invariant 0 <= i <= stop && |visited| == i
        decreases stop - i
        invariant forall k :: 0 <= k < i ==> visited[k] == k && tokens[k, 0].Some?
        invariant jobs < UShortLimit
        invariant !bg ==> announced == [] && jobs == old(jobs)
        invariant bg ==> jobs == (old(jobs) + i) % UShortLimit && |announced| == i
        invariant bg ==> forall k :: 0 <= k < i ==>
                           announced[k] == Announcement((old(jobs) + k + 1) % UShortLimit, k, Entries[history - 1])
      {
        visited := visited + [i];
        if bg {
          BumpAfter(old(jobs), i);
          jobs := Bump(jobs);
          announced := announced + [Announcement(jobs, i, cmds[history - 1].value)];
        }
        i := i + 1;
      }
    }

    /**
      One turn of mpsh_loop for an input line: record it, split it, decide,
      and run the launcher or list the history when that is the decision.
     */
    method Step(line: string) returns (o: Outcome, visited: seq<nat>, announced: seq<Announcement>,
                                       listing: seq<(nat, string)>)
      requires Valid()
      requires line != "\n" ==> history < HistoryCap
      requires Fits(Parse(Tokens(line)))
      modifies this`history, this`Entries, cmds, this`input, this`output, this`piping, this`bg, this`jobs
      ensures Valid()
      ensures Entries == if line == "\n" then old(Entries) else old(Entries) + [line]
      ensures piping == Parse(Tokens(line)).piping && bg == Parse(Tokens(line)).bg
      ensures o == Dispatch(Parse(Tokens(line)))
      ensures InputsHold(input, Parse(Tokens(line))) && OutputsHold(output, Parse(Tokens(line)))
      ensures o == ToLauncher ==> visited == seq(Visits(Parse(Tokens(line))), k => k)
      ensures o == ToLauncher && bg ==>
                jobs == JobsAfter(old(jobs), |visited|) && announced == Announcements(old(jobs), |visited|, line)
      ensures o == ToLauncher && !bg ==> announced == [] && jobs == old(jobs)
      ensures o == ToBuiltin(History, true) ==> listing == Numbered(Entries)
      ensures o != ToBuiltin(History, true) ==> listing == []
      ensures o != ToLauncher ==> visited == [] && announced == [] && jobs == old(jobs)
    {
      Record(line);
      o, visited, announced, listing := Interpret(line);
    }

    /**
      The rest of a turn of mpsh_loop: `args = mpsh_split_line(line)` and
      `mpsh_execute(args, cmds)` on a line already recorded in the history.
     */
    method Interpret(line: string) returns (o: Outcome, visited: seq<nat>, announced: seq<Announcement>,
                                            listing: seq<(nat, string)>)
      requires Valid()
      requires line != "\n" ==> history >= 1 && Entries[history - 1] == line
      requires Fits(Parse(Tokens(line)))
      modifies this`input, this`output, this`piping, this`bg, this`jobs
      ensures Valid()
      ensures piping == Parse(Tokens(line)).piping && bg == Parse(Tokens(line)).bg
      ensures o == Dispatch(Parse(Tokens(line)))
      ensures InputsHold(input, Parse(Tokens(line))) && OutputsHold(output, Parse(Tokens(line)))
      ensures o == ToLauncher ==> visited == seq(Visits(Parse(Tokens(line))), k => k)
      ensures o == ToLauncher && bg ==>
                jobs == JobsAfter(old(jobs), |visited|) && announced == Announcements(old(jobs), |visited|, line)
      ensures o == ToLauncher && !bg ==> announced == [] && jobs == old(jobs)
      ensures o == ToBuiltin(History, true) ==> listing == Numbered(Entries)
      ensures o != ToBuiltin(History, true) ==> listing == []
      ensures o != ToLauncher ==> visited == [] && announced == [] && jobs == old(jobs)
    {
      var tokens := SplitLine(line);
      ghost var l := Parse(Tokens(line));
      assert tokens[0, 0] == Slot(l, 0, 0) && tokens[1, 0] == Slot(l, 1, 0);
      o := Execute(tokens);
      visited, announced, listing := Perform(tokens, line, o);
    }

    /** What follows the decision o of mpsh_execute: the launcher, the history listing, or nothing modelled. */
    method Perform(tokens: array2<Option<string>>, line: string, o: Outcome)
      returns (visited: seq<nat>, announced: seq<Announcement>, listing: seq<(nat, string)>)
      requires Valid()
      requires line != "\n" ==> history >= 1 && Entries[history - 1] == line
      requires TableHolds(tokens, Parse(Tokens(line))) && o == Dispatch(Parse(Tokens(line)))
      modifies this`jobs
      ensures Valid()
      ensures o == ToLauncher ==> visited == seq(Visits(Parse(Tokens(line))), k => k)
      ensures o == ToLauncher && bg ==>
                jobs == JobsAfter(old(jobs), |visited|) && announced == Announcements(old(jobs), |visited|, line)
      ensures o == ToLauncher && !bg ==> announced == [] && jobs == old(jobs)
      ensures o == ToBuiltin(History, true) ==> listing == Numbered(Entries)
      ensures o != ToBuiltin(History, true) ==> listing == []
      ensures o != ToLauncher ==> visited == [] && announced == [] && jobs == old(jobs)
    {
      visited, announced, listing := [], [], [];
      if o == ToLauncher {
        LaunchedLineIsRecorded(line, Entries);
        visited, announced := LaunchRecorded(tokens, line, Parse(Tokens(line)));
      } else if o == ToBuiltin(History, true) {
        listing := ListHistory();
      }
    }

    /** `mpsh_launch(args, cmds)` on the token table of the parsed line l, the last one recorded. */
    method LaunchRecorded(tokens: array2<Option<string>>, line: string, ghost l: Line)
      returns (visited: seq<nat>, announced: seq<Announcement>)
      requires Valid() && history >= 1 && Entries[history - 1] == line
      requires TableHolds(tokens, l)
      modifies this`jobs
      ensures Valid()
      ensures visited == seq(Visits(l), k => k)
      ensures bg ==> jobs == JobsAfter(old(jobs), |visited|) && announced == Announcements(old(jobs), |visited|, line)
      ensures !bg ==> announced == [] && jobs == old(jobs)
    {
      visited, announced := Launch(tokens);
      VisitedAreVisits(tokens, l, visited);
    }
  }

  /**
    A line that reaches the launcher has a word, so it is not the bare newline
    the loop skips: it is the last entry of the history, cmds[history - 1].
   */
  lemma LaunchedLineIsRecorded(line: string, entries: seq<string>)
    requires Dispatch(Parse(Tokens(line))) == ToLauncher
    requires line != "\n" ==> |entries| >= 1 && entries[|entries| - 1] == line
    ensures line != "\n"
    ensures |entries| >= 1 && entries[|entries| - 1] == line
  {
    BlankIffNoTokens(line);
    if line == "\n" {
      assert IsDelim(line[0]);
    }
  }

  /** The rows the launcher's loop visits over the table of l are exactly the first Visits(l). */
  lemma VisitedAreVisits(tokens: array2<Option<string>>, l: Line, visited: seq<nat>)
    requires TableHolds(tokens, l) && |visited| <= Cap
    requires forall k :: 0 <= k < |visited| ==> visited[k] == k && tokens[k, 0].Some?
    requires |visited| < Cap ==> tokens[|visited|, 0] == None
    ensures visited == seq(Visits(l), k => k)
  {
    VisitsUnique(l, |visited|);
  }

  /**
    A full history leaves cmds without the NULL slot that the listing as
    written needs to stop at.
   */
  lemma FullHistoryLeavesNoEnd(s: Shell)
    requires s.Valid() && s.history == HistoryCap
    ensures forall k :: 0 <= k < s.cmds.Length ==> s.cmds[k].Some?
  {
  }
}
