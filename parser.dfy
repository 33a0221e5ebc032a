/**
  What mpsh_split_line (src/mpsh.c:115-169) computes, stated as a pure
  function over the tokens of the line: the words of each command (its argv
  without the closing NULL), each command's redirection targets
  (files.input[cmdpos], files.output[cmdpos]) and the flags piping and bg.
  The imperative loop over the token table is Mpsh.Shell.SplitLine, proved
  against Parse.
 */
module Parser {
  import opened Wrappers
  import opened Tokenize

  /** MPSH_TOK_BUFSIZE: rows and columns of the token table, length of files.input and files.output. */
  const Cap: nat := 32

  /** One command: its words in order and its redirection targets (NULL is None). */
  datatype Command = Command(words: seq<string>, input: Option<string>, output: Option<string>)

  /** A parsed line: the commands at cmdpos 0, 1, ..., and the values of the globals piping and bg. */
  datatype Line = Line(cmds: seq<Command>, piping: bool, bg: bool)

  const Blank := Command([], None, None)

  /** The state before the first token: one empty command, piping = bg = 0. */
  const Start := Line([Blank], false, false)

  /** The tokens the loop gives a meaning of their own when they come in operator position. */
  predicate IsOperator(t: string) {
    var c := Symbol(t); c == '<' || c == '>' || c == '|' || c == ';' || c == '&'
  }

  /**
    What strcmp against the one-character operators sees: the character of a
    one-character token, or a space (never inside a token) for any other.
   */
  function Symbol(t: string): char {
    if |t| == 1 then t[0] else ' '
  }

  /** The token k places ahead, or NULL once strtok has run out. */
  function Ahead(rest: seq<string>, k: nat): Option<string> {
    if k < |rest| then Some(rest[k]) else None
  }

  /** The tokens left after an operator and the token it consumes. */
  function AfterPair(rest: seq<string>): seq<string> {
    if |rest| >= 2 then rest[2..] else []
  }

  /** The command at cmdpos, the one being filled. */
  function Last(l: Line): Command
    requires l.cmds != []
  {
    l.cmds[|l.cmds| - 1]
  }

  function WithLast(l: Line, c: Command): Line
    requires l.cmds != []
  {
    l.(cmds := l.cmds[|l.cmds| - 1 := c])
  }

  /** `tokens[cmdpos][pos++] = token` for an ordinary word. */
  function AddWord(l: Line, w: string): Line
    requires l.cmds != []
  {
    WithLast(l, Last(l).(words := Last(l).words + [w]))
  }

  /** `files.input[cmdpos] = token` after `<`. */
  function SetInput(l: Line, target: Option<string>): Line
    requires l.cmds != []
  {
    WithLast(l, Last(l).(input := target))
  }

  /** `files.output[cmdpos] = token` after `>`. */
  function SetOutput(l: Line, target: Option<string>): Line
    requires l.cmds != []
  {
    WithLast(l, Last(l).(output := target))
  }

  /** After `|` or `;`: close the command and open cmdpos+1 with the next token as its first word. */
  function NewCommand(l: Line, first: Option<string>, pipe: bool): Line {
    Line(l.cmds + [Command(if first.Some? then [first.value] else [], None, None)], l.piping || pipe, l.bg)
  }

  /** A token whose symbol is not a space is exactly that one character. */
  lemma SymbolSpells(t: string)
    ensures Symbol(t) != ' ' ==> t == [Symbol(t)]
  {
  }

  /** The operators that consume the token after them: `<`, `>`, `|` and `;`. */
  predicate TakesOperand(t: string) {
    var c := Symbol(t); c == '<' || c == '>' || c == '|' || c == ';'
  }

  /** One turn of the loop: what the token rest[0] (with the one after it, for an operator that takes one) does. */
  function Apply(rest: seq<string>, st: Line): (r: Line)
    requires rest != [] && st.cmds != []
    ensures r.cmds != []
    ensures |r.cmds| == |st.cmds| + (if Symbol(rest[0]) == '|' || Symbol(rest[0]) == ';' then 1 else 0)
  {
    var c := Symbol(rest[0]);
    if c == '<' then SetInput(st, Ahead(rest, 1))
    else if c == '>' then SetOutput(st, Ahead(rest, 1))
    else if c == '|' then NewCommand(st, Ahead(rest, 1), true)
    else if c == ';' then NewCommand(st, Ahead(rest, 1), false)
    else if c == '&' then st.(bg := true)
    else AddWord(st, rest[0])
  }

  /** The tokens left after that turn. */
  function Remaining(rest: seq<string>): (r: seq<string>)
    requires rest != []
    ensures |r| < |rest|
  {
    if TakesOperand(rest[0]) then AfterPair(rest) else rest[1..]
  }

  /** The loop of mpsh_split_line from state st over the tokens still to come. */
  function Run(rest: seq<string>, st: Line): Line
    requires st.cmds != []
    decreases |rest|
  {
    if rest == [] then st else Run(Remaining(rest), Apply(rest, st))
  }

  /**
    The tokens the loop looks at in operator position, in order; the others are
    consumed as the operand of the operator before them.
   */
  function Heads(rest: seq<string>): (r: seq<string>)
    ensures |r| <= |rest|
    ensures forall t :: t in r ==> t in rest
    decreases |rest|
  {
    if rest == [] then [] else [rest[0]] + Heads(Remaining(rest))
  }

  lemma RunAtWord(rest: seq<string>, st: Line)
    requires st.cmds != [] && rest != [] && !IsOperator(rest[0])
    ensures Run(rest, st) == Run(rest[1..], AddWord(st, rest[0]))
  {
  }

  lemma RunAtInput(rest: seq<string>, st: Line)
    requires st.cmds != [] && rest != [] && Symbol(rest[0]) == '<'
    ensures Run(rest, st) == Run(AfterPair(rest), SetInput(st, Ahead(rest, 1)))
  {
  }

  lemma RunAtOutput(rest: seq<string>, st: Line)
    requires st.cmds != [] && rest != [] && Symbol(rest[0]) == '>'
    ensures Run(rest, st) == Run(AfterPair(rest), SetOutput(st, Ahead(rest, 1)))
  {
  }

  lemma RunAtSeparator(rest: seq<string>, st: Line)
    requires st.cmds != [] && rest != [] && (Symbol(rest[0]) == '|' || Symbol(rest[0]) == ';')
    ensures Run(rest, st) == Run(AfterPair(rest), NewCommand(st, Ahead(rest, 1), Symbol(rest[0]) == '|'))
  {
  }

  lemma RunAtAmpersand(rest: seq<string>, st: Line)
    requires st.cmds != [] && rest != [] && Symbol(rest[0]) == '&'
    ensures Run(rest, st) == Run(rest[1..], st.(bg := true))
  {
  }

  /**
    A second `<` (or `>`) for the same command overwrites the first target,
    and neither the operators nor the targets become words.
   */
  lemma LaterRedirectWins(op: string, x: string, y: string, rest: seq<string>, st: Line)
    requires st.cmds != [] && (op == "<" || op == ">")
    ensures var after := if op == "<" then SetInput(st, Some(y)) else SetOutput(st, Some(y));
            Run([op, x, op, y] + rest, st) == Run(rest, after) &&
            after.cmds[|st.cmds| - 1].words == Last(st).words
  {
    var toks := [op, x, op, y] + rest;
    assert toks[0] == op && Ahead(toks, 1) == Some(x) && AfterPair(toks) == [op, y] + rest;
    var mid := if op == "<" then SetInput(st, Some(x)) else SetOutput(st, Some(x));
    var toks2 := [op, y] + rest;
    assert toks2[0] == op && Ahead(toks2, 1) == Some(y) && AfterPair(toks2) == rest;
    if op == "<" {
      RunAtInput(toks, st);
      RunAtInput(toks2, mid);
      assert SetInput(mid, Some(y)) == SetInput(st, Some(y));
    } else {
      RunAtOutput(toks, st);
      RunAtOutput(toks2, mid);
      assert SetOutput(mid, Some(y)) == SetOutput(st, Some(y));
    }
  }

  /**
    The token after `|` or `;` becomes the next command's first word as it is,
    whatever it is: after a separator even `&`, `<` or `|` is a word, and the
    flag bg is left alone.
   */
  lemma SeparatorTakesOperatorAsWord(sep: string, t: string, rest: seq<string>, st: Line)
    requires st.cmds != [] && (sep == "|" || sep == ";")
    ensures var next := NewCommand(st, Some(t), sep == "|");
            Run([sep, t] + rest, st) == Run(rest, next) &&
            |next.cmds| == |st.cmds| + 1 && Last(next) == Command([t], None, None) && next.bg == st.bg
  {
    var toks := [sep, t] + rest;
    assert toks[0] == sep && Ahead(toks, 1) == Some(t) && AfterPair(toks) == rest;
    RunAtSeparator(toks, st);
  }

  /**
    Commands only ever grow while the loop runs: no command disappears, the
    words already stored are never rewritten, and a flag once set stays set.
   */
  lemma ApplyGrows(rest: seq<string>, st: Line)
    requires rest != [] && st.cmds != []
    ensures |st.cmds| <= |Apply(rest, st).cmds|
    ensures forall c :: 0 <= c < |st.cmds| ==> st.cmds[c].words <= Apply(rest, st).cmds[c].words
    ensures st.piping ==> Apply(rest, st).piping
    ensures st.bg ==> Apply(rest, st).bg
  {
  }

  lemma {:induction false} RunGrows(rest: seq<string>, st: Line)
    requires st.cmds != []
    ensures |st.cmds| <= |Run(rest, st).cmds|
    ensures forall c :: 0 <= c < |st.cmds| ==> st.cmds[c].words <= Run(rest, st).cmds[c].words
    ensures st.piping ==> Run(rest, st).piping
    ensures st.bg ==> Run(rest, st).bg
    decreases |rest|
  {
    if rest != [] {
      ApplyGrows(rest, st);
      RunGrows(Remaining(rest), Apply(rest, st));
    }
  }

  /** The parse of a whole token list. */
  function Parse(toks: seq<string>): Line {
    Run(toks, Start)
  }

  /**
    The fixed-size table holds the line: at most 32 commands (cmdpos <= 31)
    and at most 31 words per command (pos never reaches the broken grow branch).
   */
  predicate Fits(l: Line) {
    |l.cmds| <= Cap && forall c :: 0 <= c < |l.cmds| ==> |l.cmds[c].words| < Cap
  }

  /** tokens[c][w] of the returned table: a word, or NULL (calloc'ed or written as terminator). */
  function Slot(l: Line, c: nat, w: nat): Option<string> {
    if c < |l.cmds| && w < |l.cmds[c].words| then Some(l.cmds[c].words[w]) else None
  }

  /** files.input[c] after the call. */
  function InputOf(l: Line, c: nat): Option<string> {
    if c < |l.cmds| then l.cmds[c].input else None
  }

  /** files.output[c] after the call. */
  function OutputOf(l: Line, c: nat): Option<string> {
    if c < |l.cmds| then l.cmds[c].output else None
  }

  lemma SlotsAfterWord(l: Line, t: string)
    requires l.cmds != []
    ensures forall c, w :: Slot(AddWord(l, t), c, w) ==
              if c == |l.cmds| - 1 && w == |Last(l).words| then Some(t) else Slot(l, c, w)
    ensures forall c :: InputOf(AddWord(l, t), c) == InputOf(l, c) && OutputOf(AddWord(l, t), c) == OutputOf(l, c)
  {
  }

  lemma SlotsAfterInput(l: Line, target: Option<string>)
    requires l.cmds != []
    ensures forall c, w :: Slot(SetInput(l, target), c, w) == Slot(l, c, w)
    ensures forall c :: InputOf(SetInput(l, target), c) == if c == |l.cmds| - 1 then target else InputOf(l, c)
    ensures forall c :: OutputOf(SetInput(l, target), c) == OutputOf(l, c)
  {
  }

  lemma SlotsAfterOutput(l: Line, target: Option<string>)
    requires l.cmds != []
    ensures forall c, w :: Slot(SetOutput(l, target), c, w) == Slot(l, c, w)
    ensures forall c :: InputOf(SetOutput(l, target), c) == InputOf(l, c)
    ensures forall c :: OutputOf(SetOutput(l, target), c) == if c == |l.cmds| - 1 then target else OutputOf(l, c)
  {
  }

  lemma SlotsAfterNewCommand(l: Line, first: Option<string>, pipe: bool)
    ensures forall c, w :: Slot(NewCommand(l, first, pipe), c, w) ==
              if c == |l.cmds| && w == 0 then first else Slot(l, c, w)
    ensures forall c :: InputOf(NewCommand(l, first, pipe), c) == InputOf(l, c)
    ensures forall c :: OutputOf(NewCommand(l, first, pipe), c) == OutputOf(l, c)
  {
  }

  // ---------------------------------------------------------------------------
  // What every parse looks like

  /**
    The shape every parse has: at least one command; piping only with a second
    command; every command strictly between the first and the last has a word;
    an operator token is a word only as the first word of a command after a
    separator (where it is copied verbatim).
   */
  ghost predicate Parsable(l: Line) {
    |l.cmds| >= 1 &&
    (l.piping ==> |l.cmds| >= 2) &&
    (forall c :: 1 <= c < |l.cmds| - 1 ==> l.cmds[c].words != []) &&
    forall c, k :: 0 <= c < |l.cmds| && 0 <= k < |l.cmds[c].words| && IsOperator(l.cmds[c].words[k]) ==>
      c > 0 && k == 0
  }

  /**
    What holds between tokens of the loop, and the lines Render can write back:
    Parsable, and even the last command after a separator has a word.
   */
  ghost predicate WellFormed(l: Line) {
    Parsable(l) && forall c :: 1 <= c < |l.cmds| ==> l.cmds[c].words != []
  }

  lemma WellFormedSetInput(st: Line, target: Option<string>)
    requires st.cmds != [] && WellFormed(st)
    ensures WellFormed(SetInput(st, target))
  {
    assert forall c :: 0 <= c < |st.cmds| ==> SetInput(st, target).cmds[c].words == st.cmds[c].words;
  }

  lemma WellFormedSetOutput(st: Line, target: Option<string>)
    requires st.cmds != [] && WellFormed(st)
    ensures WellFormed(SetOutput(st, target))
  {
    assert forall c :: 0 <= c < |st.cmds| ==> SetOutput(st, target).cmds[c].words == st.cmds[c].words;
  }

  lemma WellFormedAddWord(st: Line, w: string)
    requires st.cmds != [] && WellFormed(st) && !IsOperator(w)
    ensures WellFormed(AddWord(st, w))
  {
    var next := AddWord(st, w);
    assert forall c :: 0 <= c < |st.cmds| - 1 ==> next.cmds[c] == st.cmds[c];
    assert Last(next).words == Last(st).words + [w];
  }

  lemma ParsableNewCommand(st: Line, first: Option<string>, pipe: bool)
    requires WellFormed(st)
    ensures Parsable(NewCommand(st, first, pipe))
    ensures first.Some? ==> WellFormed(NewCommand(st, first, pipe))
  {
    var next := NewCommand(st, first, pipe);
    assert forall c :: 0 <= c < |st.cmds| ==> next.cmds[c] == st.cmds[c];
  }

  lemma ApplyIsParsable(rest: seq<string>, st: Line)
    requires rest != [] && st.cmds != [] && WellFormed(st)
    ensures Parsable(Apply(rest, st))
    ensures Remaining(rest) != [] ==> WellFormed(Apply(rest, st))
  {
    var c := Symbol(rest[0]);
    if c == '<' {
      WellFormedSetInput(st, Ahead(rest, 1));
    } else if c == '>' {
      WellFormedSetOutput(st, Ahead(rest, 1));
    } else if c == '|' || c == ';' {
      ParsableNewCommand(st, Ahead(rest, 1), c == '|');
    } else if c == '&' {
    } else {
      WellFormedAddWord(st, rest[0]);
    }
  }

  lemma {:induction false} RunIsParsable(rest: seq<string>, st: Line)
    requires st.cmds != [] && WellFormed(st)
    ensures Parsable(Run(rest, st))
    decreases |rest|
  {
    if rest != [] {
      ApplyIsParsable(rest, st);
      if Remaining(rest) != [] {
        RunIsParsable(Remaining(rest), Apply(rest, st));
      }
    }
  }

  /** Every parse has the shape Parsable describes. */
  lemma ParseIsParsable(toks: seq<string>)
    ensures Parsable(Parse(toks))
  {
    RunIsParsable(toks, Start);
  }

  /** One turn sets piping exactly on a `|` token and bg exactly on a `&` token; neither is ever cleared. */
  lemma ApplyFlags(rest: seq<string>, st: Line)
    requires rest != [] && st.cmds != []
    ensures Apply(rest, st).piping <==> st.piping || rest[0] == "|"
    ensures Apply(rest, st).bg <==> st.bg || rest[0] == "&"
  {
    SymbolSpells(rest[0]);
  }

  lemma {:induction false} RunFlags(rest: seq<string>, st: Line)
    requires st.cmds != []
    ensures Run(rest, st).piping <==> st.piping || "|" in Heads(rest)
    ensures Run(rest, st).bg <==> st.bg || "&" in Heads(rest)
    decreases |rest|
  {
    if rest != [] {
      ApplyFlags(rest, st);
      RunFlags(Remaining(rest), Apply(rest, st));
      assert Heads(rest) == [rest[0]] + Heads(Remaining(rest));
    }
  }

  /**
    Both flags start at 0. piping ends up 1 exactly when a `|` comes in
    operator position, and bg exactly when a `&` does; a `|` or `&` that is
    the operand of `<`, `>`, `|` or `;` sets nothing.
   */
  lemma FlagsNeedTheirTokens(toks: seq<string>)
    ensures Parse(toks).piping <==> "|" in Heads(toks)
    ensures Parse(toks).bg <==> "&" in Heads(toks)
    ensures Parse(toks).piping ==> "|" in toks
    ensures Parse(toks).bg ==> "&" in toks
  {
    RunFlags(toks, Start);
  }

  /** `a < |`: the `|` is the input file, so the line is no pipeline. */
  lemma BarAsTargetIsNoSeparator()
    ensures Heads(["a", "<", "|"]) == ["a", "<"]
    ensures Parse(["a", "<", "|"]) == Line([Command(["a"], Some("|"), None)], false, false)
  {
    var toks := ["a", "<", "|"];
    assert Remaining(toks) == toks[1..] && Remaining(toks[1..]) == [];
    RunAtWord(toks, Start);
    var st := AddWord(Start, "a");
    assert Last(Start).words + ["a"] == ["a"];
    assert toks[1..] == ["<", "|"] && AfterPair(toks[1..]) == [];
    RunAtInput(toks[1..], st);
  }

  // ---------------------------------------------------------------------------
  // Ordinary words

  /** The command being filled, with the words ws appended. */
  function WithWords(st: Line, ws: seq<string>): Line
    requires st.cmds != []
  {
    WithLast(st, Last(st).(words := Last(st).words + ws))
  }

  lemma WithNoWords(st: Line)
    requires st.cmds != []
    ensures WithWords(st, []) == st
  {
    assert Last(st).words + [] == Last(st).words;
  }

  lemma WithMoreWords(ws: seq<string>, rest: seq<string>, st: Line)
    requires st.cmds != [] && ws != []
    ensures (ws + rest)[0] == ws[0] && (ws + rest)[1..] == ws[1..] + rest
    ensures WithWords(AddWord(st, ws[0]), ws[1..]) == WithWords(st, ws)
  {
    assert Last(st).words + [ws[0]] + ws[1..] == Last(st).words + ws;
  }

  lemma {:induction false} RunWords(ws: seq<string>, rest: seq<string>, st: Line)
    requires st.cmds != []
    requires forall k :: 0 <= k < |ws| ==> !IsOperator(ws[k])
    ensures Run(ws + rest, st) == Run(rest, WithWords(st, ws))
    decreases |ws|
  {
    if ws == [] {
      assert ws + rest == rest;
      WithNoWords(st);
    } else {
      WithMoreWords(ws, rest, st);
      RunAtWord(ws + rest, st);
      RunWords(ws[1..], rest, AddWord(st, ws[0]));
    }
  }

  /** A line without operators is one command whose argv is the tokens in input order. */
  lemma PlainLine(toks: seq<string>)
    requires forall k :: 0 <= k < |toks| ==> !IsOperator(toks[k])
    ensures Parse(toks) == Line([Command(toks, None, None)], false, false)
  {
    RunWords(toks, [], Start);
    assert toks + [] == toks;
    assert Last(Start).words + toks == toks;
  }

  // ---------------------------------------------------------------------------
  // An inverse: writing a line back as tokens

  function RedirectTokens(op: string, target: Option<string>): seq<string> {
    if target.Some? then [op, target.value] else []
  }

  /** A command as tokens: its words, then `< file` and `> file` if it has them. */
  function RenderCommand(c: Command): seq<string> {
    c.words + RedirectTokens("<", c.input) + RedirectTokens(">", c.output)
  }

  /** The commands after the first, each introduced by the separator. */
  function RenderTail(cs: seq<Command>, sep: string): seq<string> {
    if cs == [] then [] else [sep] + RenderCommand(cs[0]) + RenderTail(cs[1..], sep)
  }

  /** A line as tokens: `|` between commands when piping is set, `;` otherwise, and `&` last when bg is set. */
  function Render(l: Line): seq<string>
    requires l.cmds != []
  {
    RenderCommand(l.cmds[0]) + RenderTail(l.cmds[1..], if l.piping then "|" else ";") +
    (if l.bg then ["&"] else [])
  }

  lemma RunInputRedirect(target: Option<string>, rest: seq<string>, st: Line)
    requires st.cmds != []
    ensures Run(RedirectTokens("<", target) + rest, st) ==
            Run(rest, if target.Some? then SetInput(st, target) else st)
  {
    if target.Some? {
      var toks := RedirectTokens("<", target) + rest;
      assert toks == ["<", target.value] + rest;
      assert AfterPair(toks) == rest;
      RunAtInput(toks, st);
    } else {
      assert RedirectTokens("<", target) + rest == rest;
    }
  }

  lemma RunOutputRedirect(target: Option<string>, rest: seq<string>, st: Line)
    requires st.cmds != []
    ensures Run(RedirectTokens(">", target) + rest, st) ==
            Run(rest, if target.Some? then SetOutput(st, target) else st)
  {
    if target.Some? {
      var toks := RedirectTokens(">", target) + rest;
      assert toks == [">", target.value] + rest;
      assert AfterPair(toks) == rest;
      RunAtOutput(toks, st);
    } else {
      assert RedirectTokens(">", target) + rest == rest;
    }
  }

  lemma RedirectStates(c: Command, st: Line)
    requires st.cmds != [] && Last(st) == Command(c.words, None, None)
    ensures (if c.input.Some? then SetInput(st, c.input) else st) == WithLast(st, Command(c.words, c.input, None))
    ensures var st2 := WithLast(st, Command(c.words, c.input, None));
            (if c.output.Some? then SetOutput(st2, c.output) else st2) == WithLast(st, c)
  {
  }

  /** After its words, a command's redirections set its targets. */
  lemma RunRedirects(c: Command, rest: seq<string>, st: Line)
    requires st.cmds != [] && Last(st) == Command(c.words, None, None)
    ensures Run(RedirectTokens("<", c.input) + (RedirectTokens(">", c.output) + rest), st) == Run(rest, WithLast(st, c))
  {
    RedirectStates(c, st);
    RunInputRedirect(c.input, RedirectTokens(">", c.output) + rest, st);
    RunOutputRedirect(c.output, rest, WithLast(st, Command(c.words, c.input, None)));
  }

  lemma CommandTokens(c: Command, j: nat, rest: seq<string>)
    requires j <= |c.words|
    ensures c.words[j..] + RedirectTokens("<", c.input) + RedirectTokens(">", c.output) + rest ==
            c.words[j..] + (RedirectTokens("<", c.input) + (RedirectTokens(">", c.output) + rest))
  {
  }

  lemma FillWords(c: Command, j: nat, st: Line)
    requires st.cmds != [] && j <= |c.words|
    requires Last(st) == Command(c.words[..j], None, None)
    ensures WithWords(st, c.words[j..]) == WithLast(st, Command(c.words, None, None))
  {
    assert c.words[..j] + c.words[j..] == c.words;
  }

  lemma WithLastTwice(st: Line, a: Command, b: Command)
    requires st.cmds != []
    ensures WithLast(WithLast(st, a), b) == WithLast(st, b)
  {
  }

  /** The tokens of command c from its j-th word on take the command being filled to c. */
  lemma RunCommand(c: Command, j: nat, rest: seq<string>, st: Line)
    requires st.cmds != [] && j <= |c.words|
    requires Last(st) == Command(c.words[..j], None, None)
    requires forall k :: j <= k < |c.words| ==> !IsOperator(c.words[k])
    ensures Run(c.words[j..] + RedirectTokens("<", c.input) + RedirectTokens(">", c.output) + rest, st) ==
            Run(rest, WithLast(st, c))
  {
    var redirRest := RedirectTokens("<", c.input) + (RedirectTokens(">", c.output) + rest);
    CommandTokens(c, j, rest);
    RunWords(c.words[j..], redirRest, st);
    FillWords(c, j, st);
    var st1 := WithLast(st, Command(c.words, None, None));
    RunRedirects(c, rest, st1);
    WithLastTwice(st, Command(c.words, None, None), c);
  }

  /** A command that a separator opens: it has a first word, and only that word may be an operator. */
  ghost predicate FollowsSeparator(c: Command) {
    c.words != [] && forall k :: 1 <= k < |c.words| ==> !IsOperator(c.words[k])
  }

  lemma OpenedTokens(c: Command, sep: string, more: seq<string>)
    requires c.words != []
    ensures [sep] + RenderCommand(c) + more == [sep, c.words[0]] + (c.words[1..] + RedirectTokens("<", c.input) + RedirectTokens(">", c.output) + more)
  {
    assert c.words == [c.words[0]] + c.words[1..];
  }

  lemma OpenedState(c: Command, st: Line, pipe: bool)
    requires c.words != []
    ensures Last(NewCommand(st, Some(c.words[0]), pipe)) == Command(c.words[..1], None, None)
    ensures WithLast(NewCommand(st, Some(c.words[0]), pipe), c) == Line(st.cmds + [c], st.piping || pipe, st.bg)
  {
    assert c.words[..1] == [c.words[0]];
  }

  /** A separator and the command it opens append that command. */
  lemma RunOpened(c: Command, sep: string, more: seq<string>, st: Line)
    requires st.cmds != []
    requires sep == "|" || sep == ";"
    requires FollowsSeparator(c)
    ensures Run([sep] + RenderCommand(c) + more, st) ==
            Run(more, Line(st.cmds + [c], st.piping || sep == "|", st.bg))
  {
    var body := c.words[1..] + RedirectTokens("<", c.input) + RedirectTokens(">", c.output) + more;
    var toks := [sep, c.words[0]] + body;
    OpenedTokens(c, sep, more);
    assert toks[0] == sep && Ahead(toks, 1) == Some(c.words[0]) && AfterPair(toks) == body;
    RunAtSeparator(toks, st);
    OpenedState(c, st, sep == "|");
    RunCommand(c, 1, more, NewCommand(st, Some(c.words[0]), sep == "|"));
  }

  lemma TailTokens(cs: seq<Command>, sep: string, rest: seq<string>)
    requires cs != []
    ensures RenderTail(cs, sep) + rest == [sep] + RenderCommand(cs[0]) + (RenderTail(cs[1..], sep) + rest)
  {
  }

  lemma TailState(cs: seq<Command>, sep: string, st: Line)
    requires cs != []
    ensures var tl := cs[1..];
            var st2 := Line(st.cmds + [cs[0]], st.piping || sep == "|", st.bg);
            Line(st2.cmds + tl, st2.piping || (sep == "|" && tl != []), st2.bg) ==
            Line(st.cmds + cs, st.piping || (sep == "|" && cs != []), st.bg)
  {
    assert st.cmds + [cs[0]] + cs[1..] == st.cmds + cs;
  }

  lemma TailFollows(cs: seq<Command>)
    requires cs != [] && forall i :: 0 <= i < |cs| ==> FollowsSeparator(cs[i])
    ensures FollowsSeparator(cs[0]) && forall i :: 0 <= i < |cs[1..]| ==> FollowsSeparator(cs[1..][i])
  {
    var tl := cs[1..];
    forall i | 0 <= i < |tl|
      ensures FollowsSeparator(tl[i])
    {
      assert tl[i] == cs[i + 1];
    }
  }

  lemma {:induction false} RunTail(cs: seq<Command>, sep: string, rest: seq<string>, st: Line)
    requires st.cmds != []
    requires sep == "|" || sep == ";"
    requires forall i :: 0 <= i < |cs| ==> FollowsSeparator(cs[i])
    ensures Run(RenderTail(cs, sep) + rest, st) ==
            Run(rest, Line(st.cmds + cs, st.piping || (sep == "|" && cs != []), st.bg))
    decreases |cs|
  {
    if cs == [] {
      assert RenderTail(cs, sep) + rest == rest;
      assert Line(st.cmds + cs, st.piping || (sep == "|" && cs != []), st.bg) == st;
    } else {
      TailTokens(cs, sep, rest);
      TailFollows(cs);
      RunOpened(cs[0], sep, RenderTail(cs[1..], sep) + rest, st);
      RunTail(cs[1..], sep, rest, Line(st.cmds + [cs[0]], st.piping || sep == "|", st.bg));
      TailState(cs, sep, st);
    }
  }

  lemma RenderTokens(l: Line)
    requires l.cmds != []
    ensures var c0 := l.cmds[0];
            var tail := RenderTail(l.cmds[1..], if l.piping then "|" else ";") + (if l.bg then ["&"] else []);
            Render(l) == c0.words[0..] + RedirectTokens("<", c0.input) + RedirectTokens(">", c0.output) + tail
  {
    assert l.cmds[0].words[0..] == l.cmds[0].words;
  }

  lemma FirstCommand(l: Line)
    requires l.cmds != []
    ensures Last(Start) == Command(l.cmds[0].words[..0], None, None)
    ensures WithLast(Start, l.cmds[0]) == Line([l.cmds[0]], false, false)
    ensures [l.cmds[0]] + l.cmds[1..] == l.cmds
  {
    assert l.cmds[0].words[..0] == [];
  }

  lemma RenderedTail(l: Line)
    requires WellFormed(l)
    ensures forall i :: 0 <= i < |l.cmds[1..]| ==> FollowsSeparator(l.cmds[1..][i])
  {
    forall i | 0 <= i < |l.cmds[1..]|
      ensures FollowsSeparator(l.cmds[1..][i])
    {
      assert l.cmds[1..][i] == l.cmds[i + 1];
    }
  }

  /** The tokens of a line without `&`, and then any more tokens, leave the loop in that line's state. */
  lemma RunRendered(l: Line, rest: seq<string>)
    requires WellFormed(l) && !l.bg
    ensures Run(Render(l) + rest, Start) == Run(rest, l)
  {
    var c0 := l.cmds[0];
    var sep := if l.piping then "|" else ";";
    var tail := RenderTail(l.cmds[1..], sep);
    RenderTokens(l);
    assert Render(l) + rest == c0.words[0..] + RedirectTokens("<", c0.input) + RedirectTokens(">", c0.output) + (tail + rest);
    FirstCommand(l);
    RunCommand(c0, 0, tail + rest, Start);
    RenderedTail(l);
    RunTail(l.cmds[1..], sep, rest, Line([c0], false, false));
    assert Line([c0] + l.cmds[1..], sep == "|" && l.cmds[1..] != [], false) == l;
  }

  /** Parsing what Render writes gives the line back: Render is an inverse of Parse on well-formed lines. */
  lemma ParseRender(l: Line)
    requires WellFormed(l)
    ensures Parse(Render(l)) == l
  {
    var c0 := l.cmds[0];
    var sep := if l.piping then "|" else ";";
    var bgToks: seq<string> := if l.bg then ["&"] else [];
    RenderTokens(l);
    FirstCommand(l);
    RunCommand(c0, 0, RenderTail(l.cmds[1..], sep) + bgToks, Start);
    RenderedTail(l);
    RunTail(l.cmds[1..], sep, bgToks, Line([c0], false, false));
    var st2 := Line(l.cmds, sep == "|" && l.cmds[1..] != [], false);
    assert st2.piping == l.piping;
    if l.bg {
      RunAtAmpersand(["&"], st2);
    }
  }

  // ---------------------------------------------------------------------------
  // From a typed line

  /** Every word and every redirection target is something strtok can return. */
  ghost predicate Typeable(l: Line) {
    (forall c, k :: 0 <= c < |l.cmds| && 0 <= k < |l.cmds[c].words| ==> IsWord(l.cmds[c].words[k])) &&
    (forall c :: 0 <= c < |l.cmds| && l.cmds[c].input.Some? ==> IsWord(l.cmds[c].input.value)) &&
    (forall c :: 0 <= c < |l.cmds| && l.cmds[c].output.Some? ==> IsWord(l.cmds[c].output.value))
  }

  ghost predicate AllWords(ts: seq<string>) {
    forall k :: 0 <= k < |ts| ==> IsWord(ts[k])
  }

  lemma AllWordsAppend(a: seq<string>, b: seq<string>)
    requires AllWords(a) && AllWords(b)
    ensures AllWords(a + b)
  {
    forall k | 0 <= k < |a + b|
      ensures IsWord((a + b)[k])
    {
      if k >= |a| {
        assert (a + b)[k] == b[k - |a|];
      }
    }
  }

  lemma OperatorsAreWords(t: string)
    requires IsOperator(t)
    ensures IsWord(t)
  {
  }

  lemma CommandWords(c: Command)
    requires forall k :: 0 <= k < |c.words| ==> IsWord(c.words[k])
    requires c.input.Some? ==> IsWord(c.input.value)
    requires c.output.Some? ==> IsWord(c.output.value)
    ensures AllWords(RenderCommand(c))
  {
    OperatorsAreWords("<");
    OperatorsAreWords(">");
    AllWordsAppend(c.words, RedirectTokens("<", c.input));
    AllWordsAppend(c.words + RedirectTokens("<", c.input), RedirectTokens(">", c.output));
  }

  lemma {:induction false} TailWords(cs: seq<Command>, sep: string)
    requires IsOperator(sep)
    requires forall i, k :: 0 <= i < |cs| && 0 <= k < |cs[i].words| ==> IsWord(cs[i].words[k])
    requires forall i :: 0 <= i < |cs| && cs[i].input.Some? ==> IsWord(cs[i].input.value)
    requires forall i :: 0 <= i < |cs| && cs[i].output.Some? ==> IsWord(cs[i].output.value)
    ensures AllWords(RenderTail(cs, sep))
    decreases |cs|
  {
    if cs != [] {
      OperatorsAreWords(sep);
      CommandWords(cs[0]);
      TailWords(cs[1..], sep);
      AllWordsAppend([sep], RenderCommand(cs[0]));
      AllWordsAppend([sep] + RenderCommand(cs[0]), RenderTail(cs[1..], sep));
    }
  }

  /**
    Typing a well-formed line out as words separated by spaces and splitting it
    again gives back the same commands, redirections and flags.
   */
  lemma LineRoundTrip(l: Line)
    requires WellFormed(l) && Typeable(l)
    ensures Parse(Tokens(Unwords(Render(l)))) == l
  {
    var sep := if l.piping then "|" else ";";
    CommandWords(l.cmds[0]);
    TailWords(l.cmds[1..], sep);
    OperatorsAreWords("&");
    var bgToks: seq<string> := if l.bg then ["&"] else [];
    AllWordsAppend(RenderCommand(l.cmds[0]), RenderTail(l.cmds[1..], sep));
    AllWordsAppend(RenderCommand(l.cmds[0]) + RenderTail(l.cmds[1..], sep), bgToks);
    TokensOfUnwords(Render(l));
    ParseRender(l);
  }
}
