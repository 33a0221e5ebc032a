/**
  The decision mpsh_execute (src/mpsh.c:182-195) takes for a parsed line:
  nothing to do, the pipeline path, a builtin found by ordered lookup in
  builtin_str (src/mpsh.c:31, 47-51), or the launcher. What the builtins and
  the two launch paths then do with the operating system is not modelled here.
 */
module Dispatcher {
  import opened Wrappers
  import opened Tokenize
  import opened Parser

  /** builtin_str, in table order. */
  const BuiltinNames: seq<string> := ["cd", "help", "history", "quit"]

  /** The functions of builtin_func. */
  datatype Builtin = Cd | Help | History | Quit

  /** builtin_func, parallel to builtin_str. */
  const BuiltinFuncs: seq<Builtin> := [Cd, Help, History, Quit]

  /**
    mpsh_size_builtins: the number of entries of builtin_str, which is also a
    valid bound for indexing the parallel table builtin_func.
   */
  function SizeBuiltins(): (n: nat)
    ensures n == |BuiltinNames| == |BuiltinFuncs|
  {
    |BuiltinNames|
  }

  /** Where mpsh_execute sends a line. */
  datatype Outcome =
    | Empty                                       // an empty command: return 1 at once
    | ToPipeline                                  // mpsh_piping(args)
    | ToBuiltin(func: Builtin, withHistory: bool) // builtin_func[i](cmds) when withHistory, else builtin_func[i](*args)
    | ToLauncher                                  // mpsh_launch(args, cmds)

  /** The first index from i on whose builtin name is w. */
  function IndexFrom(w: string, i: nat): (r: Option<nat>)
    requires i <= |BuiltinNames|
    ensures r.Some? ==> i <= r.value < |BuiltinNames| && BuiltinNames[r.value] == w
    ensures r.Some? ==> forall j :: i <= j < r.value ==> BuiltinNames[j] != w
    ensures r.None? ==> forall j :: i <= j < |BuiltinNames| ==> BuiltinNames[j] != w
    decreases |BuiltinNames| - i
  {
    if i == |BuiltinNames| then None
    else if BuiltinNames[i] == w then Some(i)
    else IndexFrom(w, i + 1)
  }

  /** The table lookup of mpsh_execute's loop: the first i with builtin_str[i] equal to w. */
  function Lookup(w: string): Option<nat> {
    IndexFrom(w, 0)
  }

  /**
    The decision, from **args (the first word of command 0), *args[1] (the
    first word of command 1) and the global piping.
   */
  function Decide(first: Option<string>, second: Option<string>, piping: bool): Outcome {
    if first.None? then Empty
    else if second.Some? && piping then ToPipeline
    else match Lookup(first.value)
      case Some(i) => ToBuiltin(BuiltinFuncs[i], first.value == "history")
      case None => ToLauncher
  }

  /** The decision for a parsed line, reading the token table as mpsh_execute does. */
  function Dispatch(l: Line): Outcome {
    Decide(Slot(l, 0, 0), Slot(l, 1, 0), l.piping)
  }

  /** The name each builtin is typed as. */
  function NameOf(b: Builtin): string {
    match b
    case Cd => "cd"
    case Help => "help"
    case History => "history"
    case Quit => "quit"
  }

  // ---------------------------------------------------------------------------
  // The four outcomes, each characterised

  lemma DecideEmpty(first: Option<string>, second: Option<string>, piping: bool)
    ensures Decide(first, second, piping) == Empty <==> first.None?
  {
  }

  lemma DecidePipeline(first: Option<string>, second: Option<string>, piping: bool)
    ensures Decide(first, second, piping) == ToPipeline <==> first.Some? && second.Some? && piping
  {
  }

  /**
    A builtin runs exactly when its own name is the first word and the line is
    not a pipeline; only `history` is given the history list.
   */
  lemma DecideBuiltin(first: Option<string>, second: Option<string>, piping: bool, f: Builtin, h: bool)
    ensures Decide(first, second, piping) == ToBuiltin(f, h) <==>
            first == Some(NameOf(f)) && !(second.Some? && piping) && (h <==> f == History)
  {
    if first.Some? && !(second.Some? && piping) {
      var w := first.value;
      if w == NameOf(f) {
        match f
        case Cd => assert BuiltinNames[0] == w;
        case Help => assert BuiltinNames[1] == w;
        case History => assert BuiltinNames[2] == w;
        case Quit => assert BuiltinNames[3] == w;
      }
    }
  }

  /** The launcher gets every non-empty line that is neither a pipeline nor a builtin name. */
  lemma DecideLaunch(first: Option<string>, second: Option<string>, piping: bool)
    ensures Decide(first, second, piping) == ToLauncher <==>
            first.Some? && !(second.Some? && piping) && first.value !in BuiltinNames
  {
  }

  // ---------------------------------------------------------------------------
  // Dispatch of parsed lines

  /** A line of delimiters only is ignored. */
  lemma BlankLineDoesNothing(s: string)
    requires forall i :: 0 <= i < |s| ==> IsDelim(s[i])
    ensures Dispatch(Parse(Tokens(s))) == Empty
  {
    BlankIffNoTokens(s);
  }

  /** The pipeline path is taken only for a line with a `|` token and a second command. */
  lemma PipelineNeedsBar(toks: seq<string>)
    ensures Dispatch(Parse(toks)) == ToPipeline ==> "|" in toks && |Parse(toks).cmds| >= 2
  {
    FlagsNeedTheirTokens(toks);
    ParseIsParsable(toks);
  }

  /**
    A `;`-separated line whose first word names a builtin runs that builtin
    alone: the commands after it are neither launched nor run.
   */
  lemma BuiltinIgnoresLaterCommands(l: Line, f: Builtin)
    requires WellFormed(l) && !l.piping
    requires l.cmds[0].words != [] && l.cmds[0].words[0] == NameOf(f)
    ensures Dispatch(Parse(Render(l))) == ToBuiltin(f, f == History)
  {
    ParseRender(l);
    DecideBuiltin(Slot(l, 0, 0), Slot(l, 1, 0), l.piping, f, f == History);
  }

  /**
    A `;`-separated line followed by `|` and one more command goes down the
    pipeline path as a whole, its `;` commands included: a single `|`
    anywhere in operator position makes the whole line a pipeline.
   */
  lemma SemicolonLineWithBarIsPipeline(l: Line, c: Command)
    requires WellFormed(l) && !l.piping && !l.bg && l.cmds[0].words != [] && FollowsSeparator(c)
    ensures Parse(Render(l) + (["|"] + RenderCommand(c))) == Line(l.cmds + [c], true, false)
    ensures Dispatch(Parse(Render(l) + (["|"] + RenderCommand(c)))) == ToPipeline
  {
    RunRendered(l, ["|"] + RenderCommand(c));
    RunOpened(c, "|", [], l);
    assert ["|"] + RenderCommand(c) + [] == ["|"] + RenderCommand(c);
    var p := Line(l.cmds + [c], true, false);
    assert p.cmds[0] == l.cmds[0];
    assert p.cmds[1].words != [];
  }
}
