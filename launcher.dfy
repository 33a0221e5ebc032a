/**
  The part of mpsh_launch (src/mpsh.c:253-272) that does not talk to the
  operating system: which commands of the token table it visits, in what
  order, and how the background counter `jobs` numbers the announcements.
 */
module Launcher {
  import opened Wrappers
  import opened Tokenize
  import opened Parser
  import opened Dispatcher

  /** `jobs` is an unsigned short: its values are 0 .. 65535. */
  const UShortLimit: nat := 65536

  /** `++jobs` on an unsigned short. */
  function Bump(j: nat): nat {
    (j + 1) % UShortLimit
  }

  /** The numbers printed by n background announcements made from counter value j. */
  function JobNumbers(j: nat, n: nat): seq<nat> {
    seq(n, k => (j + k + 1) % UShortLimit)
  }

  /** The counter after n background announcements made from counter value j. */
  function JobsAfter(j: nat, n: nat): (r: nat)
    ensures r < UShortLimit
    ensures n > 0 ==> r == JobNumbers(j, n)[n - 1]
  {
    (j + n) % UShortLimit
  }

  lemma BumpAfter(j: nat, n: nat)
    ensures Bump((j + n) % UShortLimit) == (j + n + 1) % UShortLimit
  {
  }

  /**
    Numbering continues across lines: n announcements followed by m more,
    starting from where the counter was left, number like n + m at once.
   */
  lemma JobNumbersContinue(j: nat, n: nat, m: nat)
    ensures JobNumbers(j, n) + JobNumbers((j + n) % UShortLimit, m) == JobNumbers(j, n + m)
  {
    var a, b := JobNumbers(j, n), JobNumbers((j + n) % UShortLimit, m);
    forall k | n <= k < n + m
      ensures (a + b)[k] == (j + k + 1) % UShortLimit
    {
      assert (a + b)[k] == b[k - n];
      assert ((j + n) % UShortLimit + (k - n) + 1) % UShortLimit == (j + k + 1) % UShortLimit;
    }
  }

  /**
    From a fresh counter, background jobs are numbered 1, 2, 3, ... in launch
    order, as long as fewer than 65536 have been announced.
   */
  lemma JobNumbersCount(n: nat)
    requires n < UShortLimit
    ensures forall k :: 0 <= k < n ==> JobNumbers(0, n)[k] == k + 1
    ensures forall a, b :: 0 <= a < b < n ==> JobNumbers(0, n)[a] < JobNumbers(0, n)[b]
  {
  }

  /** The 65536th announcement of a session is numbered 0: the unsigned short has wrapped. */
  lemma JobNumberWraps()
    ensures JobNumbers(0, UShortLimit)[UShortLimit - 1] == 0
  {
  }

  /** The first row from c on, below Cap, whose first word is NULL (or Cap). */
  function StopFrom(l: Line, c: nat): (r: nat)
    requires c <= Cap
    ensures c <= r <= Cap
    ensures forall k :: c <= k < r ==> Slot(l, k, 0).Some?
    ensures r < Cap ==> Slot(l, r, 0).None?
    decreases Cap - c
  {
    if c < Cap && Slot(l, c, 0).Some? then StopFrom(l, c + 1) else c
  }

  /** How many commands the launcher starts: 0, 1, ... up to the first without a first word. */
  function Visits(l: Line): nat {
    StopFrom(l, 0)
  }

  /** Any scan that stops where the launcher's does has visited Visits(l) commands. */
  lemma VisitsUnique(l: Line, n: nat)
    requires n <= Cap
    requires forall k :: 0 <= k < n ==> Slot(l, k, 0).Some?
    requires n < Cap ==> Slot(l, n, 0).None?
    ensures Visits(l) == n
  {
  }

  /**
    On a parsed line whose first command has a word, the launcher starts
    exactly the commands that have words, in their order: none is skipped and
    the scan stops only at the empty command a trailing separator leaves.
   */
  lemma VisitsCommandsWithWords(l: Line)
    requires Parsable(l) && Fits(l) && l.cmds[0].words != []
    ensures Visits(l) <= |l.cmds|
    ensures forall c :: 0 <= c < |l.cmds| ==> (c < Visits(l) <==> l.cmds[c].words != [])
  {
    var n := |l.cmds|;
    if l.cmds[n - 1].words == [] {
      assert Slot(l, n - 1, 0).None?;
      VisitsUnique(l, n - 1);
    } else {
      assert forall k :: 0 <= k < n ==> l.cmds[k].words != [];
      if n < Cap {
        assert Slot(l, n, 0).None?;
      }
      VisitsUnique(l, n);
    }
  }

  /** A line of 32 one-word commands separated by `;`: `a ; a ; ... ; a`. */
  function FullLine(): Line {
    Line(seq(Cap, _ => Command(["a"], None, None)), false, false)
  }

  lemma FullLineShape()
    ensures WellFormed(FullLine()) && Typeable(FullLine()) && Fits(FullLine())
    ensures Dispatch(FullLine()) == ToLauncher
    ensures forall c :: 0 <= c < Cap ==> Slot(FullLine(), c, 0).Some?
  {
    var l := FullLine();
    assert IsWord("a");
    DecideLaunch(Slot(l, 0, 0), Slot(l, 1, 0), l.piping);
  }

  /**
    The table of a full line holds no NULL first word in any of its 32 rows,
    though the line fits the table and goes to the launcher: the launcher's
    scan `*args[i] != NULL` then reads row 32, past the end of the table.
   */
  lemma FullLineLeavesNoEnd()
    ensures var l := Parse(Tokens(Unwords(Render(FullLine()))));
            Fits(l) && Dispatch(l) == ToLauncher && forall c :: 0 <= c < Cap ==> Slot(l, c, 0).Some?
  {
    FullLineShape();
    LineRoundTrip(FullLine());
  }
}
