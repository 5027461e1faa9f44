/**
 * The read-route-run loop of `main` (sish.c:41-205), one pass at a time:
 * normalise and record a freshly typed line, or take the line a `history N`
 * recalled; then route it by its pipe count to a built-in, a single program,
 * or a pipeline.
 */
module Shell {
  import opened Opt
  import opened Numeric
  import opened Tokenize
  import opened Backspace
  import opened HistoryStore
  import opened Builtin
  import opened Pipeline

  /** Size of the argument buffers `myargs` and `my_sub_args`. */
  const ArgSlots: nat := 1000

  datatype Plan =
    | Blank                                       // no tokens at all
    | TooManyArguments                            // more tokens than the buffer can hold
    | Command(args: seq<string>)                  // no pipe: a built-in or one program
    | Piped(stages: seq<string>, pipeCount: nat)  // `pipeCount` pipes between the stages

  /**
   * The routing of `main`: `countPipe` decides between the single-command
   * path (sish.c:67) and the pipeline path (sish.c:105). A line with no token
   * and a line with too many are refused here; the source goes on with them
   * (see BlankLineAsWritten and ThousandWordsAsWritten).
   */
  function Route(line: string): (r: Plan)
    ensures r == Blank <==>
              (forall i :: 0 <= i < |line| ==> line[i] == '|') ||
              (forall i :: 0 <= i < |line| ==> line[i] == ' ')
    ensures r.Command? ==>
              CountPipe(line) == 0 && r.args == Tokens(line, ' ') && 0 < |r.args| < ArgSlots
    ensures r.Piped? ==>
              1 <= r.pipeCount == CountPipe(line) &&
              r.stages == Tokens(line, '|') && |r.stages| == r.pipeCount + 1 < ArgSlots
    ensures r == TooManyArguments ==>
              (CountPipe(line) == 0 && |Tokens(line, ' ')| >= ArgSlots) ||
              (CountPipe(line) > 0 && |Tokens(line, '|')| >= ArgSlots)
  {
    CountPipeNegative(line);
    NoTokensIffAllDelimiters(line, ' ');
    NoTokensIffAllDelimiters(line, '|');
    var pipeCount := CountPipe(line);
    if pipeCount < 0 then Blank
    else if pipeCount == 0 then
      var args := Tokens(line, ' ');
      if |args| == 0 then
        Blank
      else if |args| >= ArgSlots then TooManyArguments
      else Command(args)
    else
      var stages := Tokens(line, '|');
      if |stages| >= ArgSlots then TooManyArguments else Piped(stages, pipeCount)
  }

  /**
   * As written, a blank line is not refused. A line of bars only (the empty
   * line included) has pipe count -1, so `main` declares `fd[-1]` (sish.c:108)
   * and `strsplt` finds no token and reads `buf[-1]` (sish.c:289-296). A line
   * of spaces only has pipe count 0 and again no token for `strsplt`.
   */
  lemma BlankLineAsWritten(line: string)
    ensures (forall i :: 0 <= i < |line| ==> line[i] == '|') ==>
              CountPipe(line) == -1 && Tokens(line, '|') == []
    ensures line != [] && (forall i :: 0 <= i < |line| ==> line[i] == ' ') ==>
              CountPipe(line) == 0 && Tokens(line, ' ') == []
  {
    CountPipeNegative(line);
    NoTokensIffAllDelimiters(line, ' ');
    if line != [] && forall i :: 0 <= i < |line| ==> line[i] == ' ' {
      WholeLineIsOneToken(line, '|');
    }
  }

  /**
   * As written, 1000 words on one line give 1000 tokens, and `strsplt` writes
   * the NULL after them into `myargs[1000]`, one past the end of the buffer.
   */
  lemma ThousandWordsAsWritten()
    ensures var line := Join(seq(ArgSlots, _ => "a"), ' ');
            CountPipe(line) == 0 && |Tokens(line, ' ')| == ArgSlots
  {
    var words := seq(ArgSlots, _ => "a");
    var line := Join(words, ' ');
    SplitJoin(words, ' ');
    JoinAvoids(words, ' ', '|');
    assert line != [] by {
      assert |Tokens(line, ' ')| == ArgSlots;
    }
    WholeLineIsOneToken(line, '|');
  }

  /** A listing line splits into its index followed by the words of the stored line. */
  lemma ListingLineSplits(es: seq<string>, i: nat)
    requires i < |es|
    ensures Tokens(Listing(es)[i], ' ') == [Decimal(i)] + Tokens(es[i], ' ')
  {
    DecimalAvoids(i, ' ');
    TokensAfterField(Decimal(i), es[i], ' ');
    assert Listing(es)[i] == Decimal(i) + [' '] + es[i];
  }

  /**
   * With c < 99 lines stored, the line `history c` is stored at index c and
   * then recalls itself. The recalled line is not stored again, so the store
   * is unchanged, and the next pass recalls the same line: the shell runs
   * `history c` over and over and never prompts again.
   */
  lemma RecallOfItselfRepeats(es: seq<string>)
    requires |es| < Capacity - 1
    ensures var cmd := "history " + Decimal(|es|);
            var stored := Appended(es, cmd);
            Route(cmd) == Command(["history", Decimal(|es|)]) &&
            Decide(["history", Decimal(|es|)], SlotsOf(stored), |stored|) == Recall(cmd)
  {
    var n := |es|;
    var cmd := "history " + Decimal(n);
    HistoryCommandWords(n);
    DecimalRoundTrip(n);
    var stored := Appended(es, cmd);
    assert stored[n] == cmd;
  }

  /** The line `history n` has no bar and splits on spaces into the verb and the index. */
  lemma HistoryCommandWords(n: nat)
    ensures var cmd := "history " + Decimal(n);
            CountPipe(cmd) == 0 && Tokens(cmd, ' ') == ["history", Decimal(n)]
  {
    var cmd := "history " + Decimal(n);
    DecimalAvoids(n, ' ');
    DecimalAvoids(n, '|');
    assert cmd == "history" + [' '] + Decimal(n);
    TokensAfterField("history", Decimal(n), ' ');
    WholeLineIsOneToken(Decimal(n), ' ');
    assert '|' !in cmd;
    WholeLineIsOneToken(cmd, '|');
  }

  /** A buffer as `getline` fills it: a NUL-terminated line ending in a newline. */
  ghost predicate TypedLine(s: seq<char>)
  {
    NUL in s && CLen(s) >= 1 && s[CLen(s) - 1] == '\n'
  }

  /** The stored lines after a pass: a freshly typed line is added, a recalled one is not. */
  function Recorded(es: seq<string>, recalled: Option<string>, line: string): seq<string>
  {
    if recalled == None then Appended(es, line) else es
  }

  datatype Outcome =
    | Ignored                                   // a refused line
    | Ran(action: Action, listed: seq<string>)  // a built-in; `listed` is what `history` printed
    | Exec(argv: seq<Option<string>>)           // one program, run with this argument buffer
    | Launched(stages: seq<Stage>, waited: seq<nat>)

  class Shell {
    const hist: History
    const myargs: array<Option<string>>
    var pending: Option<string>  // `iline` when it holds a recalled line

    ghost predicate Valid()
      reads this, hist, hist.slots
    {
      hist.Valid() && myargs.Length == ArgSlots && myargs != hist.slots
    }

    constructor ()
      ensures Valid() && hist.Entries() == [] && pending == None
      ensures fresh(hist) && fresh(hist.slots) && fresh(myargs)
    {
      hist := new History();
      myargs := new Option<string>[ArgSlots](_ => None);
      pending := None;
    }

    /**
     * A freshly typed line (sish.c:55-58, after `getline`): resolve its
     * backspaces, drop the newline and add the line to the history.
     */
    method Accept(input: array<char>) returns (line: string)
      requires Valid() && TypedLine(input[..])
      modifies hist`count, hist.slots, input
      ensures Valid()
      ensures line == Replay(old(input[..CLen(input[..]) - 1]))
      ensures |line| < input.Length && input[..|line|] == line && input[|line|] == NUL
      ensures hist.Entries() == Appended(old(hist.Entries()), line)
    {
      ghost var typed := input[..CLen(input[..]) - 1];
      ghost var s := input[..CLen(input[..])];
      assert s == typed + ['\n'];
      assert NUL !in s;
      RemoveBackspaces(input);
      ReplayKeepsLast(typed, '\n');
      ReplayWithoutNul(s);
      ghost var r := Replay(s);
      assert input[|r|] == NUL;
      assert forall i :: 0 <= i < |r| ==> input[i] == r[i] && input[i] != NUL;
      var len := CLen(input[..]);
      assert len == |r|;
      assert input[..len] == r;
      input[len - 1] := NUL;
      line := input[..len - 1];
      hist.Add(line);
    }

    /**
     * A built-in verb on the single-command path (sish.c:74-83): decide, carry
     * out what concerns the history, hand a recalled line back through
     * `pending`, and reset the count when the history was cleared.
     */
    method RunBuiltin(args: seq<string>) returns (action: Action, listed: seq<string>)
      requires Valid() && |args| >= 1
      modifies this`pending, hist.slots, hist`count
      ensures Valid()
      ensures action == Decide(args, SlotsOf(old(hist.Entries())), |old(hist.Entries())|)
      ensures action == ShowHistory ==> listed == Listing(hist.Entries())
      ensures action == ClearHistory ==> hist.Entries() == []
      ensures action != ClearHistory ==> hist.Entries() == old(hist.Entries())
      ensures pending == if action.Recall? then Some(action.line) else None
    {
      SlotsFromEntries(hist.slots[..], hist.count);
      action := Decide(args, hist.slots[..], hist.count);
      listed := [];
      pending := None;
      match action {
        case ShowHistory =>
          listed := hist.Show();
        case ClearHistory =>
          hist.Clear();
        case Recall(recalled) =>
          pending := Some(recalled);
        case _ =>
      }
      hist.ResetIfEmpty();
    }

    /**
     * Routing and running a line (sish.c:64-200): a built-in, one program, or
     * a pipeline. The history is read by a built-in and not otherwise touched.
     */
    method Run(line: string) returns (plan: Plan, outcome: Outcome)
      requires Valid()
      modifies this`pending, hist`count, hist.slots, myargs
      ensures Valid()
      ensures plan == Route(line)
      ensures outcome == Ignored <==> plan == Blank || plan == TooManyArguments
      ensures outcome.Ran? <==> plan.Command? && IsBuiltinVerb(plan.args[0])
      ensures outcome.Exec? <==> plan.Command? && !IsBuiltinVerb(plan.args[0])
      ensures outcome.Launched? <==> plan.Piped?
      ensures outcome.Exec? ==> outcome.argv == Argv(plan.args)
      ensures outcome.Ran? ==>
                outcome.action == Decide(plan.args, SlotsOf(old(hist.Entries())), |old(hist.Entries())|)
      ensures outcome.Ran? && outcome.action == ShowHistory ==>
                outcome.listed == Listing(old(hist.Entries()))
      ensures outcome.Ran? && outcome.action == ClearHistory ==> hist.Entries() == []
      ensures !(outcome.Ran? && outcome.action == ClearHistory) ==>
                hist.Entries() == old(hist.Entries())
      ensures pending == if outcome.Ran? && outcome.action.Recall? then Some(outcome.action.line) else None
      ensures outcome.Launched? ==>
                |outcome.stages| == plan.pipeCount + 1 &&
                outcome.waited == seq(plan.pipeCount + 1, i => i) &&
                forall i :: 0 <= i < |outcome.stages| ==>
                  outcome.stages[i].command == plan.stages[i] &&
                  Wired(outcome.stages[i], i, plan.pipeCount)
    {
      plan := Route(line);
      match plan
      case Blank =>
        pending := None;
        outcome := Ignored;
      case TooManyArguments =>
        pending := None;
        outcome := Ignored;
      case Command(args) =>
        outcome := RunCommand(line, args);
      case Piped(stages, pipeCount) =>
        outcome := RunPipeline(line, stages, pipeCount);
    }

    /** The single-command path (sish.c:67-103): split on spaces, then a built-in or one program. */
    method RunCommand(line: string, args: seq<string>) returns (outcome: Outcome)
      requires Valid() && Route(line) == Command(args)
      modifies this`pending, hist`count, hist.slots, myargs
      ensures Valid()
      ensures outcome.Ran? <==> IsBuiltinVerb(args[0])
      ensures outcome.Exec? <==> !IsBuiltinVerb(args[0])
      ensures outcome.Exec? ==> outcome.argv == Argv(args)
      ensures outcome.Ran? ==>
                outcome.action == Decide(args, SlotsOf(old(hist.Entries())), |old(hist.Entries())|)
      ensures outcome.Ran? && outcome.action == ShowHistory ==>
                outcome.listed == Listing(old(hist.Entries()))
      ensures outcome.Ran? && outcome.action == ClearHistory ==> hist.Entries() == []
      ensures !(outcome.Ran? && outcome.action == ClearHistory) ==>
                hist.Entries() == old(hist.Entries())
      ensures pending == if outcome.Ran? && outcome.action.Recall? then Some(outcome.action.line) else None
    {
      Split(myargs, line, ' ');
      if IsBuiltinVerb(myargs[0].value) {
        var action, listed := RunBuiltin(args);
        outcome := Ran(action, listed);
      } else {
        pending := None;
        outcome := Exec(myargs[..|args| + 1]);
      }
    }

    /** The pipeline path (sish.c:105-200): split on bars, then launch and wait for the stages. */
    method RunPipeline(line: string, stages: seq<string>, pipeCount: nat) returns (outcome: Outcome)
      requires Valid() && Route(line) == Piped(stages, pipeCount)
      modifies this`pending, myargs
      ensures Valid()
      ensures pending == None
      ensures outcome.Launched? &&
              |outcome.stages| == pipeCount + 1 &&
              outcome.waited == seq(pipeCount + 1, i => i) &&
              forall i :: 0 <= i < |outcome.stages| ==>
                outcome.stages[i].command == stages[i] &&
                Wired(outcome.stages[i], i, pipeCount)
    {
      Split(myargs, line, '|');
      assert forall i :: 0 <= i <= pipeCount ==> myargs[i] == myargs[..pipeCount + 2][i];
      var parent, children, waited := Launch(myargs, pipeCount);
      pending := None;
      outcome := Launched(children, waited);
    }

    /**
     * One pass of the loop. With no recalled line pending, `input` is the
     * buffer `getline` filled: its backspaces are resolved, its newline
     * dropped, and the line is added to the history. With a recalled line
     * pending, that line runs as it is and is not added again. Only a
     * built-in's recall leaves a line pending for the next pass.
     */
    method Step(input: array<char>) returns (line: string, plan: Plan, outcome: Outcome)
      requires Valid()
      requires pending == None ==> TypedLine(input[..])
      modifies this`pending, hist`count, hist.slots, input, myargs
      ensures Valid()
      ensures old(pending) == None ==> line == Replay(old(input[..CLen(input[..]) - 1]))
      ensures old(pending) != None ==> line == old(pending).value
      ensures plan == Route(line)
      ensures outcome == Ignored <==> plan == Blank || plan == TooManyArguments
      ensures outcome.Ran? <==> plan.Command? && IsBuiltinVerb(plan.args[0])
      ensures outcome.Exec? <==> plan.Command? && !IsBuiltinVerb(plan.args[0])
      ensures outcome.Launched? <==> plan.Piped?
      ensures outcome.Ran? ==>
                var added := Recorded(old(hist.Entries()), old(pending), line);
                outcome.action == Decide(plan.args, SlotsOf(added), |added|)
      ensures outcome.Ran? && outcome.action == ShowHistory ==>
                outcome.listed == Listing(Recorded(old(hist.Entries()), old(pending), line))
      ensures outcome.Ran? && outcome.action == ClearHistory ==> hist.Entries() == []
      ensures !(outcome.Ran? && outcome.action == ClearHistory) ==>
                hist.Entries() == Recorded(old(hist.Entries()), old(pending), line)
      ensures pending == if outcome.Ran? && outcome.action.Recall? then Some(outcome.action.line) else None
    {
      if pending == None {
        line := Accept(input);
      } else {
        line := pending.value;
      }
      plan, outcome := Run(line);
    }
  }
}
