/**
 * `execbldi`: what the built-in verbs `cd`, `exit`, `logout` and `history` do
 * with their arguments and the history store. The side effects (changing
 * directory, terminating, printing, clearing) are returned as an action for
 * the caller to carry out.
 */
module Builtin {
  import opened Opt
  import opened Numeric
  import opened HistoryStore

  datatype Action =
    | MissingDirectory              // `cd` with no path: "Argument needed!"
    | ChangeDirectory(path: string) // `chdir(path)`; the OS decides whether it fails
    | Terminate                     // `exit` or `logout`: the shell exits with success
    | ShowHistory                   // `history`: print the listing
    | ClearHistory                  // `history -c`
    | Recall(line: string)          // `history N`: the stored line to run next
    | IndexOutOfBound               // `history N` with no line to recall
    | NotNumeric(arg: string)       // `history X`, X not all digits: "numeric argument required"
    | NotBuiltin                    // any other verb: nothing happens here

  predicate IsBuiltinVerb(verb: string)
  {
    verb == "cd" || verb == "exit" || verb == "logout" || verb == "history"
  }

  /** Whether `history n` finds a line to recall in a store of `count` lines. */
  predicate Recallable(n: nat, count: int)
  {
    n < count && (count == Capacity ==> n > 0)
  }

  /**
   * The slot `history n` reads. When the store is full the line is taken one
   * slot lower, to make up for the shift the last `addhst` may have made.
   */
  function RecallSlot(n: nat, count: int): (k: int)
    requires Recallable(n, count)
    ensures 0 <= k < count
  {
    if count == Capacity then n - 1 else n
  }

  /** sish.c:358 as written: the same choice of slot, without excluding `history 0` at capacity. */
  function RecallSlotAsWritten(n: nat, count: int): int
  {
    if count == Capacity then n - 1 else n
  }

  /**
   * With a full store, `history 0` passes both guards of the source (the bound
   * at sish.c:347 and the non-empty slot at sish.c:352), and the slot then read
   * at sish.c:358 is `hist[-1]`.
   */
  lemma HistoryZeroAtCapacityAsWritten(slots: seq<Option<string>>)
    requires Layout(slots, Capacity)
    ensures 0 < Capacity && slots[0].Some?
    ensures RecallSlotAsWritten(0, Capacity) == -1
  {
  }

  /**
   * The decision `execbldi` takes for the argument vector `args` (`args[0]` the
   * verb; `args[1]`, when present, its first argument) against a well-formed
   * store. `history 0` on a full store is out of bound here (see
   * RecallSlotAsWritten for the source's reading of `hist[-1]`).
   */
  function Decide(args: seq<string>, slots: seq<Option<string>>, count: int): (a: Action)
    requires |args| >= 1
    requires |slots| == Capacity + 1 && Layout(slots, count)
    ensures a == NotBuiltin <==> !IsBuiltinVerb(args[0])
    ensures a == MissingDirectory <==> args[0] == "cd" && |args| == 1
    ensures a.ChangeDirectory? <==> args[0] == "cd" && |args| >= 2
    ensures a.ChangeDirectory? ==> a.path == args[1]
    ensures a == Terminate <==> args[0] == "exit" || args[0] == "logout"
    ensures a == ShowHistory <==> args[0] == "history" && |args| == 1
    ensures a == ClearHistory <==> args[0] == "history" && |args| >= 2 && args[1] == "-c"
    ensures a.NotNumeric? <==>
              args[0] == "history" && |args| >= 2 && args[1] != "-c" && IsNum(args[1]) != 0
    ensures a.NotNumeric? ==> a.arg == args[1]
    ensures a == IndexOutOfBound <==>
              args[0] == "history" && |args| >= 2 && args[1] != "-c" && IsNum(args[1]) == 0 &&
              !Recallable(DigitsValue(args[1]), count)
    ensures a.Recall? <==>
              args[0] == "history" && |args| >= 2 && args[1] != "-c" && IsNum(args[1]) == 0 &&
              Recallable(DigitsValue(args[1]), count)
    ensures a.Recall? ==>
              a.line == EntriesOf(slots, count)[RecallSlot(DigitsValue(args[1]), count)]
  {
    if args[0] == "cd" then
      if |args| == 1 then MissingDirectory else ChangeDirectory(args[1])
    else if args[0] == "exit" || args[0] == "logout" then
      Terminate
    else if args[0] == "history" then
      if |args| == 1 then ShowHistory
      else if args[1] == "-c" then ClearHistory
      else if IsNum(args[1]) != 0 then NotNumeric(args[1])
      else
        var n := DigitsValue(args[1]);
        if n >= Capacity then IndexOutOfBound
        else if slots[n] == None then IndexOutOfBound
        else if count == Capacity && n == 0 then IndexOutOfBound
        else
          var k := if count == Capacity then n - 1 else n;
          Recall(slots[k].value)
    else
      NotBuiltin
  }

  /**
   * The status `execbldi` returns: -1 when it reported an error (for `cd` with
   * a path, when `chdir` failed), 0 otherwise.
   */
  function Status(a: Action, chdirFails: bool): (r: int)
    ensures r == 0 || r == -1
    ensures r == -1 <==>
              a == MissingDirectory || a == IndexOutOfBound || a.NotNumeric? ||
              (a.ChangeDirectory? && chdirFails)
  {
    match a
    case MissingDirectory => -1
    case IndexOutOfBound => -1
    case NotNumeric(_) => -1
    case ChangeDirectory(_) => if chdirFails then -1 else 0
    case _ => 0
  }

  /**
   * Recalling a line the listing showed. `shown` is the store when `history`
   * printed its listing; the user then types `history n` for the line shown at
   * index n, and `addhst` stores that command before it runs. Below 99 lines,
   * and after an eviction, the line recalled is the one the listing showed at n
   * (for a full store, except n = 0, whose line was just evicted). When the
   * command itself fills the store to 100, nothing was evicted, yet the slot
   * below is read: the line shown at n - 1 comes back.
   */
  lemma {:induction false} RecallWhatWasListed(
    shown: seq<string>, n: nat, slots: seq<Option<string>>, count: int)
    requires |shown| <= Capacity && n < |shown|
    requires |slots| == Capacity + 1 && Layout(slots, count)
    requires EntriesOf(slots, count) == Appended(shown, "history " + Decimal(n))
    ensures |shown| < Capacity - 1 ==>
              Decide(["history", Decimal(n)], slots, count) == Recall(shown[n])
    ensures |shown| == Capacity && n > 0 ==>
              Decide(["history", Decimal(n)], slots, count) == Recall(shown[n])
    ensures |shown| == Capacity - 1 && n > 0 ==>
              Decide(["history", Decimal(n)], slots, count) == Recall(shown[n - 1])
    ensures |shown| >= Capacity - 1 && n == 0 ==>
              Decide(["history", Decimal(n)], slots, count) == IndexOutOfBound
  {
    DecimalRoundTrip(n);
    var es := EntriesOf(slots, count);
    if |shown| == Capacity {
      assert es == shown[1..] + ["history " + Decimal(n)];
      if n > 0 {
        assert es[n - 1] == shown[n];
      }
    } else {
      assert |es| == |shown| + 1;
      assert es[..|shown|] == shown;
      if n > 0 {
        assert es[n - 1] == shown[n - 1];
      }
      assert es[n] == shown[n];
    }
  }
}
