/**
 * The command history: a fixed array of slots holding copies of past command
 * lines, oldest first, and the count of stored lines (`addhst`, `clrhist`,
 * `shist`, and the reset of the count in `main`).
 *
 * The source's array has exactly 100 slots and relies on an empty slot to stop
 * its walks; here the array has one extra slot that is never filled, so that
 * the walks stop inside the array even when all 100 entries are in use.
 */
module HistoryStore {
  import opened Opt
  import Numeric

  const Capacity: nat := 100

  /** Slots below `count` hold entries; every slot from `count` on is empty. */
  ghost predicate Layout(slots: seq<Option<string>>, count: int)
  {
    0 <= count <= Capacity && count < |slots| &&
    (forall i :: 0 <= i < count ==> slots[i].Some?) &&
    (forall i :: count <= i < |slots| ==> slots[i] == None)
  }

  /** The stored lines, oldest first. */
  function EntriesOf(slots: seq<Option<string>>, count: int): (es: seq<string>)
    requires Layout(slots, count)
    ensures |es| == count
    ensures forall i :: 0 <= i < count ==> slots[i] == Some(es[i])
  {
    seq(count, i requires 0 <= i < count && Layout(slots, count) => slots[i].value)
  }

  /** The slot array of a well-formed store holding `es`. */
  function SlotsOf(es: seq<string>): (slots: seq<Option<string>>)
    requires |es| <= Capacity
    ensures |slots| == Capacity + 1 && Layout(slots, |es|) && EntriesOf(slots, |es|) == es
  {
    seq(Capacity + 1, i requires 0 <= i <= Capacity => if i < |es| then Some(es[i]) else None)
  }

  /** A well-formed store is determined by its entries. */
  lemma SlotsFromEntries(slots: seq<Option<string>>, count: int)
    requires |slots| == Capacity + 1 && Layout(slots, count)
    ensures slots == SlotsOf(EntriesOf(slots, count))
  {
  }

  /** Index of the first empty slot: where the walks of `clrhist` and `shist` stop. */
  function FirstEmpty(s: seq<Option<string>>): (k: nat)
    ensures k <= |s|
    ensures forall i :: 0 <= i < k ==> s[i].Some?
    ensures k < |s| ==> s[k] == None
  {
    if s == [] || s[0] == None then 0 else 1 + FirstEmpty(s[1..])
  }

  /** With the spare slot, a walk over a well-formed store stops at the count. */
  lemma WalkStopsAtCount(slots: seq<Option<string>>, count: int)
    requires Layout(slots, count)
    ensures FirstEmpty(slots) == count
  {
    assert slots[count] == None;
  }

  /**
   * In the source's 100-slot array a full store has no empty slot, so the walks
   * at sish.c:384 and sish.c:399 go on to read `hist[100]`.
   */
  lemma FullStoreWalksPastSourceArray(slots: seq<Option<string>>)
    requires Layout(slots, Capacity)
    ensures FirstEmpty(slots[..Capacity]) == Capacity
  {
    var source := slots[..Capacity];
    assert forall i :: 0 <= i < Capacity ==> source[i].Some?;
  }

  /** Reference definition of `addhst` on the stored lines: append, evicting the oldest when full. */
  function Appended(es: seq<string>, cmd: string): seq<string>
  {
    if |es| >= Capacity then es[1..] + [cmd] else es + [cmd]
  }

  /** The last `k` elements of `s` (all of them when there are fewer). */
  function Last<T>(s: seq<T>, k: nat): (r: seq<T>)
    ensures |r| == if |s| <= k then |s| else k
  {
    if |s| <= k then s else s[|s| - k..]
  }

  /** Adding the lines `cmds` one after the other. */
  function AppendedAll(es: seq<string>, cmds: seq<string>): seq<string>
    decreases |cmds|
  {
    if cmds == [] then es else AppendedAll(Appended(es, cmds[0]), cmds[1..])
  }

  lemma AppendedIsLast(es: seq<string>, cmd: string)
    requires |es| <= Capacity
    ensures Appended(es, cmd) == Last(es + [cmd], Capacity)
  {
    if |es| == Capacity {
      assert (es + [cmd])[1..] == es[1..] + [cmd];
    }
  }

  lemma LastOfLast<T>(a: seq<T>, b: seq<T>, k: nat)
    ensures Last(Last(a, k) + b, k) == Last(a + b, k)
  {
    if |a| <= k {
      assert Last(a, k) == a;
    } else {
      var tail := a[|a| - k..];
      assert Last(a, k) == tail;
      assert |a + b| > k;
      if b == [] {
        assert tail + b == tail && a + b == a;
      } else {
        var x, y := (tail + b)[|b|..], (a + b)[|a| + |b| - k..];
        assert |x| == |y| == k;
        assert forall i :: 0 <= i < k ==> x[i] == y[i];
        assert Last(tail + b, k) == x;
        assert Last(a + b, k) == y;
      }
    }
  }

  /**
   * First in, first out: whatever was stored before, after adding `cmds` the
   * store holds the most recent lines of old entries + `cmds`, at most 100 of
   * them, in the order they were added.
   */
  lemma {:induction false} StoreKeepsMostRecent(es: seq<string>, cmds: seq<string>)
    requires |es| <= Capacity
    ensures AppendedAll(es, cmds) == Last(es + cmds, Capacity)
    decreases |cmds|
  {
    if cmds == [] {
      assert es + cmds == es;
    } else {
      var next := Appended(es, cmds[0]);
      AppendedIsLast(es, cmds[0]);
      StoreKeepsMostRecent(next, cmds[1..]);
      LastOfLast(es + [cmds[0]], cmds[1..], Capacity);
      assert es + [cmds[0]] + cmds[1..] == es + cmds;
    }
  }

  /** Adding 101 lines to an empty store leaves lines 2 to 101; the first one is evicted. */
  lemma OneHundredAndOneLines(cmds: seq<string>)
    requires |cmds| == Capacity + 1
    ensures AppendedAll([], cmds) == cmds[1..]
  {
    StoreKeepsMostRecent([], cmds);
    assert [] + cmds == cmds;
  }

  /** The lines `shist` prints: `"<index> <line>"` in ascending index order. */
  function Listing(es: seq<string>): seq<string>
  {
    seq(|es|, i requires 0 <= i < |es| => Numeric.Decimal(i) + " " + es[i])
  }

  class History {
    var slots: array<Option<string>>
    var count: int

    ghost predicate Valid()
      reads this, slots
    {
      slots.Length == Capacity + 1 && Layout(slots[..], count)
    }

    /** The state `clrhist` leaves: every slot empty, the count not yet reset. */
    ghost predicate Cleared()
      reads this, slots
    {
      slots.Length == Capacity + 1 && 0 <= count <= Capacity &&
      forall i :: 0 <= i < slots.Length ==> slots[i] == None
    }

    ghost function Entries(): seq<string>
      reads this, slots
      requires Valid()
    {
      EntriesOf(slots[..], count)
    }

    /** An empty store; the source leaves `hist` uninitialised, here every slot starts empty. */
    constructor ()
      ensures Valid() && Entries() == [] && fresh(slots)
    {
      slots := new Option<string>[Capacity + 1](_ => None);
      count := 0;
    }

    /**
     * `addhst`: at capacity, drop slot 0 by moving slots 1..99 down one place;
     * then store the line in slot `count` and count it.
     */
    method Add(cmd: string)
      requires Valid()
      modifies this`count, slots
      ensures Valid()
      ensures Entries() == Appended(old(Entries()), cmd)
      ensures count == if old(count) == Capacity then Capacity else old(count) + 1
    {
      if count == Capacity {
        Evict();
      }
      slots[count] := Some(cmd);
      count := count + 1;
      assert Entries() == Appended(old(Entries()), cmd);
    }

    /**
     * The eviction branch of `addhst`: slots 1..99 move down one place,
     * dropping slot 0, and the count goes down by one. Slot 99 keeps its old
     * line until `addhst` overwrites it.
     */
    method Evict()
      requires Valid() && count == Capacity
      modifies this`count, slots
      ensures count == Capacity - 1
      ensures forall i :: 0 <= i < Capacity - 1 ==> slots[i] == old(slots[i + 1])
      ensures forall i :: Capacity - 1 <= i < slots.Length ==> slots[i] == old(slots[i])
    {
      var index := 0;
      while index < Capacity - 1
        invariant 0 <= index <= Capacity - 1
        invariant count == Capacity
        invariant forall i :: 0 <= i < index ==> slots[i] == old(slots[i + 1])
        invariant forall i :: index <= i < slots.Length ==> slots[i] == old(slots[i])
      {
        slots[index] := slots[index + 1];
        index := index + 1;
      }
      count := count - 1;
    }

    /**
     * `clrhist`: empties the slots from 0 up to the first empty one and touches
     * nothing after it. The count is left for `main` to reset.
     */
    method Clear()
      requires Valid()
      modifies slots
      ensures forall i :: 0 <= i < old(FirstEmpty(slots[..])) ==> slots[i] == None
      ensures forall i :: old(FirstEmpty(slots[..])) <= i < slots.Length ==> slots[i] == old(slots[i])
      ensures Cleared() && count == old(count)
    {
      WalkStopsAtCount(slots[..], count);
      var index := 0;
      while slots[index] != None
        invariant 0 <= index <= count
        invariant forall i :: 0 <= i < index ==> slots[i] == None
        invariant forall i :: index <= i < slots.Length ==> slots[i] == old(slots[i])
        decreases count - index
      {
        slots[index] := None;
        index := index + 1;
      }
    }

    /** `shist`: the line `"i text"` for every slot from 0 up to the first empty one. */
    method Show() returns (lines: seq<string>)
      requires Valid()
      ensures lines == Listing(Entries())
    {
      lines := [];
      var index := 0;
      while slots[index] != None
        invariant 0 <= index <= count
        invariant lines == Listing(Entries())[..index]
        decreases count - index
      {
        lines := lines + [Numeric.Decimal(index) + " " + slots[index].value];
        index := index + 1;
      }
    }

    /** sish.c:81-82: after a built-in, the count goes back to 0 when slot 0 is empty. */
    method ResetIfEmpty()
      requires Valid() || Cleared()
      modifies this`count
      ensures Valid()
      ensures old(Valid()) ==> count == old(count)
      ensures old(Cleared()) ==> Entries() == []
    {
      if slots[0] == None {
        count := 0;
      }
    }
  }
}
