/**
 * `rmbksp`: the in-place rewrite that resolves backspace characters in the
 * line just read, before the newline is stripped.
 */
module Backspace {

  const BS: char := '\U{0008}'
  const NUL: char := '\0'

  /** One keystroke replayed on the text typed so far. */
  function Key(typed: string, c: char): string
  {
    if c == BS then (if typed == [] then [] else typed[..|typed| - 1])
    else typed + [c]
  }

  /**
   * Reference definition: the text left after replaying `s` on a stack;
   * an ordinary character is pushed, a backspace pops when the stack is not
   * empty and is dropped otherwise.
   */
  function Replay(s: string): (r: string)
    ensures |r| <= |s|
    ensures forall i :: 0 <= i < |r| ==> r[i] != BS
  {
    if s == [] then [] else Key(Replay(s[..|s| - 1]), s[|s| - 1])
  }

  /** Text without a backspace comes out unchanged. */
  lemma {:induction false} ReplayWithoutBackspace(s: string)
    requires BS !in s
    ensures Replay(s) == s
  {
    if s != [] {
      var init := s[..|s| - 1];
      assert BS !in init by {
        assert forall i :: 0 <= i < |init| ==> init[i] == s[i];
      }
      ReplayWithoutBackspace(init);
      assert init + [s[|s| - 1]] == s;
    }
  }

  /** Replaying twice is replaying once. */
  lemma ReplayIdempotent(s: string)
    ensures Replay(Replay(s)) == Replay(s)
  {
    ReplayWithoutBackspace(Replay(s));
  }

  /** A final ordinary character (the newline) survives the replay. */
  lemma ReplayKeepsLast(s: string, c: char)
    requires c != BS
    ensures Replay(s + [c]) == Replay(s) + [c]
  {
    assert (s + [c])[..|s|] == s;
  }

  /** Replaying text without a NUL leaves no NUL. */
  lemma {:induction false} ReplayWithoutNul(s: string)
    requires NUL !in s
    ensures NUL !in Replay(s)
  {
    if s != [] {
      var init := s[..|s| - 1];
      assert NUL !in init by {
        assert forall i :: 0 <= i < |init| ==> init[i] == s[i];
      }
      ReplayWithoutNul(init);
    }
  }

  /** Replaying one more character is one more keystroke. */
  lemma ReplayPrefix(s: string, k: nat)
    requires k < |s|
    ensures Replay(s[..k + 1]) == Key(Replay(s[..k]), s[k])
  {
    assert s[..k + 1][..k] == s[..k];
  }

  /** Length of the NUL-terminated string at the start of `s` (`strlen`). */
  function CLen(s: seq<char>): (n: nat)
    requires NUL in s
    ensures n < |s| && s[n] == NUL
    ensures forall i :: 0 <= i < n ==> s[i] != NUL
  {
    if s[0] == NUL then 0 else CLen(s[1..]) + 1
  }

  /**
   * `rmbksp`: copies each ordinary character down to the write position,
   * steps the write position back on a backspace when something was written,
   * then overwrites the rest of the old string, up to its terminator, with NULs.
   * Everything after the terminator is untouched.
   */
  method RemoveBackspaces(buf: array<char>)
    requires NUL in buf[..]
    modifies buf
    ensures var n := old(CLen(buf[..]));
            var r := Replay(old(buf[..CLen(buf[..])]));
            buf[..|r|] == r &&
            (forall i :: |r| <= i <= n ==> buf[i] == NUL) &&
            (forall i :: n < i < buf.Length ==> buf[i] == old(buf[i]))
  {
    ghost var n := CLen(buf[..]);
    var write := Compact(buf, n);
    PadWithNul(buf, write, n);
  }

  /**
   * The copying loop of `rmbksp`: afterwards the first `write` characters are
   * the replayed text. What lies between them and the terminator is left over
   * from the old text, so it holds no NUL.
   */
  method Compact(buf: array<char>, ghost n: nat) returns (write: nat)
    requires n < buf.Length && buf[n] == NUL
    requires forall i :: 0 <= i < n ==> buf[i] != NUL
    modifies buf
    ensures write <= n && buf[..write] == Replay(old(buf[..n]))
    ensures forall i :: 0 <= i < n ==> buf[i] != NUL
    ensures forall i :: n <= i < buf.Length ==> buf[i] == old(buf[i])
  {
    ghost var s := buf[..n];
    var read, charCount := 0, 0;
    write := 0;
    while buf[read] != NUL
      invariant 0 <= write <= read <= n
      invariant charCount == write
      invariant buf[..write] == Replay(s[..read])
      invariant forall i :: read <= i < buf.Length ==> buf[i] == old(buf[i])
      invariant forall i :: 0 <= i < n ==> buf[i] != NUL
      decreases n - read
    {
      ReplayPrefix(s, read);
      write, charCount := Keystroke(buf, read, write, charCount);
      read := read + 1;
    }
    assert s[..read] == s;
  }

  /**
   * One pass of the copying loop: a backspace steps the write position back
   * when something was written; any other character is copied down to the
   * write position. Only the cell at the write position can change.
   */
  method Keystroke(buf: array<char>, read: nat, write: nat, charCount: int)
    returns (write': nat, charCount': int)
    requires write <= read < buf.Length && charCount == write
    modifies buf
    ensures charCount' == write' <= read + 1
    ensures buf[..write'] == Key(old(buf[..write]), old(buf[read]))
    ensures forall i :: 0 <= i < buf.Length && i != write ==> buf[i] == old(buf[i])
    ensures buf[write] == old(buf[write]) || buf[write] == old(buf[read])
  {
    write', charCount' := write, charCount;
    if buf[read] == BS {
      if charCount' > 0 {
        write' := write' - 1;
        charCount' := charCount' - 1;
      }
    } else {
      buf[write'] := buf[read];
      write' := write' + 1;
      charCount' := charCount' + 1;
      assert buf[..write'] == old(buf[..write]) + [old(buf[read])];
    }
  }

  /** The tail of `rmbksp`: NULs from `from` up to the old terminator at `n`. */
  method PadWithNul(buf: array<char>, from: nat, ghost n: nat)
    requires from <= n < buf.Length && buf[n] == NUL
    requires forall i :: from <= i < n ==> buf[i] != NUL
    modifies buf
    ensures buf[..from] == old(buf[..from])
    ensures forall i :: from <= i <= n ==> buf[i] == NUL
    ensures forall i :: n < i < buf.Length ==> buf[i] == old(buf[i])
  {
    var write := from;
    while buf[write] != NUL
      invariant from <= write <= n
      invariant buf[..from] == old(buf[..from])
      invariant forall i :: from <= i < write ==> buf[i] == NUL
      invariant forall i :: write <= i < buf.Length ==> buf[i] == old(buf[i])
      decreases n - write
    {
      buf[write] := NUL;
      write := write + 1;
    }
  }
}
