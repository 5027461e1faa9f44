/**
 * Splitting a line the way `strtok_r` does: `strsplt` fills an argument
 * buffer with the tokens, `countPipe` counts them for the delimiter '|'.
 * A token is a maximal non-empty run of characters other than the delimiter.
 * The source only ever passes a one-character delimiter (" " or "|"), so the
 * delimiter is a single character here.
 */
module Tokenize {
  import opened Opt

  /** Length of the delimiter-free run at the front of `s`. */
  function RunLength(s: string, d: char): (k: nat)
    ensures k <= |s|
    ensures forall i :: 0 <= i < k ==> s[i] != d
    ensures k < |s| ==> s[k] == d
  {
    if s == [] || s[0] == d then 0 else 1 + RunLength(s[1..], d)
  }

  /** Reference definition: the maximal delimiter-free runs of `s`, left to right. */
  function Tokens(s: string, d: char): seq<string>
    decreases |s|
  {
    if s == [] then []
    else if s[0] == d then Tokens(s[1..], d)
    else
      var k := RunLength(s, d);
      [s[..k]] + Tokens(s[k..], d)
  }

  /** The tokens written back with one delimiter between neighbours. */
  function Join(ts: seq<string>, d: char): string
  {
    if |ts| == 0 then []
    else if |ts| == 1 then ts[0]
    else ts[0] + [d] + Join(ts[1..], d)
  }

  /** Every token is non-empty and free of the delimiter. */
  ghost predicate Fields(ts: seq<string>, d: char)
  {
    forall i :: 0 <= i < |ts| ==> ts[i] != [] && d !in ts[i]
  }

  function Occurrences(s: string, d: char): nat
  {
    if s == [] then 0 else (if s[0] == d then 1 else 0) + Occurrences(s[1..], d)
  }

  function Concat(ts: seq<string>): string
  {
    if ts == [] then [] else ts[0] + Concat(ts[1..])
  }

  function Without(s: string, d: char): string
  {
    if s == [] then [] else (if s[0] == d then [] else [s[0]]) + Without(s[1..], d)
  }

  /** No token is empty and none contains the delimiter. */
  lemma {:induction false} TokensAreFields(s: string, d: char)
    ensures Fields(Tokens(s, d), d)
    decreases |s|
  {
    if s == [] {
    } else if s[0] == d {
      TokensAreFields(s[1..], d);
    } else {
      var k := RunLength(s, d);
      TokensAreFields(s[k..], d);
      assert d !in s[..k];
    }
  }

  lemma WithoutAppend(a: string, b: string, d: char)
    ensures Without(a + b, d) == Without(a, d) + Without(b, d)
  {
    if a != [] {
      assert (a + b)[0] == a[0];
      assert (a + b)[1..] == a[1..] + b;
      WithoutAppend(a[1..], b, d);
    } else {
      assert a + b == b;
    }
  }

  lemma WithoutNoDelimiter(s: string, d: char)
    requires d !in s
    ensures Without(s, d) == s
  {
    if s != [] {
      WithoutNoDelimiter(s[1..], d);
    }
  }

  /** Nothing but the delimiters is dropped: the tokens, concatenated, are the input without its delimiters. */
  lemma {:induction false} TokensCoverInput(s: string, d: char)
    ensures Concat(Tokens(s, d)) == Without(s, d)
    decreases |s|
  {
    if s == [] {
    } else if s[0] == d {
      TokensCoverInput(s[1..], d);
    } else {
      var k := RunLength(s, d);
      TokensCoverInput(s[k..], d);
      assert s == s[..k] + s[k..];
      WithoutAppend(s[..k], s[k..], d);
      WithoutNoDelimiter(s[..k], d);
      assert [s[..k]] + Tokens(s[k..], d) == Tokens(s, d);
    }
  }

  lemma RunOfField(t: string, rest: string, d: char)
    requires t != [] && d !in t
    requires rest == [] || rest[0] == d
    ensures RunLength(t + rest, d) == |t|
  {
    var s := t + rest;
    assert s[0] == t[0] != d;
    assert s[1..] == t[1..] + rest;
    if |t| > 1 {
      RunOfField(t[1..], rest, d);
    }
  }

  /** Joining fields that avoid a character `c` other than the delimiter gives a line without `c`. */
  lemma {:induction false} JoinAvoids(ts: seq<string>, d: char, c: char)
    requires c != d && forall i :: 0 <= i < |ts| ==> c !in ts[i]
    ensures c !in Join(ts, d)
  {
    if |ts| > 1 {
      JoinAvoids(ts[1..], d, c);
    }
  }

  /** Splitting what Join wrote gives the same fields back. */
  lemma {:induction false} SplitJoin(ts: seq<string>, d: char)
    requires Fields(ts, d)
    ensures Tokens(Join(ts, d), d) == ts
  {
    if |ts| == 0 {
    } else if |ts| == 1 {
      RunOfField(ts[0], [], d);
      assert ts[0] + [] == ts[0];
      assert ts[0][|ts[0]|..] == [];
    } else {
      var rest := [d] + Join(ts[1..], d);
      var s := Join(ts, d);
      assert s == ts[0] + rest;
      RunOfField(ts[0], rest, d);
      assert s[..|ts[0]|] == ts[0];
      assert s[|ts[0]|..] == rest;
      assert rest[1..] == Join(ts[1..], d);
      SplitJoin(ts[1..], d);
      assert ts == [ts[0]] + ts[1..];
    }
  }

  /** Re-joining the tokens with single delimiters and splitting again changes nothing. */
  lemma SplitIsIdempotent(s: string, d: char)
    ensures Tokens(Join(Tokens(s, d), d), d) == Tokens(s, d)
  {
    TokensAreFields(s, d);
    SplitJoin(Tokens(s, d), d);
  }

  /** A non-empty line without the delimiter is a single token, the whole line. */
  lemma WholeLineIsOneToken(s: string, d: char)
    requires s != [] && d !in s
    ensures Tokens(s, d) == [s]
  {
    SplitJoin([s], d);
  }

  /** A field followed by the delimiter is the first token, and the tokens of the rest follow. */
  lemma TokensAfterField(t: string, rest: string, d: char)
    requires t != [] && d !in t
    ensures Tokens(t + [d] + rest, d) == [t] + Tokens(rest, d)
  {
    var s := t + [d] + rest;
    RunOfField(t, [d] + rest, d);
    assert s == t + ([d] + rest);
    assert s[..|t|] == t;
    assert s[|t|..] == [d] + rest;
    assert ([d] + rest)[1..] == rest;
  }

  /** There are no tokens exactly when every character is the delimiter (the empty line included). */
  lemma {:induction false} NoTokensIffAllDelimiters(s: string, d: char)
    ensures Tokens(s, d) == [] <==> forall i :: 0 <= i < |s| ==> s[i] == d
    decreases |s|
  {
    if s != [] {
      NoTokensIffAllDelimiters(s[1..], d);
      if s[0] == d {
        assert forall i :: 1 <= i < |s| ==> s[i] == s[1..][i - 1];
      }
    }
  }

  lemma OccurrencesAppend(a: string, b: string, d: char)
    ensures Occurrences(a + b, d) == Occurrences(a, d) + Occurrences(b, d)
  {
    if a != [] {
      assert (a + b)[0] == a[0];
      assert (a + b)[1..] == a[1..] + b;
      OccurrencesAppend(a[1..], b, d);
    } else {
      assert a + b == b;
    }
  }

  lemma OccurrencesNone(s: string, d: char)
    requires d !in s
    ensures Occurrences(s, d) == 0
  {
    if s != [] {
      OccurrencesNone(s[1..], d);
    }
  }

  /** There are never more tokens than delimiters plus one. */
  lemma {:induction false} TokensBoundedByDelimiters(s: string, d: char)
    ensures |Tokens(s, d)| <= Occurrences(s, d) + 1
    decreases |s|
  {
    if s == [] {
    } else if s[0] == d {
      TokensBoundedByDelimiters(s[1..], d);
    } else {
      var k := RunLength(s, d);
      assert s == s[..k] + s[k..];
      OccurrencesAppend(s[..k], s[k..], d);
      OccurrencesNone(s[..k], d);
      if k < |s| {
        TokensBoundedByDelimiters(s[k..][1..], d);
        assert s[k..][1..] == s[k + 1..];
      }
    }
  }

  /** Written with no empty field, a line has one more token than delimiters. */
  lemma {:induction false} JoinedDelimiters(ts: seq<string>, d: char)
    requires Fields(ts, d) && |ts| >= 1
    ensures Occurrences(Join(ts, d), d) == |ts| - 1
  {
    if |ts| == 1 {
      OccurrencesNone(ts[0], d);
    } else {
      JoinedDelimiters(ts[1..], d);
      OccurrencesNone(ts[0], d);
      OccurrencesAppend(ts[0], [d] + Join(ts[1..], d), d);
      OccurrencesAppend([d], Join(ts[1..], d), d);
      assert ts[0] + [d] + Join(ts[1..], d) == ts[0] + ([d] + Join(ts[1..], d));
    }
  }

  /**
   * `strtok_r` from the cursor `pos` (the saved pointer): skip delimiters, then
   * return the run that follows and the cursor just past the NUL written over
   * the delimiter that ended it (or the end of the string); None when only
   * delimiters remain.
   */
  function NextToken(s: string, pos: nat, d: char): (r: Option<(string, nat)>)
    requires pos <= |s|
    ensures r.None? <==> Tokens(s[pos..], d) == []
    ensures r.Some? ==> pos < r.value.1 <= |s|
    ensures r.Some? ==> Tokens(s[pos..], d) == [r.value.0] + Tokens(s[r.value.1..], d)
    decreases |s| - pos
  {
    if pos == |s| then None
    else if s[pos] == d then
      assert s[pos..][1..] == s[pos + 1..];
      NextToken(s, pos + 1, d)
    else
      var k := RunLength(s[pos..], d);
      assert s[pos..][..k] == s[pos..pos + k];
      assert s[pos..][k..] == s[pos + k..];
      if pos + k < |s| then
        assert s[pos + k..][1..] == s[pos + k + 1..];
        Some((s[pos..pos + k], pos + k + 1))
      else
        Some((s[pos..pos + k], pos + k))
  }

  /** The buffer image of an argument list: one entry per token, then the NULL that ends it. */
  function Argv(ts: seq<string>): (a: seq<Option<string>>)
    ensures |a| == |ts| + 1 && a[|ts|] == None
    ensures forall i :: 0 <= i < |ts| ==> a[i] == Some(ts[i])
  {
    seq(|ts|, i requires 0 <= i < |ts| => Some(ts[i])) + [None]
  }

  /**
   * `strsplt`: fills `buf` with the tokens of `input`, in order, followed by
   * NULL. The source then reads `buf[index - 1]` for the last token, which is
   * `buf[-1]` when there are none, and writes one entry past the tokens, so it
   * needs at least one token and room for the terminator. The input is a value
   * here, so the private copy the source tokenizes is implicit.
   */
  method Split(buf: array<Option<string>>, input: string, d: char)
    requires 0 < |Tokens(input, d)| < buf.Length
    modifies buf
    ensures buf[..|Tokens(input, d)| + 1] == Argv(Tokens(input, d))
    ensures buf[|Tokens(input, d)| + 1..] == old(buf[|Tokens(input, d)| + 1..])
  {
    ghost var ts := Tokens(input, d);
    var index := 0;
    var cursor := 0;
    ghost var rest := ts;
    assert input[0..] == input;
    while true
      invariant 0 <= cursor <= |input|
      invariant rest == Tokens(input[cursor..], d)
      invariant index <= |ts| && rest == ts[index..]
      invariant forall i :: 0 <= i < index ==> buf[i] == Some(ts[i])
      invariant forall i :: index <= i < buf.Length ==> buf[i] == old(buf[i])
      decreases |input| - cursor
    {
      var next := NextToken(input, cursor, d);
      if next.None? {
        buf[index] := None;
        break;
      }
      assert rest == [next.value.0] + Tokens(input[next.value.1..], d);
      assert ts[index..][1..] == ts[index + 1..];
      buf[index] := Some(next.value.0);
      cursor := next.value.1;
      index := index + 1;
      rest := rest[1..];
    }
    index := index - 1;
    // The emptiness test on the last token never fires: tokens are never empty.
    TokensAreFields(input, d);
    assert buf[index] != Some("");
    assert buf[..|ts| + 1] == Argv(ts);
  }

  /** Number of tokens from the cursor on, found by calling `strtok_r` until it returns NULL. */
  function CountTokensFrom(s: string, pos: nat, d: char): (n: nat)
    requires pos <= |s|
    ensures n == |Tokens(s[pos..], d)|
    decreases |s| - pos
  {
    match NextToken(s, pos, d)
    case None => 0
    case Some((_, next)) => 1 + CountTokensFrom(s, next, d)
  }

  /**
   * `countPipe`: the number of pipes a line needs, computed as the number of
   * '|'-separated non-empty segments minus one; -1 for a line with none.
   */
  function CountPipe(s: string): (c: int)
    ensures c == |Tokens(s, '|')| - 1
  {
    assert s[0..] == s;
    CountTokensFrom(s, 0, '|') - 1
  }

  /** The count is -1 exactly for the empty line and a line of bars only. */
  lemma CountPipeNegative(s: string)
    ensures CountPipe(s) == -1 <==> forall i :: 0 <= i < |s| ==> s[i] == '|'
  {
    NoTokensIffAllDelimiters(s, '|');
  }

  /** The count never exceeds the number of bars. */
  lemma CountPipeAtMostBars(s: string)
    ensures CountPipe(s) <= Occurrences(s, '|')
  {
    TokensBoundedByDelimiters(s, '|');
  }

  /** For a line whose segments are all non-empty, the count is the number of bars. */
  lemma CountPipeOfJoinedStages(stages: seq<string>)
    requires Fields(stages, '|') && |stages| >= 1
    ensures CountPipe(Join(stages, '|')) == Occurrences(Join(stages, '|'), '|') == |stages| - 1
  {
    SplitJoin(stages, '|');
    JoinedDelimiters(stages, '|');
  }

  /** Empty segments are skipped: "a||b", "|a" and "a|" need fewer pipes than they have bars. */
  lemma CountPipeSkipsEmptySegments()
    ensures CountPipe("a||b") == 1 && Occurrences("a||b", '|') == 2
    ensures CountPipe("|a") == 0 && Occurrences("|a", '|') == 1
    ensures CountPipe("a|") == 0 && Occurrences("a|", '|') == 1
  {
    assert "a||b"[..1] == "a";
    assert "a||b"[1..][1..][1..] == "b";
    assert "a|"[..1] == "a";
    assert "|a"[1..] == "a";
    WholeLineIsOneToken("a", '|');
    WholeLineIsOneToken("b", '|');
  }
}
