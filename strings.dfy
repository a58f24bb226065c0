/** The JavaScript string builtins the screens rely on: `trim`, `indexOf` and `split` on one character. */
module Strings {

  /** The characters `String.prototype.trim` removes: ECMAScript WhiteSpace and LineTerminator. */
  predicate IsWhiteSpace(c: char)
  {
    var n := c as int;
    n == 0x09 || n == 0x0A || n == 0x0B || n == 0x0C || n == 0x0D || n == 0x20 ||
    n == 0xA0 || n == 0x1680 || (0x2000 <= n <= 0x200A) ||
    n == 0x2028 || n == 0x2029 || n == 0x202F || n == 0x205F || n == 0x3000 || n == 0xFEFF
  }

  /** `s` without its leading white space. */
  function TrimStart(s: string): (r: string)
    ensures |r| <= |s| && r == s[|s| - |r|..]
    ensures forall i :: 0 <= i < |s| - |r| ==> IsWhiteSpace(s[i])
    ensures r != [] ==> !IsWhiteSpace(r[0])
  {
    if |s| > 0 && IsWhiteSpace(s[0]) then TrimStart(s[1..]) else s
  }

  /** `s` without its trailing white space. */
  function TrimEnd(s: string): (r: string)
    ensures |r| <= |s| && r == s[..|r|]
    ensures forall i :: |r| <= i < |s| ==> IsWhiteSpace(s[i])
    ensures r != [] ==> !IsWhiteSpace(r[|r| - 1])
  {
    if |s| > 0 && IsWhiteSpace(s[|s| - 1]) then TrimEnd(s[..|s| - 1]) else s
  }

  function Trim(s: string): string
  {
    TrimEnd(TrimStart(s))
  }

  /** `s.trim()` is truthy: the guard every "add" handler puts on its text input. It is
      written as a scan for a character that is not white space; `HasTextIff` proves that
      this is the same as `s.trim() !== ""`. */
  predicate HasText(s: string)
  {
    |s| > 0 && (!IsWhiteSpace(s[0]) || HasText(s[1..]))
  }

  /** A string has text after trimming exactly when one of its characters is not white space. */
  lemma {:induction false} HasTextIff(s: string)
    ensures HasText(s) <==> Trim(s) != ""
    ensures HasText(s) <==> exists i :: 0 <= i < |s| && !IsWhiteSpace(s[i])
  {
    if |s| > 0 {
      HasTextIff(s[1..]);
      assert forall i :: 0 < i < |s| ==> s[i] == s[1..][i - 1];
      if IsWhiteSpace(s[0]) {
        assert TrimStart(s) == TrimStart(s[1..]);
      }
    }
  }

  /** `s.indexOf(c)`, with "not found" (-1) read as `|s|`. */
  function IndexOf(s: string, c: char): (i: nat)
    ensures i <= |s|
    ensures i < |s| ==> s[i] == c
    ensures c !in s[..i]
  {
    if |s| == 0 then 0
    else if s[0] == c then 0
    else
      var j := IndexOf(s[1..], c);
      assert s[1..][..j] == s[1..j + 1];
      1 + j
  }

  /** The first occurrence of `c` in `a + b` is at `|a|` when `a` has none and `b` starts with `c` (or is empty). */
  lemma {:induction false} IndexOfAfter(a: string, b: string, c: char)
    requires c !in a
    requires b == [] || b[0] == c
    ensures IndexOf(a + b, c) == |a|
  {
    if a != [] {
      assert (a + b)[1..] == a[1..] + b;
      IndexOfAfter(a[1..], b, c);
    }
  }

  /** The pieces joined back with the separator. */
  function Join(parts: seq<string>, sep: char): string
  {
    if |parts| == 0 then ""
    else if |parts| == 1 then parts[0]
    else parts[0] + [sep] + Join(parts[1..], sep)
  }

  /** `s.split(sep)` for a one-character separator. */
  function Split(s: string, sep: char): (parts: seq<string>)
    ensures |parts| >= 1
    ensures parts[0] == s[..IndexOf(s, sep)]
    ensures |parts| == 1 <==> sep !in s
    decreases |s|
  {
    var i := IndexOf(s, sep);
    if i == |s| then
      assert s[..i] == s;
      [s]
    else
      [s[..i]] + Split(s[i + 1..], sep)
  }

  lemma JoinCons(first: string, tail: seq<string>, sep: char)
    requires |tail| >= 1
    ensures Join([first] + tail, sep) == first + [sep] + Join(tail, sep)
  {
    assert ([first] + tail)[1..] == tail;
  }

  lemma CutAt(s: string, i: nat)
    requires i < |s|
    ensures s == s[..i] + [s[i]] + s[i + 1..]
  {
  }

  /** One step of `Split`: the text before the first separator, then the split of the rest. */
  lemma SplitStep(s: string, sep: char)
    ensures var i := IndexOf(s, sep);
            Split(s, sep) == if i < |s| then [s[..i]] + Split(s[i + 1..], sep) else [s]
  {
  }

  /** Joining the pieces of a split with the separator gives back the string. */
  lemma {:induction false} SplitJoin(s: string, sep: char)
    ensures Join(Split(s, sep), sep) == s
    decreases |s|
  {
    var i := IndexOf(s, sep);
    SplitStep(s, sep);
    if i < |s| {
      var rest := s[i + 1..];
      SplitJoin(rest, sep);
      JoinCons(s[..i], Split(rest, sep), sep);
      CutAt(s, i);
    }
  }

  /** No piece of a split contains the separator. */
  lemma {:induction false} SplitPartsHaveNoSep(s: string, sep: char)
    ensures forall k :: 0 <= k < |Split(s, sep)| ==> sep !in Split(s, sep)[k]
    decreases |s|
  {
    var i := IndexOf(s, sep);
    var parts := Split(s, sep);
    if i < |s| {
      var tail := Split(s[i + 1..], sep);
      SplitPartsHaveNoSep(s[i + 1..], sep);
      assert parts == [s[..i]] + tail;
      forall k | 0 <= k < |parts|
        ensures sep !in parts[k]
      {
        if k > 0 {
          assert parts[k] == tail[k - 1];
        }
      }
    }
  }

  /** `s.split(sep)[1] || ''`, read directly off the first two separators: the text after the
      first `sep` up to the next one, or empty when `sep` does not occur. */
  function SecondPart(s: string, sep: char): (r: string)
    ensures sep !in r
  {
    var i := IndexOf(s, sep);
    if i == |s| then ""
    else
      var rest := s[i + 1..];
      rest[..IndexOf(rest, sep)]
  }

  /** The second piece of a split starts right after the first separator. */
  lemma SplitSecond(s: string, sep: char)
    requires sep in s
    ensures var i := IndexOf(s, sep);
            |Split(s, sep)| >= 2 && Split(s, sep)[1] == Split(s[i + 1..], sep)[0]
  {
  }

  /** `SecondPart` is the second element of `Split`, and empty when there is none. */
  lemma SecondPartIsSplit(s: string, sep: char)
    ensures SecondPart(s, sep) == if |Split(s, sep)| >= 2 then Split(s, sep)[1] else ""
  {
    if sep in s {
      SplitSecond(s, sep);
    }
  }
}
