/**
 * The `split` and `join` hooks (providers/strings/hooks/strings.py): Python's
 * `str.split(sep)` and `sep.join(list)`.
 */
module Strings {
  import opened Wrappers
  import opened Document
  import HookModels

  /** `sep` occurs in `s` starting at position `i`. */
  predicate OccursAt(s: string, sep: string, i: nat)
  {
    i + |sep| <= |s| && s[i..i + |sep|] == sep
  }

  /** `sep in s` */
  predicate Contains(s: string, sep: string)
  {
    exists i: nat :: i <= |s| && OccursAt(s, sep, i)
  }

  /** Occurrences past the first character are the occurrences in the rest of the string, shifted by one. */
  lemma OccursShift(s: string, sep: string, j: nat)
    requires 0 < j && s != []
    ensures OccursAt(s, sep, j) <==> OccursAt(s[1..], sep, j - 1)
  {
    if j + |sep| <= |s| {
      assert s[1..][j - 1..j - 1 + |sep|] == s[j..j + |sep|];
    }
  }

  /** The leftmost occurrence of a non-empty `sep` in `s` (`s.find(sep)`). */
  function Find(s: string, sep: string): (r: Option<nat>)
    requires |sep| > 0
    ensures r.Some? ==> OccursAt(s, sep, r.value)
    decreases |s|
  {
    if |s| < |sep| then None
    else if s[..|sep|] == sep then Some(0)
    else
      match Find(s[1..], sep)
      case None => None
      case Some(k) =>
        OccursShift(s, sep, k + 1);
        Some(k + 1)
  }

  /** The occurrence found is the leftmost one, and none is found exactly when `sep` does not occur. */
  lemma {:induction false} FindIsLeftmost(s: string, sep: string)
    requires |sep| > 0
    ensures Find(s, sep).Some? ==> forall j: nat :: j < Find(s, sep).value ==> !OccursAt(s, sep, j)
    ensures Find(s, sep).None? <==> !Contains(s, sep)
    decreases |s|
  {
    if |s| < |sep| {
    } else if s[..|sep|] == sep {
      assert OccursAt(s, sep, 0);
    } else {
      FindIsLeftmost(s[1..], sep);
      forall j: nat | 0 < j
        ensures OccursAt(s, sep, j) <==> OccursAt(s[1..], sep, j - 1)
      {
        OccursShift(s, sep, j);
      }
      if Find(s[1..], sep).Some? {
        assert Find(s, sep).value == Find(s[1..], sep).value + 1;
      } else {
        assert !OccursAt(s, sep, 0);
      }
    }
  }

  /** The pieces `s.split(sep)` returns for a non-empty separator. */
  function SplitOn(s: string, sep: string): (pieces: seq<string>)
    requires |sep| > 0
    ensures |pieces| >= 1
    decreases |s|
  {
    match Find(s, sep)
    case None => [s]
    case Some(i) => [s[..i]] + SplitOn(s[i + |sep|..], sep)
  }

  /** The number of non-overlapping occurrences of `sep`, scanning from the left (`s.count(sep)`). */
  function Count(s: string, sep: string): nat
    requires |sep| > 0
    decreases |s|
  {
    match Find(s, sep)
    case None => 0
    case Some(i) => 1 + Count(s[i + |sep|..], sep)
  }

  /** `sep.join(xs)` over strings. */
  function JoinStrings(xs: seq<string>, sep: string): string
  {
    if |xs| == 0 then ""
    else if |xs| == 1 then xs[0]
    else xs[0] + sep + JoinStrings(xs[1..], sep)
  }

  /** `SplitHook.exec`: `input.split(separator)`; an empty separator raises `ValueError`. */
  function Split(input: string, separator: string): (r: Result<seq<string>>)
    ensures r.Err? <==> separator == ""
    ensures r.Ok? ==> JoinStrings(r.value, separator) == input
  {
    if separator == "" then Err(ValueError)
    else
      SplitJoinRoundTrip(input, separator);
      Ok(SplitOn(input, separator))
  }

  /** `JoinHook.exec`: `separator.join(input)`; any element that is not a string raises `TypeError`. */
  function Join(input: seq<Doc>, separator: string): (r: Result<string>)
    ensures r.Ok? <==> forall k :: 0 <= k < |input| ==> input[k].Str?
    ensures r.Ok? ==> r.value == JoinStrings(seq(|input|, k requires 0 <= k < |input| => input[k].s), separator)
  {
    if forall k :: 0 <= k < |input| ==> input[k].Str? then
      Ok(JoinStrings(seq(|input|, k requires 0 <= k < |input| => input[k].s), separator))
    else Err(TypeError)
  }

  /** Joining a first piece in front of at least one more puts the separator between them. */
  lemma JoinCons(x: string, xs: seq<string>, sep: string)
    requires xs != []
    ensures JoinStrings([x] + xs, sep) == x + sep + JoinStrings(xs, sep)
  {
    assert ([x] + xs)[1..] == xs;
  }

  /** A string is its prefix before an occurrence, the separator, and the rest after it. */
  lemma AroundOccurrence(s: string, sep: string, i: nat)
    requires OccursAt(s, sep, i)
    ensures s == s[..i] + sep + s[i + |sep|..]
  {
    assert s[..i] + s[i..i + |sep|] + s[i + |sep|..] == s;
  }

  /** Joining the pieces of a split with the same separator gives back the string. */
  lemma {:induction false} SplitJoinRoundTrip(s: string, sep: string)
    requires |sep| > 0
    ensures JoinStrings(SplitOn(s, sep), sep) == s
    decreases |s|
  {
    match Find(s, sep)
    case None =>
    case Some(i) =>
      var rest := s[i + |sep|..];
      var tail := SplitOn(rest, sep);
      SplitJoinRoundTrip(rest, sep);
      assert SplitOn(s, sep) == [s[..i]] + tail;
      JoinCons(s[..i], tail, sep);
      AroundOccurrence(s, sep, i);
  }

  /** `split` yields one more piece than there are separator occurrences. */
  lemma {:induction false} SplitPieceCount(s: string, sep: string)
    requires |sep| > 0
    ensures |SplitOn(s, sep)| == Count(s, sep) + 1
    decreases |s|
  {
    match Find(s, sep)
    case None =>
    case Some(i) => SplitPieceCount(s[i + |sep|..], sep);
  }

  /** The text before the leftmost occurrence does not contain the separator. */
  lemma PieceBeforeFindFree(s: string, sep: string)
    requires |sep| > 0 && Find(s, sep).Some?
    ensures !Contains(s[..Find(s, sep).value], sep)
  {
    var i := Find(s, sep).value;
    FindIsLeftmost(s, sep);
    forall j: nat | j <= i
      ensures !OccursAt(s[..i], sep, j)
    {
      if j + |sep| <= i {
        assert j < Find(s, sep).value;
        assert !OccursAt(s, sep, j);
        assert s[..i][j..j + |sep|] == s[j..j + |sep|];
      }
    }
  }

  /** No piece of a split contains the separator. */
  lemma {:induction false} SplitPiecesFree(s: string, sep: string)
    requires |sep| > 0
    ensures forall k :: 0 <= k < |SplitOn(s, sep)| ==> !Contains(SplitOn(s, sep)[k], sep)
    decreases |s|
  {
    match Find(s, sep)
    case None =>
      FindIsLeftmost(s, sep);
    case Some(i) =>
      var rest := s[i + |sep|..];
      PieceBeforeFindFree(s, sep);
      SplitPiecesFree(rest, sep);
      var pieces := SplitOn(s, sep);
      assert pieces == [s[..i]] + SplitOn(rest, sep);
      forall k | 0 <= k < |pieces|
        ensures !Contains(pieces[k], sep)
      {
        if k > 0 {
          assert pieces[k] == SplitOn(rest, sep)[k - 1];
        }
      }
  }

  /** The separators the hooks use when none is given: `/` for `split`, the empty string for `join`. */
  const SplitDefaultSeparator: string := "/"
  const JoinDefaultSeparator: string := ""

  /** Both hooks take `input` and then `separator` as positional arguments. */
  const StringHookArgs: seq<string> := ["input", "separator"]

  /** The strings of `xs` one after the other, with nothing between them. */
  function Concatenation(xs: seq<string>): string
  {
    if xs == [] then "" else xs[0] + Concatenation(xs[1..])
  }

  /** Joining with the empty separator is concatenation. */
  lemma {:induction false} JoinEmptyIsConcatenation(xs: seq<string>)
    ensures JoinStrings(xs, "") == Concatenation(xs)
  {
    if |xs| == 1 {
      assert xs[1..] == [];
    } else if |xs| > 1 {
      JoinEmptyIsConcatenation(xs[1..]);
    }
  }

  /**
   * `split a/b/c` splits on `/`: the pieces are free of `/` and join back to the input, and
   * an input without `/` is a single piece. `join` with no separator concatenates the strings.
   */
  lemma StringHookDefaults(s: string, xs: seq<Doc>)
    requires forall k :: 0 <= k < |xs| ==> xs[k].Str?
    ensures Split(s, SplitDefaultSeparator) == Ok(SplitOn(s, "/"))
    ensures forall k :: 0 <= k < |SplitOn(s, "/")| ==> !Contains(SplitOn(s, "/")[k], "/")
    ensures !Contains(s, "/") ==> SplitOn(s, "/") == [s]
    ensures Join(xs, JoinDefaultSeparator) == Ok(Concatenation(seq(|xs|, k requires 0 <= k < |xs| => xs[k].s)))
  {
    SplitPiecesFree(s, "/");
    FindIsLeftmost(s, "/");
    JoinEmptyIsConcatenation(seq(|xs|, k requires 0 <= k < |xs| => xs[k].s));
  }

  /** `split x sep` and `join x sep`: the first argument is the input, the second the separator. */
  lemma StringHookPositionalArgs(input: Doc, separator: Doc)
    ensures HookModels.BindPositional(StringHookArgs, [input, separator]) == Ok(map["input" := input, "separator" := separator])
  {
    assert [input, separator][1..] == [separator] && [separator][1..] == [];
    assert StringHookArgs[1..] == ["separator"] && ["separator"][1..] == [];
    assert HookModels.BindPositional([], []) == Ok(map[]);
    assert HookModels.BindPositional(["separator"], [separator]) == Ok(map["separator" := separator]);
    assert HookModels.BindPositional(StringHookArgs, [input, separator]) == Ok(map["separator" := separator]["input" := input]);
    assert map["separator" := separator]["input" := input] == map["input" := input, "separator" := separator];
  }
}
