/**
 * Unpacking of compact hook calls (tackle/utils/command.py): after the tokenizer has
 * split `split foo/bar / --sep x` into tokens, each token becomes a positional argument,
 * a `--key value` keyword argument or a boolean flag. The tokenizer itself
 * (`split_input_string`, a regular expression followed by `ast.literal_eval`) is not part
 * of this model: a token is any document value, a string when literal evaluation failed.
 */
module Command {
  import opened Document

  /** A character of the class `[\-|\-\-]` in `assert_if_flag`'s pattern: a dash or a bar. */
  predicate IsMark(c: char)
  {
    c == '-' || c == '|'
  }

  predicate IsAsciiAlphaNum(c: char)
  {
    ('a' <= c <= 'z') || ('A' <= c <= 'Z') || ('0' <= c <= '9')
  }

  /** The length of the run of marks that `s` starts with. */
  function MarkRun(s: string): (k: nat)
    ensures k <= |s|
  {
    if s != [] && IsMark(s[0]) then 1 + MarkRun(s[1..]) else 0
  }

  /** Every character before the run's end is a mark, and the one at its end is not. */
  lemma {:induction false} MarkRunIsLeadingMarks(s: string)
    ensures forall j :: 0 <= j < MarkRun(s) ==> IsMark(s[j])
    ensures MarkRun(s) < |s| ==> !IsMark(s[MarkRun(s)])
    decreases |s|
  {
    if s != [] && IsMark(s[0]) {
      MarkRunIsLeadingMarks(s[1..]);
      forall j | 1 <= j < MarkRun(s)
        ensures IsMark(s[j])
      {
        assert s[j] == s[1..][j - 1];
      }
    }
  }

  /** `assert_if_flag`: whether the pattern `^[\-|\-\-]+[a-zA-Z0-9]` matches at the start of `arg`. */
  predicate AssertIfFlag(arg: string)
  {
    var k := MarkRun(arg);
    1 <= k < |arg| && IsAsciiAlphaNum(arg[k])
  }

  /** The regular expression read directly: some non-empty prefix of marks followed by a letter or digit. */
  ghost predicate FlagPatternMatches(arg: string)
  {
    exists k :: 1 <= k < |arg| && IsAsciiAlphaNum(arg[k]) && forall j :: 0 <= j < k ==> IsMark(arg[j])
  }

  lemma AssertIfFlagMatchesPattern(arg: string)
    ensures AssertIfFlag(arg) <==> FlagPatternMatches(arg)
  {
    var run := MarkRun(arg);
    MarkRunIsLeadingMarks(arg);
    if FlagPatternMatches(arg) {
      var k :| 1 <= k < |arg| && IsAsciiAlphaNum(arg[k]) && forall j :: 0 <= j < k ==> IsMark(arg[j]);
    }
  }

  /** The value `strip_dashes` computes: `raw` without its leading dashes. */
  function Stripped(raw: string): string
  {
    if raw != [] && raw[0] == '-' then Stripped(raw[1..]) else raw
  }

  /** `strip_dashes` */
  method StripDashes(raw: string) returns (r: string)
    ensures r == Stripped(raw)
  {
    r := raw;
    while |r| > 0 && r[0] == '-'
      invariant Stripped(r) == Stripped(raw)
      decreases |r|
    {
      r := r[1..];
    }
  }

  /** The stripped string is what follows a run of dashes in `raw`, and does not start with a dash. */
  lemma {:induction false} StrippedIsDashFreeSuffix(raw: string)
    ensures |Stripped(raw)| <= |raw|
    ensures Stripped(raw) == raw[|raw| - |Stripped(raw)|..]
    ensures forall j :: 0 <= j < |raw| - |Stripped(raw)| ==> raw[j] == '-'
    ensures Stripped(raw) == [] || Stripped(raw)[0] != '-'
  {
    if raw != [] && raw[0] == '-' {
      StrippedIsDashFreeSuffix(raw[1..]);
      assert raw[1..][|raw| - 1 - |Stripped(raw)|..] == raw[|raw| - |Stripped(raw)|..];
    }
  }

  lemma StripDashesIdempotent(raw: string)
    ensures Stripped(Stripped(raw)) == Stripped(raw)
  {
    StrippedIsDashFreeSuffix(raw);
  }

  /**
   * The outcome of unpacking: the positional arguments, every keyword assignment in the
   * order it is made (a later one for the same name overwrites the earlier one in
   * `kwargs`), and the flags.
   */
  datatype Unpacked = Unpacked(args: seq<Doc>, assignments: seq<(string, Doc)>, flags: seq<string>)

  function Concat(a: Unpacked, b: Unpacked): Unpacked
  {
    Unpacked(a.args + b.args, a.assignments + b.assignments, a.flags + b.flags)
  }

  /** What `unpack_args_kwargs_list` looks at after the last token: a flag-shaped string. */
  const Sentinel: Doc := Str("--hack")

  lemma SentinelIsFlag()
    ensures Sentinel.Str? && AssertIfFlag(Sentinel.s)
  {
    assert MarkRun("ck") == 0;
    assert MarkRun("hack") == 0;
    assert MarkRun("-hack") == 1;
  }

  predicate IsFlagToken(d: Doc)
  {
    d.Str? && AssertIfFlag(d.s)
  }

  /** The classification of `tokens` that `unpack_args_kwargs_list` performs. */
  function Unpack(tokens: seq<Doc>): Unpacked
    decreases |tokens|
  {
    if tokens == [] then Unpacked([], [], [])
    else
      var next := if 1 < |tokens| then tokens[1] else Sentinel;
      if IsFlagToken(tokens[0]) then
        if IsFlagToken(next) then
          var rest := Unpack(tokens[1..]);
          rest.(flags := [Stripped(tokens[0].s)] + rest.flags)
        else
          SentinelIsFlag();
          var rest := Unpack(tokens[2..]);
          rest.(assignments := [(Stripped(tokens[0].s), tokens[1])] + rest.assignments)
      else
        var rest := Unpack(tokens[1..]);
        rest.(args := [tokens[0]] + rest.args)
  }

  /** The mapping a sequence of assignments leaves behind: the last assignment to a name wins. */
  function ToMap(assignments: seq<(string, Doc)>): map<string, Doc>
  {
    if assignments == [] then map[]
    else
      var last := assignments[|assignments| - 1];
      ToMap(assignments[..|assignments| - 1])[last.0 := last.1]
  }

  /** One step of `Unpack` at position `i`: a flag. */
  lemma UnpackFlagStep(tokens: seq<Doc>, i: nat)
    requires i < |tokens| && IsFlagToken(tokens[i])
    requires IsFlagToken(if i + 1 < |tokens| then tokens[i + 1] else Sentinel)
    ensures Unpack(tokens[i..]) == Concat(Unpacked([], [], [Stripped(tokens[i].s)]), Unpack(tokens[i + 1..]))
  {
    assert tokens[i..][1..] == tokens[i + 1..];
  }

  /** One step of `Unpack` at position `i`: a keyword assignment, which needs a next token. */
  lemma UnpackKeywordStep(tokens: seq<Doc>, i: nat)
    requires i < |tokens| && IsFlagToken(tokens[i])
    requires !IsFlagToken(if i + 1 < |tokens| then tokens[i + 1] else Sentinel)
    ensures i + 1 < |tokens|
    ensures Unpack(tokens[i..]) == Concat(Unpacked([], [(Stripped(tokens[i].s), tokens[i + 1])], []), Unpack(tokens[i + 2..]))
  {
    SentinelIsFlag();
    assert tokens[i..][1] == tokens[i + 1];
    assert tokens[i..][2..] == tokens[i + 2..];
  }

  /** One step of `Unpack` at position `i`: a positional argument. */
  lemma UnpackArgStep(tokens: seq<Doc>, i: nat)
    requires i < |tokens| && !IsFlagToken(tokens[i])
    ensures Unpack(tokens[i..]) == Concat(Unpacked([tokens[i]], [], []), Unpack(tokens[i + 1..]))
  {
    assert tokens[i..][1..] == tokens[i + 1..];
  }

  lemma ConcatAssoc(a: Unpacked, b: Unpacked, c: Unpacked)
    ensures Concat(Concat(a, b), c) == Concat(a, Concat(b, c))
  {
    assert (a.args + b.args) + c.args == a.args + (b.args + c.args);
    assert (a.assignments + b.assignments) + c.assignments == a.assignments + (b.assignments + c.assignments);
    assert (a.flags + b.flags) + c.flags == a.flags + (b.flags + c.flags);
  }

  /** Recording one more assignment updates the mapping with it. */
  lemma ToMapSnoc(assignments: seq<(string, Doc)>, name: string, v: Doc)
    ensures ToMap(assignments + [(name, v)]) == ToMap(assignments)[name := v]
  {
    assert (assignments + [(name, v)])[..|assignments|] == assignments;
  }

  /** `unpack_args_kwargs_list` */
  method UnpackArgsKwargsList(inputList: seq<Doc>) returns (args: seq<Doc>, kwargs: map<string, Doc>, flags: seq<string>)
    ensures args == Unpack(inputList).args
    ensures flags == Unpack(inputList).flags
    ensures kwargs == ToMap(Unpack(inputList).assignments)
  {
    var inputListLength := |inputList|;
    args, kwargs, flags := [], map[], [];
    ghost var done := Unpacked([], [], []);
    var i := 0;
    assert inputList[0..] == inputList;
    while i < inputListLength
      invariant 0 <= i <= inputListLength
      invariant args == done.args
      invariant flags == done.flags
      invariant kwargs == ToMap(done.assignments)
      invariant Concat(done, Unpack(inputList[i..])) == Unpack(inputList)
    {
      var rawArg := inputList[i];
      var nextRawArg := if i + 1 < inputListLength then inputList[i + 1] else Sentinel;
      ghost var step: Unpacked;
      ghost var next: nat;
      if rawArg.Str? && AssertIfFlag(rawArg.s) {
        var name := StripDashes(rawArg.s);
        if nextRawArg.Str? && AssertIfFlag(nextRawArg.s) {
          // A flag: the next token is flag-shaped too, or there is none.
          UnpackFlagStep(inputList, i);
          step, next := Unpacked([], [], [name]), i + 1;
          flags := flags + [name];
        } else {
          // A keyword argument: the next token is its value and is consumed.
          UnpackKeywordStep(inputList, i);
          step, next := Unpacked([], [(name, inputList[i + 1])], []), i + 2;
          ToMapSnoc(done.assignments, name, inputList[i + 1]);
          kwargs := kwargs[name := inputList[i + 1]];
          i := i + 1;
        }
      } else {
        // A positional argument: a non-string, or a string that is not flag-shaped.
        UnpackArgStep(inputList, i);
        step, next := Unpacked([rawArg], [], []), i + 1;
        args := args + [rawArg];
      }
      assert step.assignments == [] ==> done.assignments + step.assignments == done.assignments;
      ConcatAssoc(done, step, Unpack(inputList[next..]));
      done := Concat(done, step);
      i := i + 1;
      assert i == next;
    }
    assert Unpack(inputList[i..]) == Unpacked([], [], []);
    assert Concat(done, Unpacked([], [], [])) == done;
  }

  /** Every token is consumed exactly once: as an argument, as a flag, or as half of a keyword assignment. */
  lemma {:induction false} UnpackConsumesEveryToken(tokens: seq<Doc>)
    ensures |Unpack(tokens).args| + |Unpack(tokens).flags| + 2 * |Unpack(tokens).assignments| == |tokens|
    decreases |tokens|
  {
    if tokens != [] {
      UnpackConsumesEveryToken(tokens[1..]);
      if |tokens| > 1 {
        UnpackConsumesEveryToken(tokens[2..]);
      }
    }
  }

  /** `xs` can be obtained from `ys` by deleting elements: its elements appear in `ys` in the same order. */
  predicate IsSubsequence(xs: seq<Doc>, ys: seq<Doc>)
    decreases |ys|
  {
    xs == [] || (ys != [] && ((xs[0] == ys[0] && IsSubsequence(xs[1..], ys[1..])) || IsSubsequence(xs, ys[1..])))
  }

  /** Positional arguments appear in the input, in the same order. */
  lemma {:induction false} ArgsAreSubsequence(tokens: seq<Doc>)
    ensures IsSubsequence(Unpack(tokens).args, tokens)
    decreases |tokens|
  {
    if tokens != [] {
      assert tokens[0..] == tokens;
      var next := if 1 < |tokens| then tokens[1] else Sentinel;
      var args := Unpack(tokens).args;
      if !IsFlagToken(tokens[0]) {
        UnpackArgStep(tokens, 0);
        ArgsAreSubsequence(tokens[1..]);
        assert args != [] && args[0] == tokens[0] && args[1..] == Unpack(tokens[1..]).args;
      } else if IsFlagToken(next) {
        UnpackFlagStep(tokens, 0);
        ArgsAreSubsequence(tokens[1..]);
        assert args == Unpack(tokens[1..]).args;
      } else {
        UnpackKeywordStep(tokens, 0);
        ArgsAreSubsequence(tokens[2..]);
        assert args == Unpack(tokens[2..]).args;
        assert tokens[1..][1..] == tokens[2..];
        assert IsSubsequence(args, tokens[1..]);
      }
    }
  }

  /** Positional arguments are exactly the non-flag tokens, kept in the order they had in the input. */
  lemma {:induction false} ArgsAreNonFlagTokensInOrder(tokens: seq<Doc>)
    ensures forall k :: 0 <= k < |Unpack(tokens).args| ==> !IsFlagToken(Unpack(tokens).args[k])
    ensures IsSubsequence(Unpack(tokens).args, tokens)
    ensures multiset(Unpack(tokens).args) <= multiset(tokens)
    decreases |tokens|
  {
    ArgsAreSubsequence(tokens);
    if tokens != [] {
      assert tokens[0..] == tokens;
      assert tokens == [tokens[0]] + tokens[1..];
      var next := if 1 < |tokens| then tokens[1] else Sentinel;
      if !IsFlagToken(tokens[0]) {
        UnpackArgStep(tokens, 0);
        ArgsAreNonFlagTokensInOrder(tokens[1..]);
        assert Unpack(tokens).args == [tokens[0]] + Unpack(tokens[1..]).args;
      } else if IsFlagToken(next) {
        UnpackFlagStep(tokens, 0);
        ArgsAreNonFlagTokensInOrder(tokens[1..]);
        assert Unpack(tokens).args == Unpack(tokens[1..]).args;
      } else {
        UnpackKeywordStep(tokens, 0);
        ArgsAreNonFlagTokensInOrder(tokens[2..]);
        assert Unpack(tokens).args == Unpack(tokens[2..]).args;
        assert tokens == tokens[..2] + tokens[2..];
      }
    }
  }

  /** Without flag-shaped tokens, every token is a positional argument, in input order. */
  lemma {:induction false} NoFlagTokensAllArgs(tokens: seq<Doc>)
    requires forall k :: 0 <= k < |tokens| ==> !IsFlagToken(tokens[k])
    ensures Unpack(tokens) == Unpacked(tokens, [], [])
    decreases |tokens|
  {
    if tokens != [] {
      NoFlagTokensAllArgs(tokens[1..]);
      assert tokens == [tokens[0]] + tokens[1..];
    }
  }

  /** Flag names never keep a leading dash. */
  lemma {:induction false} FlagNamesStripped(tokens: seq<Doc>)
    ensures forall k :: 0 <= k < |Unpack(tokens).flags| ==> Unpack(tokens).flags[k] == [] || Unpack(tokens).flags[k][0] != '-'
    decreases |tokens|
  {
    if tokens != [] {
      FlagNamesStripped(tokens[1..]);
      if |tokens| > 1 {
        FlagNamesStripped(tokens[2..]);
      }
      if tokens[0].Str? {
        StrippedIsDashFreeSuffix(tokens[0].s);
      }
    }
  }

  /** Keyword names never keep a leading dash. */
  lemma {:induction false} KeywordNamesStripped(tokens: seq<Doc>)
    ensures forall k :: 0 <= k < |Unpack(tokens).assignments| ==>
              Unpack(tokens).assignments[k].0 == [] || Unpack(tokens).assignments[k].0[0] != '-'
    decreases |tokens|
  {
    if tokens != [] {
      KeywordNamesStripped(tokens[1..]);
      if |tokens| > 1 {
        KeywordNamesStripped(tokens[2..]);
      }
      if tokens[0].Str? {
        StrippedIsDashFreeSuffix(tokens[0].s);
      }
    }
  }

  /** A flag-shaped token standing last is always recorded as the last flag, with its dashes stripped. */
  lemma {:induction false} TrailingFlagRecorded(tokens: seq<Doc>)
    requires tokens != [] && IsFlagToken(tokens[|tokens| - 1])
    ensures Unpack(tokens).flags != []
    ensures Unpack(tokens).flags[|Unpack(tokens).flags| - 1] == Stripped(tokens[|tokens| - 1].s)
    decreases |tokens|
  {
    SentinelIsFlag();
    if |tokens| > 1 {
      TrailingFlagRecorded(tokens[1..]);
      if IsFlagToken(tokens[0]) && !IsFlagToken(tokens[1]) && |tokens| > 2 {
        TrailingFlagRecorded(tokens[2..]);
      }
    }
  }

  /** A name assigned more than once keeps the value of its last assignment. */
  lemma {:induction false} ToMapLastWins(assignments: seq<(string, Doc)>, j: nat)
    requires j < |assignments|
    requires forall k :: j < k < |assignments| ==> assignments[k].0 != assignments[j].0
    ensures assignments[j].0 in ToMap(assignments)
    ensures ToMap(assignments)[assignments[j].0] == assignments[j].1
    decreases |assignments|
  {
    if j < |assignments| - 1 {
      ToMapLastWins(assignments[..|assignments| - 1], j);
    }
  }

  /** The names in `kwargs` are exactly the assigned names. */
  lemma {:induction false} ToMapKeys(assignments: seq<(string, Doc)>)
    ensures forall name :: name in ToMap(assignments) <==> exists k :: 0 <= k < |assignments| && assignments[k].0 == name
    decreases |assignments|
  {
    if assignments != [] {
      var init := assignments[..|assignments| - 1];
      ToMapKeys(init);
      forall name | (exists k :: 0 <= k < |assignments| && assignments[k].0 == name)
        ensures name in ToMap(assignments)
      {
        var k :| 0 <= k < |assignments| && assignments[k].0 == name;
        if k < |assignments| - 1 {
          assert init[k].0 == name;
        }
      }
      forall name | name in ToMap(assignments)
        ensures exists k :: 0 <= k < |assignments| && assignments[k].0 == name
      {
        if name != assignments[|assignments| - 1].0 {
          assert name in ToMap(init);
          var k :| 0 <= k < |init| && init[k].0 == name;
          assert assignments[k].0 == name;
        }
      }
    }
  }
}

/** Rows of the unpacking tests, stated for any words in place of the sample ones. */
module CommandExamples {
  import opened Document
  import opened Command

  predicate IsWord(w: string)
  {
    w != [] && IsAsciiAlphaNum(w[0])
  }

  /** A word is not flag-shaped; with `--` in front it is, and stripping gives the word back. */
  lemma DashedWord(w: string)
    requires IsWord(w)
    ensures !IsFlagToken(Str(w))
    ensures IsFlagToken(Str("--" + w)) && Stripped("--" + w) == w
  {
    assert MarkRun(w) == 0;
    assert ("-" + w)[1..] == w && ("--" + w)[1..] == "-" + w;
    assert MarkRun("-" + w) == 1;
    assert Stripped(w) == w;
    assert Stripped("-" + w) == w;
  }

  /** A word at position `i` is a positional argument. */
  lemma WordArgStep(t: seq<Doc>, i: nat, w: string)
    requires i < |t| && t[i] == Str(w) && IsWord(w)
    ensures Unpack(t[i..]) == Concat(Unpacked([Str(w)], [], []), Unpack(t[i + 1..]))
  {
    DashedWord(w);
    UnpackArgStep(t, i);
  }

  /** `--name value` at position `i`, with a word as the value, is a keyword assignment. */
  lemma WordKeywordStep(t: seq<Doc>, i: nat, name: string, v: string)
    requires i + 1 < |t| && t[i] == Str("--" + name) && t[i + 1] == Str(v) && IsWord(name) && IsWord(v)
    ensures Unpack(t[i..]) == Concat(Unpacked([], [(name, Str(v))], []), Unpack(t[i + 2..]))
  {
    DashedWord(name);
    DashedWord(v);
    UnpackKeywordStep(t, i);
  }

  /** `--name` at position `i`, standing last or followed by another `--word`, is a flag. */
  lemma WordFlagStep(t: seq<Doc>, i: nat, name: string, nextName: string)
    requires i < |t| && t[i] == Str("--" + name) && IsWord(name) && IsWord(nextName)
    requires i + 1 < |t| ==> t[i + 1] == Str("--" + nextName)
    ensures Unpack(t[i..]) == Concat(Unpacked([], [], [name]), Unpack(t[i + 1..]))
  {
    DashedWord(name);
    DashedWord(nextName);
    SentinelIsFlag();
    UnpackFlagStep(t, i);
  }

  /** `"this --if \"expanded == 'that'\""`, once tokenized, unpacks to one argument and one keyword. */
  lemma UnpackIfExample()
    ensures var u := Unpack([Str("this"), Str("--if"), Str("expanded == 'that'")]);
      u.args == [Str("this")] && ToMap(u.assignments) == map["if" := Str("expanded == 'that'")] && u.flags == []
  {
    var t := [Str("this"), Str("--if"), Str("expanded == 'that'")];
    assert Unpack(t[1..]) == Unpacked([], [("if", Str("expanded == 'that'"))], []) by {
      assert t[1] == Str("--" + "if") && t[3..] == [];
      WordKeywordStep(t, 1, "if", "expanded == 'that'");
    }
    WordArgStep(t, 0, "this");
    assert t[0..] == t;
    assert [("if", Str("expanded == 'that'"))][..0] == [];
  }

  /** `foo bar --baz`: two arguments and a trailing flag. */
  lemma CountTableRow1(t: seq<Doc>, foo: string, bar: string, baz: string)
    requires IsWord(foo) && IsWord(bar) && IsWord(baz)
    requires |t| == 3 && t[0] == Str(foo) && t[1] == Str(bar) && t[2] == Str("--" + baz)
    ensures Unpack(t) == Unpacked([Str(foo), Str(bar)], [], [baz])
  {
    assert Unpack(t[2..]) == Unpacked([], [], [baz]) by {
      assert t[3..] == [];
      WordFlagStep(t, 2, baz, baz);
    }
    assert Unpack(t[1..]) == Unpacked([Str(bar)], [], [baz]) by {
      WordArgStep(t, 1, bar);
    }
    WordArgStep(t, 0, foo);
    assert t[0..] == t;
    assert Concat(Unpacked([Str(foo)], [], []), Unpacked([Str(bar)], [], [baz])) == Unpacked([Str(foo), Str(bar)], [], [baz]) by {
      assert [Str(foo)] + [Str(bar)] == [Str(foo), Str(bar)];
    }
  }

  /** `foo --bar baz --foo`: one argument, one keyword, one flag. */
  lemma CountTableRow2(t: seq<Doc>, foo: string, bar: string, baz: string)
    requires IsWord(foo) && IsWord(bar) && IsWord(baz)
    requires |t| == 4 && t[0] == Str(foo) && t[1] == Str("--" + bar) && t[2] == Str(baz) && t[3] == Str("--" + foo)
    ensures Unpack(t) == Unpacked([Str(foo)], [(bar, Str(baz))], [foo])
  {
    assert t[4..] == [] && t[0..] == t;
    WordFlagStep(t, 3, foo, foo);
    WordKeywordStep(t, 1, bar, baz);
    WordArgStep(t, 0, foo);
  }

  /** The last five tokens of the third row: two keywords around a flag. */
  lemma CountTableRow3Tail(t: seq<Doc>, foo: string, bar: string, bing: string, baz: string, bling: string)
    requires IsWord(foo) && IsWord(bar) && IsWord(bing) && IsWord(baz) && IsWord(bling)
    requires |t| == 7 && t[0] == Str(foo) && t[1] == Str(bar) && t[2] == Str("--" + foo) && t[3] == Str(bar)
    requires t[4] == Str("--" + bing) && t[5] == Str("--" + baz) && t[6] == Str(bling)
    ensures Unpack(t[2..]) == Unpacked([], [(foo, Str(bar)), (baz, Str(bling))], [bing])
  {
    assert t[7..] == [];
    WordKeywordStep(t, 5, baz, bling);
    WordFlagStep(t, 4, bing, baz);
    WordKeywordStep(t, 2, foo, bar);
  }

  /** `foo bar --foo bar --bing --baz bling`: two arguments, two keywords, one flag. */
  lemma CountTableRow3(t: seq<Doc>, foo: string, bar: string, bing: string, baz: string, bling: string)
    requires IsWord(foo) && IsWord(bar) && IsWord(bing) && IsWord(baz) && IsWord(bling)
    requires |t| == 7 && t[0] == Str(foo) && t[1] == Str(bar) && t[2] == Str("--" + foo) && t[3] == Str(bar)
    requires t[4] == Str("--" + bing) && t[5] == Str("--" + baz) && t[6] == Str(bling)
    ensures Unpack(t) == Unpacked([Str(foo), Str(bar)], [(foo, Str(bar)), (baz, Str(bling))], [bing])
  {
    CountTableRow3Tail(t, foo, bar, bing, baz, bling);
    WordArgStep(t, 1, bar);
    WordArgStep(t, 0, foo);
    assert t[0..] == t;
  }
}
