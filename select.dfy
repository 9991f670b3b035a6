/**
 * The `select` hook (tackle/providers/pyinquirer/hooks/select.py): a list prompt over
 * string choices or over single-entry maps whose key is the output and whose value is
 * displayed. The terminal prompt itself is a parameter: the response it would give.
 */
module Select {
  import opened Wrappers
  import opened Document

  /**
   * A choice as the hook receives it: a string, a map with its entries in order, or any
   * other value (never a string or a map).
   */
  /** A document that is neither a string nor a mapping. */
  type OtherDoc = d: Doc | !d.Str? && !d.Map? witness Null

  datatype Choice = Text(s: string) | Dict(entries: seq<(string, Choice)>) | Scalar(d: OtherDoc)

  /** The runtime type of a choice, as compared by the type check. */
  datatype Kind = KText | KDict | KOther(name: string)

  function KindOf(c: Choice): Kind
  {
    match c
    case Text(_) => KText
    case Dict(_) => KDict
    case Scalar(d) => KOther(RuntimeTypeName(d))
  }

  /** Python truthiness of a choice value. */
  predicate ChoiceTruthy(c: Choice)
  {
    match c
    case Text(s) => s != ""
    case Dict(entries) => entries != []
    case Scalar(d) => Truthy(d)
  }

  /** The fields of a `select` hook call that `execute` reads and writes. */
  class SelectHook {
    var choices: seq<Choice>
    var default: Choice
    var noInput: bool
    var name: string
    var index: bool

    constructor (choices: seq<Choice>, default: Choice, noInput: bool, name: string, index: bool)
      ensures this.choices == choices && this.default == default && this.noInput == noInput
      ensures this.name == name && this.index == index
    {
      this.choices := choices;
      this.default := default;
      this.noInput := noInput;
      this.name := name;
      this.index := index;
    }

    /**
     * `InquirerListHook.execute`, with `response` the prompt's answer: check that all
     * choices have one type, then prompt and map the answer back to a key or an index.
     */
    method Execute(response: Choice) returns (r: Result<Choice>)
      modifies this
      ensures (r, choices) == ExecuteSpec(old(choices), default, noInput, name, index, response)
      ensures default == old(default) && noInput == old(noInput) && name == old(name) && index == old(index)
    {
      var kind := CheckKinds(choices);
      if kind.Err? {
        return Err(kind.error);
      }
      if kind.value == Some(KText) {
        var answer := PromptAnswer(choices, default, noInput, name, response);
        if answer.Err? {
          return Err(answer.error);
        }
        if !index {
          return Ok(answer.value);
        }
        var k := IndexOf(choices, answer.value);
        if k.None? {
          return Err(ValueError);
        }
        return Ok(Scalar(Int(k.value)));
      } else if kind.value == Some(KDict) {
        var dicts := choices;
        var shown := FirstValues(dicts);
        if shown.Err? {
          return Err(shown.error);
        }
        choices := shown.value;
        var answer := PromptAnswer(choices, default, noInput, name, response);
        if answer.Err? {
          return Err(answer.error);
        }
        var key := FindKey(dicts, answer.value);
        if key.None? {
          return Ok(Scalar(Null));
        }
        if !index {
          return Ok(Text(key.value));
        }
        var k := IndexOf(choices, answer.value);
        if k.None? {
          return Err(ValueError);
        }
        return Ok(Scalar(Int(k.value)));
      } else {
        return Err(ValueError);
      }
    }
  }

  // ---------------------------------------------------------------------------------
  // The type check

  /** The one kind shared by all choices; `None` for no choices; mixed kinds raise. */
  function CommonKind(cs: seq<Choice>): (r: Result<Option<Kind>>)
    ensures cs == [] ==> r == Ok(None)
    ensures r.Err? <==> exists i :: 0 <= i < |cs| && KindOf(cs[i]) != KindOf(cs[0])
    ensures r.Err? ==> r.error == ValueError
    ensures r.Ok? && cs != [] ==> r.value == Some(KindOf(cs[0]))
  {
    if cs == [] then Ok(None)
    else if forall i :: 0 <= i < |cs| ==> KindOf(cs[i]) == KindOf(cs[0]) then Ok(Some(KindOf(cs[0])))
    else Err(ValueError)
  }

  /** The loop that compares the type of each choice with the type of the one before. */
  method CheckKinds(cs: seq<Choice>) returns (r: Result<Option<Kind>>)
    ensures r == CommonKind(cs)
  {
    var kind: Option<Kind> := None;
    var i := 0;
    while i < |cs|
      invariant 0 <= i <= |cs|
      invariant i == 0 <==> kind.None?
      invariant i > 0 ==> kind == Some(KindOf(cs[0]))
      invariant forall j :: 0 <= j < i ==> KindOf(cs[j]) == KindOf(cs[0])
      decreases |cs| - i
    {
      if i != 0 && Some(KindOf(cs[i])) != kind {
        return Err(ValueError);
      }
      kind := Some(KindOf(cs[i]));
      i := i + 1;
    }
    return Ok(kind);
  }

  // ---------------------------------------------------------------------------------
  // Map choices

  /** `i[list(i.keys())[0]]`: the displayed value of a map choice; an empty map raises. */
  function FirstValue(c: Choice): Result<Choice>
  {
    if c.Dict? && c.entries != [] then Ok(c.entries[0].1) else Err(IndexError)
  }

  /** The displayed options: the first value of each map choice, in order. */
  function Displayed(cs: seq<Choice>): (r: Result<seq<Choice>>)
    ensures r.Ok? <==> forall k :: 0 <= k < |cs| ==> FirstValue(cs[k]).Ok?
    ensures r.Ok? ==> |r.value| == |cs| && forall k :: 0 <= k < |cs| ==> r.value[k] == FirstValue(cs[k]).value
  {
    if forall k :: 0 <= k < |cs| ==> FirstValue(cs[k]).Ok? then
      Ok(seq(|cs|, k requires 0 <= k < |cs| => FirstValue(cs[k]).value))
    else Err(IndexError)
  }

  /** The loop that collects the displayed options. */
  method FirstValues(cs: seq<Choice>) returns (r: Result<seq<Choice>>)
    ensures r == Displayed(cs)
  {
    var shown: seq<Choice> := [];
    var i := 0;
    while i < |cs|
      invariant 0 <= i <= |cs| && |shown| == i
      invariant forall k :: 0 <= k < i ==> FirstValue(cs[k]).Ok? && shown[k] == FirstValue(cs[k]).value
      decreases |cs| - i
    {
      var v := FirstValue(cs[i]);
      if v.Err? {
        return Err(v.error);
      }
      shown := shown + [v.value];
      i := i + 1;
    }
    assert Displayed(cs).Ok? && Displayed(cs).value == shown;
    return Ok(shown);
  }

  /** The choice at position `j` is a map whose first value is `answer`. */
  predicate ShowsAt(cs: seq<Choice>, j: nat, answer: Choice)
  {
    j < |cs| && FirstValue(cs[j]) == Ok(answer)
  }

  /** The key of the first map choice whose displayed value is the answer. */
  function MatchingKey(cs: seq<Choice>, answer: Choice): (r: Option<string>)
    ensures r.None? <==> forall j :: 0 <= j < |cs| ==> !ShowsAt(cs, j, answer)
    decreases |cs|
  {
    if cs == [] then None
    else if ShowsAt(cs, 0, answer) then Some(cs[0].entries[0].0)
    else
      var r := MatchingKey(cs[1..], answer);
      assert forall j :: 1 <= j < |cs| ==> cs[j] == cs[1..][j - 1];
      assert r.None? <==> forall j :: 0 <= j < |cs| ==> !ShowsAt(cs, j, answer) by {
        if r.None? {
          forall j | 1 <= j < |cs|
            ensures !ShowsAt(cs, j, answer)
          {
            assert !ShowsAt(cs[1..], j - 1, answer);
          }
        } else {
          var j :| 0 <= j < |cs[1..]| && ShowsAt(cs[1..], j, answer);
          assert ShowsAt(cs, j + 1, answer);
        }
      }
      r
  }

  /** The loop that looks the answer up among the map choices. */
  method FindKey(cs: seq<Choice>, answer: Choice) returns (r: Option<string>)
    ensures r == MatchingKey(cs, answer)
  {
    var i := 0;
    while i < |cs|
      invariant 0 <= i <= |cs|
      invariant MatchingKey(cs[i..], answer) == MatchingKey(cs, answer)
      decreases |cs| - i
    {
      assert cs[i..][0] == cs[i] && cs[i..][1..] == cs[i + 1..];
      if cs[i].Dict? && cs[i].entries != [] {
        var val := cs[i].entries[0].0;
        if cs[i].entries[0].1 == answer {
          return Some(val);
        }
      }
      i := i + 1;
    }
    assert cs[i..] == [];
    return None;
  }

  /** The key found is that of the first map choice showing the answer. */
  lemma {:induction false} MatchingKeyIsFirst(cs: seq<Choice>, answer: Choice, j: nat)
    requires ShowsAt(cs, j, answer)
    requires forall i :: 0 <= i < j ==> !ShowsAt(cs, i, answer)
    ensures MatchingKey(cs, answer) == Some(cs[j].entries[0].0)
    decreases j
  {
    if j > 0 {
      assert !ShowsAt(cs, 0, answer);
      forall i | 0 <= i < j - 1
        ensures !ShowsAt(cs[1..], i, answer)
      {
        assert !ShowsAt(cs, i + 1, answer);
      }
      MatchingKeyIsFirst(cs[1..], answer, j - 1);
    }
  }

  // ---------------------------------------------------------------------------------
  // Prompting and answers

  /** `list.index(x)`: the first position of `x`. */
  function IndexOf(cs: seq<Choice>, x: Choice): (r: Option<nat>)
    ensures r.Some? ==> r.value < |cs| && cs[r.value] == x && forall k :: 0 <= k < r.value ==> cs[k] != x
    ensures r.None? ==> forall k :: 0 <= k < |cs| ==> cs[k] != x
    decreases |cs|
  {
    if cs == [] then None
    else if cs[0] == x then Some(0)
    else
      match IndexOf(cs[1..], x)
      case None => None
      case Some(k) => Some(k + 1)
  }

  /** `response['tmp']` */
  function LookupEntry(entries: seq<(string, Choice)>, key: string): Option<Choice>
    decreases |entries|
  {
    if entries == [] then None
    else if entries[0].0 == key then Some(entries[0].1)
    else LookupEntry(entries[1..], key)
  }

  /**
   * `_run_prompt`: the prompt's response (the whole response unless the answer is under
   * the default name `tmp`); without input, a truthy default, else the first choice, or
   * the first key when the first choice is a map.
   */
  function PromptAnswer(cs: seq<Choice>, default: Choice, noInput: bool, name: string, response: Choice): (r: Result<Choice>)
    ensures noInput && ChoiceTruthy(default) ==> r == Ok(default)
    ensures noInput && !ChoiceTruthy(default) && cs != [] && cs[0].Text? ==> r == Ok(cs[0])
  {
    if !noInput then
      if name != "tmp" then Ok(response)
      else if response.Dict? && LookupEntry(response.entries, "tmp").Some? then Ok(LookupEntry(response.entries, "tmp").value)
      else Err(KeyError)
    else if ChoiceTruthy(default) then Ok(default)
    else if cs == [] then Err(IndexError)
    else if cs[0].Text? then Ok(cs[0])
    else if cs[0].Dict? then
      if cs[0].entries == [] then Err(IndexError) else Ok(Text(cs[0].entries[0].0))
    else Ok(Scalar(Null))
  }

  /** The result of `execute`, and the choices left on the hook afterwards. */
  function ExecuteSpec(cs: seq<Choice>, default: Choice, noInput: bool, name: string, index: bool, response: Choice): (Result<Choice>, seq<Choice>)
  {
    match CommonKind(cs)
    case Err(e) => (Err(e), cs)
    case Ok(Some(KText)) =>
      (match PromptAnswer(cs, default, noInput, name, response)
       case Err(e) => Err(e)
       case Ok(a) =>
         if !index then Ok(a)
         else match IndexOf(cs, a)
           case None => Err(ValueError)
           case Some(k) => Ok(Scalar(Int(k))), cs)
    case Ok(Some(KDict)) =>
      (match Displayed(cs)
       case Err(e) => (Err(e), cs)
       case Ok(shown) =>
         (match PromptAnswer(shown, default, noInput, name, response)
          case Err(e) => Err(e)
          case Ok(a) =>
            match MatchingKey(cs, a)
            case None => Ok(Scalar(Null))
            case Some(key) =>
              if !index then Ok(Text(key))
              else match IndexOf(shown, a)
                case None => Err(ValueError)
                case Some(k) => Ok(Scalar(Int(k))), shown))
    case _ => (Err(ValueError), cs)
  }

  /** Choices of two different types are refused before any prompt. */
  lemma MixedChoicesRejected(cs: seq<Choice>, default: Choice, noInput: bool, name: string, index: bool, response: Choice, i: nat, j: nat)
    requires i < |cs| && j < |cs| && KindOf(cs[i]) != KindOf(cs[j])
    ensures ExecuteSpec(cs, default, noInput, name, index, response) == (Err(ValueError), cs)
  {
  }

  /** No choices, or choices that are neither strings nor maps, are refused. */
  lemma EmptyOrOtherChoicesRejected(cs: seq<Choice>, default: Choice, noInput: bool, name: string, index: bool, response: Choice)
    requires cs == [] || (forall k :: 0 <= k < |cs| ==> cs[k].Scalar?)
    ensures ExecuteSpec(cs, default, noInput, name, index, response).0 == Err(ValueError)
  {
  }

  /** With string choices and `index`, the result is the position of the answer among the choices. */
  lemma TextChoiceIndex(cs: seq<Choice>, default: Choice, noInput: bool, name: string, response: Choice)
    requires cs != [] && forall k :: 0 <= k < |cs| ==> cs[k].Text?
    requires PromptAnswer(cs, default, noInput, name, response).Ok?
    ensures var a := PromptAnswer(cs, default, noInput, name, response).value;
      var r := ExecuteSpec(cs, default, noInput, name, true, response).0;
      (r.Ok? ==> r.value.Scalar? && r.value.d.Int? && 0 <= r.value.d.i < |cs| && cs[r.value.d.i] == a) &&
      (r.Err? <==> forall k :: 0 <= k < |cs| ==> cs[k] != a)
  {
    assert CommonKind(cs) == Ok(Some(KText));
  }

  /**
   * With map choices the prompt shows each map's first value, and the result is the key of
   * the first map showing the answer, or with `index` that map's position.
   */
  lemma DictChoiceResult(cs: seq<Choice>, default: Choice, noInput: bool, name: string, index: bool, response: Choice, j: nat)
    requires cs != [] && forall k :: 0 <= k < |cs| ==> cs[k].Dict? && cs[k].entries != []
    requires var shown := Displayed(cs).value;
      PromptAnswer(shown, default, noInput, name, response).Ok? &&
      ShowsAt(cs, j, PromptAnswer(shown, default, noInput, name, response).value) &&
      forall i :: 0 <= i < j ==> !ShowsAt(cs, i, PromptAnswer(shown, default, noInput, name, response).value)
    ensures ExecuteSpec(cs, default, noInput, name, index, response).1 == Displayed(cs).value
    ensures ExecuteSpec(cs, default, noInput, name, index, response).0 ==
      Ok(if index then Scalar(Int(j)) else Text(cs[j].entries[0].0))
  {
    assert CommonKind(cs) == Ok(Some(KDict));
    var shown := Displayed(cs).value;
    var a := PromptAnswer(shown, default, noInput, name, response).value;
    MatchingKeyIsFirst(cs, a, j);
    var k := IndexOf(shown, a);
    assert shown[j] == a;
    if k.Some? && k.value != j {
      if k.value < j {
        assert ShowsAt(cs, k.value, a);
      }
    }
  }

  /** Without input and without a truthy default, map choices select the first map's key. */
  lemma NoInputPicksFirstKey(cs: seq<Choice>, default: Choice, name: string, response: Choice)
    requires cs != [] && forall k :: 0 <= k < |cs| ==> cs[k].Dict? && cs[k].entries != []
    requires cs[0].entries[0].1.Text? && !ChoiceTruthy(default)
    ensures ExecuteSpec(cs, default, true, name, false, response).0 == Ok(Text(cs[0].entries[0].0))
  {
    var shown := Displayed(cs).value;
    assert PromptAnswer(shown, default, true, name, response) == Ok(shown[0]);
    DictChoiceResult(cs, default, true, name, false, response, 0);
  }

  /** Without input, a truthy default is the answer, whatever the choices. */
  lemma NoInputTakesDefault(cs: seq<Choice>, default: Choice, name: string, response: Choice)
    requires cs != [] && forall k :: 0 <= k < |cs| ==> cs[k].Text?
    requires ChoiceTruthy(default)
    ensures ExecuteSpec(cs, default, true, name, false, response).0 == Ok(default)
  {
    assert CommonKind(cs) == Ok(Some(KText));
  }
}
