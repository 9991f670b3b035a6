/**
 * The legacy operator walker (cookiecutter/operator.py): `parse_operator` evaluates an
 * operator's `when` condition, expands its `loop` with `item` bound to each target, and
 * otherwise renders the operator and dispatches it by `type` through `run_operator`.
 *
 * Jinja rendering, the iteration order of a rendered mapping and the `execute` method of
 * each operator class are collaborators handed in as functions; the operator registry
 * (`BaseOperator.__subclasses__()`) is a sequence of classes in definition order.
 */
module Operator {
  import opened Wrappers
  import opened Document

  /** A registered operator class: its `type` and whether it runs after generation. */
  datatype OperatorClass = OperatorClass(typeName: string, postGen: bool)

  /** An operator instance held back to run after generation. */
  datatype PendingOperator = PendingOperator(cls: OperatorClass, operatorDict: map<string, Doc>)

  /** What `parse_operator` returns: `cookiecutter_dict` itself, or the value now at `key`. */
  datatype Returned = WholeDict | KeyValue(value: Doc)

  /** The collaborators `parse_operator` calls. */
  datatype Collaborators = Collaborators(
    render: (Doc, map<string, Doc>) -> Doc,
    renderDict: (map<string, Doc>, map<string, Doc>) -> map<string, Doc>,
    keysOf: map<string, Doc> -> seq<string>,
    execute: (OperatorClass, map<string, Doc>) -> Doc,
    registry: seq<OperatorClass>)

  // ---------------------------------------------------------------------------------
  // run_operator

  /** Registered class `o` handles the operator dict `od`. */
  predicate Handles(o: OperatorClass, od: map<string, Doc>)
    requires "type" in od
  {
    od["type"] == Str(o.typeName)
  }

  /**
   * The loop of `run_operator` over `registry`, continuing from `output` and `delayed`:
   * each class whose `type` matches is instantiated; a post-generation one replaces the
   * delayed output, any other one is executed and replaces the output.
   */
  function RunOperatorFrom(registry: seq<OperatorClass>, od: map<string, Doc>, execute: (OperatorClass, map<string, Doc>) -> Doc,
                           output: Doc, delayed: Option<PendingOperator>): Result<(Doc, Option<PendingOperator>)>
    decreases |registry|
  {
    if registry == [] then Ok((output, delayed))
    else if "type" !in od then Err(KeyError)
    else
      var o := registry[0];
      if Handles(o, od) then
        if o.postGen then RunOperatorFrom(registry[1..], od, execute, output, Some(PendingOperator(o, od)))
        else RunOperatorFrom(registry[1..], od, execute, execute(o, od), delayed)
      else RunOperatorFrom(registry[1..], od, execute, output, delayed)
  }

  /** The position of the last class in `registry` that handles `od` and has the given post-generation flag. */
  function LastHandler(registry: seq<OperatorClass>, od: map<string, Doc>, postGen: bool): (r: Option<nat>)
    requires "type" in od
    ensures r.Some? ==> r.value < |registry| && Handles(registry[r.value], od) && registry[r.value].postGen == postGen
    ensures r.Some? ==> forall j :: r.value < j < |registry| ==> !(Handles(registry[j], od) && registry[j].postGen == postGen)
    ensures r.None? ==> forall j :: 0 <= j < |registry| ==> !(Handles(registry[j], od) && registry[j].postGen == postGen)
  {
    if registry == [] then None
    else
      var rest := LastHandler(registry[1..], od, postGen);
      assert forall j :: 1 <= j < |registry| ==> registry[j] == registry[1..][j - 1];
      if rest.Some? then Some(rest.value + 1)
      else if Handles(registry[0], od) && registry[0].postGen == postGen then Some(0)
      else None
  }

  /**
   * `run_operator` as a reference definition: the output is the last matching ordinary
   * operator's execution (else what came before), the delayed output the last matching
   * post-generation operator, which is never executed.
   */
  lemma {:induction false} RunOperatorIsLastHandler(registry: seq<OperatorClass>, od: map<string, Doc>,
      execute: (OperatorClass, map<string, Doc>) -> Doc, output: Doc, delayed: Option<PendingOperator>)
    requires "type" in od
    ensures RunOperatorFrom(registry, od, execute, output, delayed) == Ok((
      match LastHandler(registry, od, false) case Some(j) => execute(registry[j], od) case None => output,
      match LastHandler(registry, od, true) case Some(j) => Some(PendingOperator(registry[j], od)) case None => delayed))
    decreases |registry|
  {
    if registry != [] {
      var o := registry[0];
      if Handles(o, od) && o.postGen {
        RunOperatorIsLastHandler(registry[1..], od, execute, output, Some(PendingOperator(o, od)));
      } else if Handles(o, od) {
        RunOperatorIsLastHandler(registry[1..], od, execute, execute(o, od), delayed);
      } else {
        RunOperatorIsLastHandler(registry[1..], od, execute, output, delayed);
      }
    }
  }

  /** With no registered class of the operator's type, `run_operator` returns `(None, None)`. */
  lemma RunOperatorNoMatch(registry: seq<OperatorClass>, od: map<string, Doc>, execute: (OperatorClass, map<string, Doc>) -> Doc)
    requires "type" in od
    requires forall j :: 0 <= j < |registry| ==> !Handles(registry[j], od)
    ensures RunOperatorFrom(registry, od, execute, Null, None) == Ok((Null, None))
  {
    RunOperatorIsLastHandler(registry, od, execute, Null, None);
  }

  /** A missing `type` is a `KeyError` as soon as there is a class to compare it with. */
  lemma RunOperatorMissingType(registry: seq<OperatorClass>, od: map<string, Doc>, execute: (OperatorClass, map<string, Doc>) -> Doc)
    requires "type" !in od
    ensures RunOperatorFrom(registry, od, execute, Null, None) == if registry == [] then Ok((Null, None)) else Err(KeyError)
  {
  }

  /** One turn of the `run_operator` loop, at position `i`. */
  lemma RunOperatorStep(registry: seq<OperatorClass>, i: nat, od: map<string, Doc>, execute: (OperatorClass, map<string, Doc>) -> Doc,
                        output: Doc, delayed: Option<PendingOperator>)
    requires i < |registry| && "type" in od
    ensures RunOperatorFrom(registry[i..], od, execute, output, delayed) ==
      if Handles(registry[i], od) then
        if registry[i].postGen then RunOperatorFrom(registry[i + 1..], od, execute, output, Some(PendingOperator(registry[i], od)))
        else RunOperatorFrom(registry[i + 1..], od, execute, execute(registry[i], od), delayed)
      else RunOperatorFrom(registry[i + 1..], od, execute, output, delayed)
  {
    assert registry[i..][1..] == registry[i + 1..];
  }

  /** `run_operator` */
  method RunOperator(registry: seq<OperatorClass>, operatorDict: map<string, Doc>, execute: (OperatorClass, map<string, Doc>) -> Doc)
    returns (r: Result<(Doc, Option<PendingOperator>)>)
    ensures r == RunOperatorFrom(registry, operatorDict, execute, Null, None)
  {
    var operatorOutput := Null;
    var delayedOutput: Option<PendingOperator> := None;
    assert registry[0..] == registry;
    var i := 0;
    while i < |registry|
      invariant 0 <= i <= |registry|
      invariant RunOperatorFrom(registry[i..], operatorDict, execute, operatorOutput, delayedOutput) == RunOperatorFrom(registry, operatorDict, execute, Null, None)
    {
      var o := registry[i];
      if "type" !in operatorDict {
        return Err(KeyError);
      }
      RunOperatorStep(registry, i, operatorDict, execute, operatorOutput, delayedOutput);
      if operatorDict["type"] == Str(o.typeName) {
        if o.postGen {
          delayedOutput := Some(PendingOperator(o, operatorDict));
        } else {
          operatorOutput := execute(o, operatorDict);
        }
      }
      i := i + 1;
    }
    assert registry[i..] == [];
    return Ok((operatorOutput, delayedOutput));
  }

  // ---------------------------------------------------------------------------------
  // parse_operator

  /**
   * The state `parse_operator` reads and writes: the operator dicts of
   * `context['cookiecutter']`, `cookiecutter_dict` and the global `post_gen_operator_list`.
   */
  datatype WalkState = WalkState(operators: map<string, map<string, Doc>>, cookiecutter: map<string, Doc>, postGen: seq<PendingOperator>)

  /** `for l in loop_targets`: a list yields its elements, a string its characters, a mapping its keys. */
  function Iterate(targets: Doc, keysOf: map<string, Doc> -> seq<string>): (r: Result<seq<Doc>>)
    ensures targets.List? ==> r == Ok(targets.items)
    ensures targets.Str? ==> r.Ok? && |r.value| == |targets.s| && forall k :: 0 <= k < |targets.s| ==> r.value[k] == Str([targets.s[k]])
    ensures r.Err? <==> !(targets.List? || targets.Str? || targets.Map?)
  {
    match targets
    case List(items) => Ok(items)
    case Str(s) => Ok(seq(|s|, k requires 0 <= k < |s| => Str([s[k]])))
    case Map(fields) =>
      var keys := keysOf(fields);
      Ok(seq(|keys|, k requires 0 <= k < |keys| => Str(keys[k])))
    case _ => Err(TypeError)
  }

  /**
   * `parse_operator` once `when` and `loop` are out of the way: the operator dict is
   * rendered, then run (without `no_input`) or replaced by its `default` (with it).
   */
  function ParseBody(s: WalkState, key: string, appendKey: bool, noInput: bool, fns: Collaborators): (r: Result<(WalkState, Returned)>)
    requires key in s.operators
    ensures r.Ok? ==> r.value.0.operators == s.operators && key in r.value.0.cookiecutter
    ensures r.Ok? ==> r.value.0.cookiecutter == s.cookiecutter[key := r.value.0.cookiecutter[key]]
    ensures r.Ok? ==> r.value.1 == if appendKey then KeyValue(r.value.0.cookiecutter[key]) else WholeDict
  {
    var rendered := fns.renderDict(s.operators[key], s.cookiecutter);
    var run: Result<(Doc, Option<PendingOperator>)> :=
      if !noInput then RunOperatorFrom(fns.registry, rendered, fns.execute, Null, None)
      else if "default" in rendered then Ok((rendered["default"], None))
      else Ok((Map(rendered), None));
    match run
    case Err(e) => Err(e)
    case Ok((out, delayed)) =>
      var pending := match delayed case Some(p) => [p] case None => [];
      var s' := WalkState(s.operators, s.cookiecutter[key := out], s.postGen + pending);
      Ok((s', if appendKey then KeyValue(out) else WholeDict))
  }

  /**
   * The loop of `parse_operator` over `items`, continuing from state `s` and outputs
   * `outs`: `item` is bound to each target in turn and the operator is parsed with
   * `append_key`, its value collected.
   */
  function LoopSpec(items: seq<Doc>, s: WalkState, key: string, noInput: bool, fns: Collaborators, outs: seq<Doc>): Result<(WalkState, seq<Doc>)>
    requires key in s.operators
    decreases |items|
  {
    if items == [] then Ok((s, outs))
    else
      var s1 := s.(cookiecutter := s.cookiecutter["item" := items[0]]);
      match ParseBody(s1, key, true, noInput, fns)
      case Err(e) => Err(e)
      case Ok((s2, ret)) => LoopSpec(items[1..], s2, key, noInput, fns, outs + [ret.value])
  }

  /** What `parse_operator(context, key, cookiecutter_dict, append_key, no_input)` does. */
  function ParseOperatorSpec(s: WalkState, key: string, appendKey: bool, noInput: bool, fns: Collaborators): Result<(WalkState, Returned)>
  {
    if key !in s.operators then Err(KeyError)
    else
      var od := s.operators[key];
      var whenTrue := "when" !in od || fns.render(od["when"], s.cookiecutter) == Str("True");
      var s1 := if "when" in od then s.(operators := s.operators[key := od - {"when"}]) else s;
      if !whenTrue then Ok((s1, WholeDict))
      else
        var od1 := s1.operators[key];
        if "loop" in od1 then
          var targets := fns.render(od1["loop"], s1.cookiecutter);
          var s2 := s1.(operators := s1.operators[key := od1 - {"loop"}]);
          match Iterate(targets, fns.keysOf)
          case Err(e) => Err(e)
          case Ok(items) =>
            (match LoopSpec(items, s2, key, noInput, fns, [])
             case Err(e) => Err(e)
             case Ok((s3, outs)) =>
               if "item" !in s3.cookiecutter then Err(KeyError)
               else Ok((s3.(cookiecutter := (s3.cookiecutter - {"item"})[key := List(outs)]), WholeDict)))
        else ParseBody(s1, key, appendKey, noInput, fns)
  }

  /** With neither `when` nor `loop` left, `parse_operator` is just its body. */
  lemma ParseOperatorPlain(s: WalkState, key: string, appendKey: bool, noInput: bool, fns: Collaborators)
    requires key in s.operators && "when" !in s.operators[key] && "loop" !in s.operators[key]
    ensures ParseOperatorSpec(s, key, appendKey, noInput, fns) == ParseBody(s, key, appendKey, noInput, fns)
  {
  }

  /** The loop collects exactly one output per target, in order, and leaves the operators alone. */
  lemma {:induction false} LoopCollectsOnePerTarget(items: seq<Doc>, s: WalkState, key: string, noInput: bool, fns: Collaborators, outs: seq<Doc>)
    requires key in s.operators
    requires LoopSpec(items, s, key, noInput, fns, outs).Ok?
    ensures var (s', outs') := LoopSpec(items, s, key, noInput, fns, outs).value;
      |outs'| == |outs| + |items| && outs'[..|outs|] == outs && s'.operators == s.operators
    ensures items != [] ==> "item" in LoopSpec(items, s, key, noInput, fns, outs).value.0.cookiecutter
    decreases |items|
  {
    if items != [] {
      var s1 := s.(cookiecutter := s.cookiecutter["item" := items[0]]);
      var (s2, ret) := ParseBody(s1, key, true, noInput, fns).value;
      LoopCollectsOnePerTarget(items[1..], s2, key, noInput, fns, outs + [ret.value]);
      var outs' := LoopSpec(items, s, key, noInput, fns, outs).value.1;
      assert outs'[..|outs| + 1][..|outs|] == outs'[..|outs|];
    }
  }

  /**
   * The loop over `items` is the loop over its first `k` targets followed by the loop over
   * the rest, started from the state and outputs the first part leaves.
   */
  lemma {:induction false} LoopSplit(items: seq<Doc>, s: WalkState, key: string, noInput: bool, fns: Collaborators, outs: seq<Doc>, k: nat)
    requires key in s.operators
    requires LoopSpec(items, s, key, noInput, fns, outs).Ok? && k <= |items|
    ensures LoopSpec(items[..k], s, key, noInput, fns, outs).Ok?
    ensures var (sk, outsK) := LoopSpec(items[..k], s, key, noInput, fns, outs).value;
      key in sk.operators && LoopSpec(items[k..], sk, key, noInput, fns, outsK) == LoopSpec(items, s, key, noInput, fns, outs)
    decreases k
  {
    if k == 0 {
      assert items[..0] == [] && items[0..] == items;
    } else {
      var s1 := s.(cookiecutter := s.cookiecutter["item" := items[0]]);
      var (s2, ret) := ParseBody(s1, key, true, noInput, fns).value;
      var outs2 := outs + [ret.value];
      assert LoopSpec(items, s, key, noInput, fns, outs) == LoopSpec(items[1..], s2, key, noInput, fns, outs2);
      LoopSplit(items[1..], s2, key, noInput, fns, outs2, k - 1);
      var prefix := items[..k];
      assert prefix[0] == items[0] && prefix[1..] == items[1..][..k - 1];
      assert LoopSpec(prefix, s, key, noInput, fns, outs) == LoopSpec(items[1..][..k - 1], s2, key, noInput, fns, outs2);
      assert items[1..][k - 1..] == items[k..];
    }
  }

  /**
   * Output `k` of the loop is the value `key` takes when the operator is parsed with `item`
   * bound to target `k`, in the state the first `k` targets leave.
   */
  lemma LoopElement(items: seq<Doc>, s: WalkState, key: string, noInput: bool, fns: Collaborators, outs: seq<Doc>, k: nat)
    requires key in s.operators
    requires LoopSpec(items, s, key, noInput, fns, outs).Ok? && k < |items|
    ensures |LoopSpec(items, s, key, noInput, fns, outs).value.1| == |outs| + |items|
    ensures LoopSpec(items[..k], s, key, noInput, fns, outs).Ok?
    ensures var sk := LoopSpec(items[..k], s, key, noInput, fns, outs).value.0;
      var sItem := sk.(cookiecutter := sk.cookiecutter["item" := items[k]]);
      && key in sItem.operators
      && ParseBody(sItem, key, true, noInput, fns).Ok?
      && LoopSpec(items, s, key, noInput, fns, outs).value.1[|outs| + k] == ParseBody(sItem, key, true, noInput, fns).value.0.cookiecutter[key]
  {
    LoopCollectsOnePerTarget(items, s, key, noInput, fns, outs);
    LoopSplit(items, s, key, noInput, fns, outs, k);
    var (sk, outsK) := LoopSpec(items[..k], s, key, noInput, fns, outs).value;
    LoopCollectsOnePerTarget(items[..k], s, key, noInput, fns, outs);
    var sItem := sk.(cookiecutter := sk.cookiecutter["item" := items[k]]);
    var rest := items[k..];
    assert rest[0] == items[k];
    var (s2, ret) := ParseBody(sItem, key, true, noInput, fns).value;
    LoopCollectsOnePerTarget(rest[1..], s2, key, noInput, fns, outsK + [ret.value]);
    var all := LoopSpec(items, s, key, noInput, fns, outs).value.1;
    assert all[..|outsK| + 1] == outsK + [ret.value];
    assert all[|outsK|] == (outsK + [ret.value])[|outsK|];
  }

  /**
   * After a loop over N targets, `cookiecutter_dict[key]` is the list of the loop's N
   * per-item results, `item` is gone (unless `key` is `item` itself), the whole dict is
   * returned, and `when` and `loop` have been popped from the stored operator dict.
   */
  lemma LoopResult(s: WalkState, key: string, appendKey: bool, noInput: bool, fns: Collaborators)
    requires key in s.operators
    requires var od := s.operators[key];
      ("when" !in od || fns.render(od["when"], s.cookiecutter) == Str("True")) && "loop" in od
    requires ParseOperatorSpec(s, key, appendKey, noInput, fns).Ok?
    ensures var od := s.operators[key];
      var items := Iterate(fns.render(od["loop"], s.cookiecutter), fns.keysOf);
      var s2 := s.(operators := s.operators[key := od - {"when", "loop"}]);
      var (s', ret) := ParseOperatorSpec(s, key, appendKey, noInput, fns).value;
      && items.Ok?
      && LoopSpec(items.value, s2, key, noInput, fns, []).Ok?
      && ret == WholeDict
      && key in s'.cookiecutter && s'.cookiecutter[key] == List(LoopSpec(items.value, s2, key, noInput, fns, []).value.1)
      && |s'.cookiecutter[key].items| == |items.value|
      && (key != "item" ==> "item" !in s'.cookiecutter)
      && s'.operators == s.operators[key := od - {"when", "loop"}]
  {
    var od := s.operators[key];
    var s1 := if "when" in od then s.(operators := s.operators[key := od - {"when"}]) else s;
    var od1 := s1.operators[key];
    assert od1 - {"loop"} == od - {"when", "loop"};
    var s2 := s1.(operators := s1.operators[key := od1 - {"loop"}]);
    assert s2 == s.(operators := s.operators[key := od - {"when", "loop"}]);
    var items := Iterate(fns.render(od1["loop"], s1.cookiecutter), fns.keysOf).value;
    LoopCollectsOnePerTarget(items, s2, key, noInput, fns, []);
  }

  /** A `when` that does not render to `'True'` leaves `cookiecutter_dict` as it was and returns it. */
  lemma WhenFalseLeavesDict(s: WalkState, key: string, appendKey: bool, noInput: bool, fns: Collaborators)
    requires key in s.operators && "when" in s.operators[key]
    requires fns.render(s.operators[key]["when"], s.cookiecutter) != Str("True")
    ensures ParseOperatorSpec(s, key, appendKey, noInput, fns) ==
      Ok((WalkState(s.operators[key := s.operators[key] - {"when"}], s.cookiecutter, s.postGen), WholeDict))
  {
  }

  /**
   * Without a loop: with `no_input` the key gets the rendered `default`, or the rendered
   * operator dict when there is none; without `no_input` it gets `run_operator`'s output
   * and a held-back operator joins `post_gen_operator_list`.
   */
  lemma PlainResult(s: WalkState, key: string, appendKey: bool, noInput: bool, fns: Collaborators)
    requires key in s.operators && "when" !in s.operators[key] && "loop" !in s.operators[key]
    requires ParseOperatorSpec(s, key, appendKey, noInput, fns).Ok?
    ensures var rendered := fns.renderDict(s.operators[key], s.cookiecutter);
      var (s', ret) := ParseOperatorSpec(s, key, appendKey, noInput, fns).value;
      && (noInput && "default" in rendered ==> s'.cookiecutter[key] == rendered["default"])
      && (noInput && "default" !in rendered ==> s'.cookiecutter[key] == Map(rendered))
      && (noInput ==> s'.postGen == s.postGen)
      && (!noInput ==> var run := RunOperatorFrom(fns.registry, rendered, fns.execute, Null, None).value;
            s'.cookiecutter[key] == run.0 && s'.postGen == s.postGen + (if run.1.Some? then [run.1.value] else []))
      && ret == if appendKey then KeyValue(s'.cookiecutter[key]) else WholeDict
  {
  }

  /** The mutable state of the walker. */
  class OperatorWalk {
    var operators: map<string, map<string, Doc>>
    var cookiecutter: map<string, Doc>
    var postGenOperators: seq<PendingOperator>

    constructor (operators: map<string, map<string, Doc>>, cookiecutter: map<string, Doc>)
      ensures State() == WalkState(operators, cookiecutter, [])
    {
      this.operators := operators;
      this.cookiecutter := cookiecutter;
      this.postGenOperators := [];
    }

    function State(): WalkState
      reads this
    {
      WalkState(operators, cookiecutter, postGenOperators)
    }

    /** `parse_operator`; the state a raised exception leaves behind is not described. */
    method ParseOperator(key: string, appendKey: bool, noInput: bool, fns: Collaborators) returns (r: Result<Returned>)
      modifies this
      ensures r.Ok? <==> ParseOperatorSpec(old(State()), key, appendKey, noInput, fns).Ok?
      ensures r.Ok? ==> ParseOperatorSpec(old(State()), key, appendKey, noInput, fns).value == (State(), r.value)
      ensures r.Err? ==> r.error == ParseOperatorSpec(old(State()), key, appendKey, noInput, fns).error
      decreases if key in operators && "loop" in operators[key] then 1 else 0, 1
    {
      ghost var s0 := State();
      if key !in operators {
        return Err(KeyError);
      }
      var whenCondition := true;
      if "when" in operators[key] {
        whenCondition := fns.render(operators[key]["when"], cookiecutter) == Str("True");
        operators := operators[key := operators[key] - {"when"}];
      }
      if !whenCondition {
        return Ok(WholeDict);
      }
      if "loop" in operators[key] {
        var loopTargets := fns.render(operators[key]["loop"], cookiecutter);
        operators := operators[key := operators[key] - {"loop"}];
        var targets := Iterate(loopTargets, fns.keysOf);
        if targets.Err? {
          return Err(targets.error);
        }
        var loopOutput := ExpandLoop(key, targets.value, noInput, fns);
        if loopOutput.Err? {
          return Err(loopOutput.error);
        }
        if "item" !in cookiecutter {
          return Err(KeyError);
        }
        cookiecutter := (cookiecutter - {"item"})[key := List(loopOutput.value)];
        return Ok(WholeDict);
      }
      assert ParseOperatorSpec(s0, key, appendKey, noInput, fns) == ParseBody(State(), key, appendKey, noInput, fns);
      r := RenderAndRun(key, appendKey, noInput, fns);
    }

    /** Lines 67-79 of `parse_operator`: bind `item` to each target and parse the operator again. */
    method ExpandLoop(key: string, items: seq<Doc>, noInput: bool, fns: Collaborators) returns (r: Result<seq<Doc>>)
      requires key in operators && "when" !in operators[key] && "loop" !in operators[key]
      modifies this
      ensures r.Ok? <==> LoopSpec(items, old(State()), key, noInput, fns, []).Ok?
      ensures r.Ok? ==> LoopSpec(items, old(State()), key, noInput, fns, []).value == (State(), r.value)
      ensures r.Err? ==> r.error == LoopSpec(items, old(State()), key, noInput, fns, []).error
      decreases 1, 0
    {
      ghost var s2 := State();
      var loopOutput: seq<Doc> := [];
      assert items[0..] == items;
      var i := 0;
      while i < |items|
        invariant 0 <= i <= |items|
        invariant key in operators && "when" !in operators[key] && "loop" !in operators[key]
        invariant LoopSpec(items[i..], State(), key, noInput, fns, loopOutput) == LoopSpec(items, s2, key, noInput, fns, [])
      {
        assert items[i..][1..] == items[i + 1..];
        cookiecutter := cookiecutter["item" := items[i]];
        ParseOperatorPlain(State(), key, true, noInput, fns);
        var out := ParseOperator(key, true, noInput, fns);
        if out.Err? {
          return Err(out.error);
        }
        loopOutput := loopOutput + [out.value.value];
        i := i + 1;
      }
      assert items[i..] == [];
      return Ok(loopOutput);
    }

    /** Lines 85-101 of `parse_operator`: render the operator dict, then run it or take its default. */
    method RenderAndRun(key: string, appendKey: bool, noInput: bool, fns: Collaborators) returns (r: Result<Returned>)
      requires key in operators
      modifies this
      ensures r.Ok? <==> ParseBody(old(State()), key, appendKey, noInput, fns).Ok?
      ensures r.Ok? ==> ParseBody(old(State()), key, appendKey, noInput, fns).value == (State(), r.value)
      ensures r.Err? ==> r.error == ParseBody(old(State()), key, appendKey, noInput, fns).error
    {
      assert postGenOperators + [] == postGenOperators;
      var operatorDict := fns.renderDict(operators[key], cookiecutter);
      if !noInput {
        var run := RunOperator(fns.registry, operatorDict, fns.execute);
        if run.Err? {
          return Err(run.error);
        }
        cookiecutter := cookiecutter[key := run.value.0];
        if run.value.1.Some? {
          postGenOperators := postGenOperators + [run.value.1.value];
        }
      } else if "default" in operatorDict {
        cookiecutter := cookiecutter[key := operatorDict["default"]];
      } else {
        cookiecutter := cookiecutter[key := Map(operatorDict)];
      }
      if appendKey {
        r := Ok(KeyValue(cookiecutter[key]));
      } else {
        r := Ok(WholeDict);
      }
    }
  }
}
