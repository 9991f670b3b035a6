/**
 * The declarative tables of tackle/models.py: field names with their aliases and
 * defaults, how input keys populate fields, the extra-field policies, `args_str_to_list`,
 * `DCL_HOOK_FIELDS`, the field-validator defaults, and the mapping of positional
 * arguments to the field names listed in a hook's `args`.
 *
 * Field values are documents; pydantic's type validation and coercion are not modelled.
 */
module HookModels {
  import opened Wrappers
  import opened Document

  /**
   * A model's field table: each field's attribute name with its default, the alias of the
   * fields that have one, what happens to input keys that name no field (`extra`), and
   * whether a field with an alias is also accepted under its name (`populate_by_name`).
   */
  datatype ModelSpec = ModelSpec(defaults: map<string, Doc>, aliasOf: map<string, string>, extra: ExtraPolicy, populateByName: bool)

  /** What a model does with input keys that name no field (`extra='allow'` or `extra='forbid'`). */
  datatype ExtraPolicy = Allow | Forbid

  /** `HookCallInput`: the hook-call modifiers, with extra keys allowed and either spelling accepted. */
  const HookCallInput: ModelSpec := ModelSpec(
    map["if_" := Null, "else_" := Null, "when" := Null, "for_" := Null, "reverse" := Null,
        "try_" := Null, "except_" := Null, "chdir" := Null, "merge" := Null, "confirm" := Null,
        "kwargs" := Null, "skip_output" := Bool(false), "return_" := Bool(false), "no_input" := Bool(false)],
    map["if_" := "if", "else_" := "else", "for_" := "for", "try_" := "try", "except_" := "except",
        "chdir" := "cd", "return_" := "return"],
    Allow, true)

  /** `DclHookInput`: the input of a declarative hook, with extra keys allowed. */
  const DclHookInput: ModelSpec := ModelSpec(
    map["help" := Null, "extends" := Null, "args" := List([]), "exec_" := Null, "return_" := Null,
        "type_" := Null, "validators" := Map(map[]), "include" := Null, "exclude" := Null,
        "hook_model_config_" := Null],
    map["exec_" := "exec", "return_" := "return", "type_" := "type", "hook_model_config_" := "model_config"],
    Allow, false)

  /** `BaseHook`'s policy: extra keys are refused. */
  const BaseHookExtra: ExtraPolicy := Forbid

  /** Whether the input key `given` populates the field `name` of `m`. */
  predicate Populates(m: ModelSpec, name: string, given: string)
  {
    (name in m.aliasOf && m.aliasOf[name] == given) || ((name !in m.aliasOf || m.populateByName) && name == given)
  }

  /** An input key that populates no field of `m`. */
  predicate IsExtra(m: ModelSpec, given: string)
  {
    forall name :: name in m.defaults ==> !Populates(m, name, given)
  }

  /** The value a field takes from `input`: under its alias first, then its name, else its default. */
  function FieldValue(m: ModelSpec, name: string, input: map<string, Doc>): Doc
    requires name in m.defaults
  {
    if name in m.aliasOf && m.aliasOf[name] in input then input[m.aliasOf[name]]
    else if (name !in m.aliasOf || m.populateByName) && name in input then input[name]
    else m.defaults[name]
  }

  /**
   * Validating `input` against `m`: every field gets its value, and the input keys that
   * populate no field are the extras, kept under `Allow` and refused under `Forbid`.
   */
  function Populate(m: ModelSpec, input: map<string, Doc>): (r: Result<(map<string, Doc>, map<string, Doc>)>)
    ensures r.Ok? ==> r.value.0.Keys == m.defaults.Keys
    ensures r.Ok? ==> forall given :: given in r.value.1 <==> given in input && IsExtra(m, given)
    ensures r.Err? <==> m.extra == Forbid && exists given :: given in input && IsExtra(m, given)
  {
    var values := map name | name in m.defaults :: FieldValue(m, name, input);
    var extras := map given | given in input && IsExtra(m, given) :: input[given];
    if m.extra == Forbid && |extras| > 0 then
      assert exists given :: given in extras;
      Err(ValueError)
    else
      Ok((values, extras))
  }

  /** With no input, `skip_output`, `return_` and `no_input` are false and every other modifier is None. */
  lemma HookCallInputDefaults()
    ensures Populate(HookCallInput, map[]).Ok?
    ensures forall name :: name in Populate(HookCallInput, map[]).value.0 ==>
      Populate(HookCallInput, map[]).value.0[name] == (if name in {"skip_output", "return_", "no_input"} then Bool(false) else Null)
  {
    var values := Populate(HookCallInput, map[]).value.0;
    forall name | name in values
      ensures values[name] == HookCallInput.defaults[name]
    {
      assert FieldValue(HookCallInput, name, map[]) == HookCallInput.defaults[name];
    }
  }

  /** A modifier given under its alias, or under its attribute name, lands in its field and is no extra. */
  lemma HookCallInputAlias(name: string, v: Doc)
    requires name in HookCallInput.aliasOf
    ensures var byAlias := Populate(HookCallInput, map[HookCallInput.aliasOf[name] := v]);
      byAlias.Ok? && byAlias.value.0[name] == v && byAlias.value.1 == map[]
    ensures var byName := Populate(HookCallInput, map[name := v]);
      byName.Ok? && byName.value.0[name] == v && byName.value.1 == map[]
  {
    var alias := HookCallInput.aliasOf[name];
    assert Populates(HookCallInput, name, alias) && Populates(HookCallInput, name, name);
    var byAlias := Populate(HookCallInput, map[alias := v]);
    assert byAlias.value.1 == map[];
    var byName := Populate(HookCallInput, map[name := v]);
    assert byName.value.1 == map[];
  }

  /** A model that forbids extras refuses any key that populates no field; one that allows them keeps it. */
  lemma ExtraKeyPolicy(m: ModelSpec, input: map<string, Doc>, given: string)
    requires given in input && IsExtra(m, given)
    ensures Populate(m.(extra := Forbid), input) == Err(ValueError)
    ensures Populate(m.(extra := Allow), input).Ok?
    ensures Populate(m.(extra := Allow), input).value.1[given] == input[given]
  {
    var extras := map g | g in input && IsExtra(m.(extra := Forbid), g) :: input[g];
    assert given in extras;
  }

  /** `DclHookInput.args_str_to_list`: a single argument name becomes a one-element list. */
  function ArgsStrToList(v: Doc): (r: Doc)
    ensures v.Str? ==> r == List([v])
    ensures !v.Str? ==> r == v
  {
    if v.Str? then List([v]) else v
  }

  /** The name a field is written under in hook input: its alias when it has one. */
  function ExternalName(m: ModelSpec, name: string): string
  {
    if name in m.aliasOf then m.aliasOf[name] else name
  }

  /** `DCL_HOOK_FIELDS`: the external name of every field of a model. */
  function ExternalNames(m: ModelSpec): (r: set<string>)
    ensures forall name :: name in m.defaults ==> ExternalName(m, name) in r
    ensures forall n :: n in r ==> exists name :: name in m.defaults && ExternalName(m, name) == n
  {
    set name | name in m.defaults :: ExternalName(m, name)
  }

  /** The names `DCL_HOOK_FIELDS` is expected to hold. */
  const DclHookFieldNames: set<string> :=
    {"help", "extends", "args", "exec", "return", "type", "validators", "include", "exclude", "model_config"}

  /** Each declarative-hook field's external name is one of the expected names. */
  lemma DclExternalNameExpected(name: string)
    requires name in DclHookInput.defaults
    ensures ExternalName(DclHookInput, name) in DclHookFieldNames
  {
    var m := DclHookInput;
    if name in m.aliasOf {
      assert name == "exec_" || name == "return_" || name == "type_" || name == "hook_model_config_";
    } else {
      assert name in {"help", "extends", "args", "validators", "include", "exclude"};
    }
  }

  /** Each expected name is the external name of some declarative-hook field. */
  lemma DclExpectedNameDeclared(n: string)
    requires n in DclHookFieldNames
    ensures exists name :: name in DclHookInput.defaults && ExternalName(DclHookInput, name) == n
  {
    var m := DclHookInput;
    var name :=
      if n == "exec" then "exec_" else if n == "return" then "return_" else if n == "type" then "type_"
      else if n == "model_config" then "hook_model_config_" else n;
    assert name in m.defaults && ExternalName(m, name) == n;
  }

  /** The declarative-hook field set holds the aliases, not the underscored attribute names. */
  lemma DclHookFields()
    ensures ExternalNames(DclHookInput) == DclHookFieldNames
  {
    var m := DclHookInput;
    var r := ExternalNames(m);
    forall n | n in r
      ensures n in DclHookFieldNames
    {
      var name :| name in m.defaults && ExternalName(m, name) == n;
      DclExternalNameExpected(name);
    }
    forall n | n in DclHookFieldNames
      ensures n in r
    {
      DclExpectedNameDeclared(n);
    }
  }

  // ---------------------------------------------------------------------------------
  // HookFieldValidator

  /** `HookValidatorModes` */
  datatype ValidatorMode = Before | After | Wrap

  /** The enum's values: a mode is accepted exactly when it is one of them. */
  function ParseMode(s: string): (r: Result<ValidatorMode>)
    ensures r.Ok? <==> s in {"before", "after", "wrap"}
    ensures r.Err? ==> r.error == ValueError
  {
    if s == "before" then Ok(Before)
    else if s == "after" then Ok(After)
    else if s == "wrap" then Ok(Wrap)
    else Err(ValueError)
  }

  /** `HookFieldValidatorFieldNames`: the variable names a validator body sees. */
  datatype ValidatorFieldNames = ValidatorFieldNames(value: string, info: string)

  /** `HookFieldValidator` */
  datatype FieldValidator = FieldValidator(fieldNames: ValidatorFieldNames, mode: ValidatorMode, body: Doc)

  function StrOr(input: map<string, Doc>, key: string, default: string): Result<string>
  {
    if key !in input then Ok(default)
    else if input[key].Str? then Ok(input[key].s)
    else Err(ValueError)
  }

  /** Validating a `HookFieldValidator` from its input keys. */
  function ValidatorFrom(input: map<string, Doc>): (r: Result<FieldValidator>)
    ensures "mode" !in input && "field_names" !in input ==>
      r.Ok? && r.value.mode == Before && r.value.fieldNames == ValidatorFieldNames("v", "info")
    ensures "mode" in input && !(input["mode"].Str? && input["mode"].s in {"before", "after", "wrap"}) ==> r.Err?
  {
    var names :=
      if "field_names" !in input then Ok(ValidatorFieldNames("v", "info"))
      else if !input["field_names"].Map? then Err(ValueError)
      else
        var fn := input["field_names"].fields;
        match (StrOr(fn, "value", "v"), StrOr(fn, "info", "info"))
        case (Ok(v), Ok(i)) => Ok(ValidatorFieldNames(v, i))
        case _ => Err(ValueError);
    var mode :=
      if "mode" !in input then Ok(Before)
      else if input["mode"].Str? then ParseMode(input["mode"].s)
      else Err(ValueError);
    match (names, mode)
    case (Ok(n), Ok(m)) => Ok(FieldValidator(n, m, if "body" in input then input["body"] else Null))
    case _ => Err(ValueError)
  }

  // ---------------------------------------------------------------------------------
  // Positional arguments

  /**
   * Binding positional arguments to the field names a hook lists in `args`, in order;
   * more arguments than names is an error.
   */
  function BindPositional(args: seq<string>, positional: seq<Doc>): (r: Result<map<string, Doc>>)
    ensures r.Err? <==> |positional| > |args|
    ensures r.Ok? ==> r.value.Keys == set k | 0 <= k < |positional| :: args[k]
    decreases |positional|
  {
    if |positional| > |args| then Err(TooManyArguments)
    else if positional == [] then Ok(map[])
    else
      var rest := BindPositional(args[1..], positional[1..]);
      assert forall k :: 1 <= k < |positional| ==> args[k] == args[1..][k - 1];
      Ok(rest.value[args[0] := positional[0]])
  }

  /** With distinct names, the k-th positional argument is bound to the k-th name. */
  lemma {:induction false} BindPositionalInOrder(args: seq<string>, positional: seq<Doc>, k: nat)
    requires |positional| <= |args| && k < |positional|
    requires forall i, j :: 0 <= i < j < |args| ==> args[i] != args[j]
    ensures BindPositional(args, positional).value[args[k]] == positional[k]
    decreases |positional|
  {
    if k > 0 {
      BindPositionalInOrder(args[1..], positional[1..], k - 1);
      assert args[1..][k - 1] == args[k] != args[0];
    }
  }
}
