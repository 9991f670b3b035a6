/**
 * Declarative-hook macros (tackle/macros/hook_macros.py): the rewrites that turn the
 * fields of a user's hook definition into field descriptors.
 *
 * A field definition (`value: dict`) is rewritten in place, so it is the `FieldDict`
 * class below; key order inside a field does not matter to any of these rewrites, so its
 * entries are a `map`. The raw hook definition that `hook_dict_macro` walks is an ordered
 * dictionary (`HookInputDict`), because its iteration order decides which entry wins when
 * two keys are rewritten to the same name.
 *
 * Compiling a default-factory executor (`create_dict_default_factory_executor`) is
 * `Factory(source)`; the names `LITERAL_TYPES` and the YAML scalar types that the file
 * does not define are a parameter set and `RuntimeTypeName`.
 */
module HookMacros {
  import opened Wrappers
  import opened Document

  /** A hook field definition that the field macros rewrite in place. */
  class FieldDict {
    var entries: map<string, Doc>

    constructor (entries: map<string, Doc>)
      ensures this.entries == entries
    {
      this.entries := entries;
    }
  }

  /** A raw hook definition: a dictionary whose keys are distinct and ordered. */
  class HookInputDict {
    var entries: seq<(string, Doc)>

    predicate Valid()
      reads this
    {
      DistinctKeys(entries)
    }

    constructor (entries: seq<(string, Doc)>)
      requires DistinctKeys(entries)
      ensures this.entries == entries && Valid()
    {
      this.entries := entries;
    }
  }

  predicate DistinctKeys(entries: seq<(string, Doc)>)
  {
    forall i, j :: 0 <= i < j < |entries| ==> entries[i].0 != entries[j].0
  }

  // ---------------------------------------------------------------------------------
  // update_default_factory_hook_fields

  /** `DEFAULT_FACTORY_KEYS`, in the order they are tried. */
  const DefaultFactoryKeys: seq<string> :=
    ["default->", "default_>", "default_factory->", "default_factory_>", "->", "_>"]

  /** The position of the first of `keys` that is a key of `m`, or `|keys|` when none is. */
  function FirstPresent(keys: seq<string>, m: map<string, Doc>): (r: nat)
    ensures r <= |keys|
    ensures r < |keys| ==> keys[r] in m
    ensures forall j :: 0 <= j < r ==> keys[j] !in m
  {
    if keys == [] then 0
    else if keys[0] in m then 0
    else 1 + FirstPresent(keys[1..], m)
  }

  /** Any position with the two properties of `FirstPresent` is `FirstPresent`. */
  lemma {:induction false} FirstPresentUnique(keys: seq<string>, m: map<string, Doc>, i: nat)
    requires i <= |keys|
    requires i < |keys| ==> keys[i] in m
    requires forall j :: 0 <= j < i ==> keys[j] !in m
    ensures FirstPresent(keys, m) == i
  {
    if keys != [] && i > 0 {
      FirstPresentUnique(keys[1..], m, i - 1);
    }
  }

  /** The arrow key `update_default_factory_hook_fields` acts on, if any. */
  predicate HasFactoryArrow(m: map<string, Doc>)
  {
    FirstPresent(DefaultFactoryKeys, m) < |DefaultFactoryKeys|
  }

  function FactoryArrow(m: map<string, Doc>): (k: string)
    requires HasFactoryArrow(m)
    ensures k in m
  {
    DefaultFactoryKeys[FirstPresent(DefaultFactoryKeys, m)]
  }

  /** Every arrow key ends in `->` or `_>` and is neither `default_factory` nor `exclude`. */
  lemma FactoryArrowShape(m: map<string, Doc>)
    requires HasFactoryArrow(m)
    ensures var k := FactoryArrow(m);
      k != "default_factory" && k != "exclude" && (LastTwo(k) == "->" || LastTwo(k) == "_>")
  {
    var i := FirstPresent(DefaultFactoryKeys, m);
    assert i == 0 || i == 1 || i == 2 || i == 3 || i == 4 || i == 5;
  }

  /** The field has both an arrow default key and `default_factory`. */
  predicate DefaultFactoryConflict(m: map<string, Doc>)
  {
    HasFactoryArrow(m) && "default_factory" in m
  }

  /**
   * The field after `update_default_factory_hook_fields`, including when it raises: the
   * arrow key has already been popped by then.
   */
  function DefaultFactoryUpdated(m: map<string, Doc>): (r: map<string, Doc>)
    ensures !HasFactoryArrow(m) ==> r == m
  {
    if !HasFactoryArrow(m) then m
    else
      var k := FactoryArrow(m);
      var popped := m - {k};
      if "default_factory" in popped then popped
      else
        var moved := popped["default_factory" := m[k]];
        if LastTwo(k) == "_>" then moved["exclude" := Bool(true)] else moved
  }

  /**
   * With no `default_factory` yet, the first arrow key is moved to `default_factory`,
   * `exclude` becomes true exactly when that key ends in `_>`, and every other key is kept.
   */
  lemma DefaultFactoryUpdatedMoves(m: map<string, Doc>)
    requires HasFactoryArrow(m) && "default_factory" !in m
    ensures var r := DefaultFactoryUpdated(m);
      && FactoryArrow(m) !in r
      && "default_factory" in r && r["default_factory"] == m[FactoryArrow(m)]
      && (LastTwo(FactoryArrow(m)) == "_>" ==> "exclude" in r && r["exclude"] == Bool(true))
      && (LastTwo(FactoryArrow(m)) != "_>" ==> ("exclude" in r <==> "exclude" in m) && ("exclude" in m ==> r["exclude"] == m["exclude"]))
      && r.Keys == m.Keys - {FactoryArrow(m)} + {"default_factory"} + (if LastTwo(FactoryArrow(m)) == "_>" then {"exclude"} else {})
      && forall k :: k in m && k != FactoryArrow(m) && k != "exclude" ==> r[k] == m[k]
  {
    FactoryArrowShape(m);
    var k := FactoryArrow(m);
    var popped := m - {k};
    var moved := popped["default_factory" := m[k]];
    assert DefaultFactoryUpdated(m) == if LastTwo(k) == "_>" then moved["exclude" := Bool(true)] else moved;
  }

  /** With `default_factory` already present, the arrow key is popped and nothing else changes. */
  lemma DefaultFactoryUpdatedConflict(m: map<string, Doc>)
    requires DefaultFactoryConflict(m)
    ensures DefaultFactoryUpdated(m) == m - {FactoryArrow(m)}
    ensures "default_factory" in DefaultFactoryUpdated(m)
  {
    FactoryArrowShape(m);
  }

  /** Only the first arrow key in `DEFAULT_FACTORY_KEYS` order moves; the others stay. */
  lemma OnlyFirstArrowMoves(m: map<string, Doc>, j: nat)
    requires HasFactoryArrow(m) && j < |DefaultFactoryKeys|
    requires DefaultFactoryKeys[j] in m && DefaultFactoryKeys[j] != FactoryArrow(m)
    ensures FirstPresent(DefaultFactoryKeys, m) < j
    ensures DefaultFactoryKeys[j] in DefaultFactoryUpdated(m)
    ensures DefaultFactoryUpdated(m)[DefaultFactoryKeys[j]] == m[DefaultFactoryKeys[j]]
  {
    if "default_factory" in m {
      DefaultFactoryUpdatedConflict(m);
    } else {
      DefaultFactoryUpdatedMoves(m);
    }
  }

  /** `update_default_factory_hook_fields` */
  method UpdateDefaultFactoryHookFields(value: FieldDict) returns (r: Result<()>)
    modifies value
    ensures value.entries == DefaultFactoryUpdated(old(value.entries))
    ensures r == if DefaultFactoryConflict(old(value.entries)) then Err(MalformedHookField) else Ok(())
  {
    var keys := DefaultFactoryKeys;
    var i := 0;
    while i < |keys|
      invariant 0 <= i <= |keys|
      invariant value.entries == old(value.entries)
      invariant forall j :: 0 <= j < i ==> keys[j] !in value.entries
    {
      var k := keys[i];
      if k in value.entries {
        FirstPresentUnique(keys, value.entries, i);
        var rawField := value.entries[k];
        value.entries := value.entries - {k};
        if "default_factory" in value.entries {
          return Err(MalformedHookField);
        }
        value.entries := value.entries["default_factory" := rawField];
        if LastTwo(k) == "_>" {
          value.entries := value.entries["exclude" := Bool(true)];
        }
        return Ok(());
      }
      i := i + 1;
    }
    FirstPresentUnique(keys, value.entries, i);
    return Ok(());
  }

  // ---------------------------------------------------------------------------------
  // expand_default_factory

  /**
   * `'->' in d or '_>' in d` for a factory that is not a string: key membership for a
   * mapping, element membership for a list, and `TypeError` for a scalar.
   */
  function HasWholeArrow(d: Doc): (r: Result<bool>)
    requires !d.Str?
    ensures r.Err? <==> !(d.List? || d.Map?)
  {
    match d
    case Map(fields) => Ok("->" in fields || "_>" in fields)
    case List(items) => Ok(Str("->") in items || Str("_>") in items)
    case _ => Err(TypeError)
  }

  /** The `return->` entry that hands back what was computed under `key`. */
  function ReturnOf(key: string): Doc
  {
    Str("{{" + key + "}}")
  }

  /**
   * The field after `expand_default_factory(value, key)`: a string factory becomes a
   * mapping computing `key` and returning it; a mapping or list holding a bare arrow is
   * nested under `key`; anything else is left alone, except that a factory that supports
   * no `in` test raises `TypeError`.
   */
  function Expanded(m: map<string, Doc>, key: string): (r: Result<map<string, Doc>>)
    ensures "default_factory" !in m ==> r == Ok(m)
    ensures r.Ok? ==> r.value.Keys == m.Keys
    ensures r.Ok? ==> forall k :: k in m && k != "default_factory" ==> r.value[k] == m[k]
    ensures "default_factory" in m && m["default_factory"].Str? ==>
      r.Ok? && r.value["default_factory"] == Map(map[key + "->" := m["default_factory"]]["return->" := ReturnOf(key)])
    ensures r.Err? <==> "default_factory" in m && !(m["default_factory"].Str? || m["default_factory"].List? || m["default_factory"].Map?)
  {
    if "default_factory" !in m then Ok(m)
    else
      var f := m["default_factory"];
      if f.Str? then
        Ok(m["default_factory" := Map(map[key + "->" := f]["return->" := ReturnOf(key)])])
      else
        match HasWholeArrow(f)
        case Err(e) => Err(e)
        case Ok(arrow) =>
          if arrow then Ok(m["default_factory" := Map(map[key := f]["return->" := ReturnOf(key)])])
          else Ok(m)
  }

  /** A factory that already holds a bare arrow is kept whole, nested under `key`. */
  lemma ExpandedNestsArrowFactory(m: map<string, Doc>, key: string)
    requires "default_factory" in m && m["default_factory"].Map?
    requires "->" in m["default_factory"].fields || "_>" in m["default_factory"].fields
    requires key != "return->"
    ensures Expanded(m, key).Ok?
    ensures var f := Expanded(m, key).value["default_factory"];
      f.Map? && f.fields.Keys == {key, "return->"} && f.fields[key] == m["default_factory"]
  {
  }

  /** `expand_default_factory` */
  method ExpandDefaultFactory(value: FieldDict, key: string) returns (r: Result<()>)
    modifies value
    ensures r.Ok? <==> Expanded(old(value.entries), key).Ok?
    ensures r.Ok? ==> value.entries == Expanded(old(value.entries), key).value
    ensures r.Err? ==> r.error == Expanded(old(value.entries), key).error && value.entries == old(value.entries)
  {
    if "default_factory" !in value.entries {
      return Ok(());
    }
    var f := value.entries["default_factory"];
    if f.Str? {
      value.entries := value.entries["default_factory" := Map(map[key + "->" := f]["return->" := ReturnOf(key)])];
      return Ok(());
    }
    var arrow := HasWholeArrow(f);
    if arrow.Err? {
      return Err(arrow.error);
    }
    if arrow.value {
      value.entries := value.entries["default_factory" := Map(map[key := f]["return->" := ReturnOf(key)])];
    }
    return Ok(());
  }

  // ---------------------------------------------------------------------------------
  // infer_type_from_default

  /** The type name recorded for a default: the YAML containers map to Python's names. */
  function InferredTypeName(d: Doc): (name: string)
    ensures d.Float? ==> name == "float"
    ensures d.List? ==> name == "list"
    ensures d.Map? ==> name == "dict"
    ensures !(d.Float? || d.List? || d.Map?) ==> name == RuntimeTypeName(d)
  {
    match d
    case Float(_) => "float"
    case List(_) => "list"
    case Map(_) => "dict"
    case _ => RuntimeTypeName(d)
  }

  /** The field after `infer_type_from_default`. */
  function TypeInferred(m: map<string, Doc>): (r: map<string, Doc>)
    ensures "type" in m ==> r == m
    ensures r.Keys == if "default" in m || "default_factory" in m then m.Keys + {"type"} else m.Keys
    ensures forall k :: k in m && k != "type" ==> r[k] == m[k]
    ensures "type" !in m && "default" in m ==> r["type"] == Str(InferredTypeName(m["default"]))
    ensures "type" !in m && "default" !in m && "default_factory" in m ==> r["type"] == Str("Any")
  {
    if "default" in m && "type" !in m then m["type" := Str(InferredTypeName(m["default"]))]
    else if "default_factory" in m && "type" !in m then m["type" := Str("Any")]
    else m
  }

  /**
   * `infer_type_from_default` as written: `ScalarFloat`, `CommentedSeq` and `CommentedMap`
   * are not imported into the module, so the first `isinstance` test raises `NameError`.
   */
  function TypeInferredAsWritten(m: map<string, Doc>): Result<map<string, Doc>>
  {
    if "default" in m && "type" !in m then Err(NameError) else Ok(TypeInferred(m))
  }

  /**
   * As written, every field with a `default` and no `type` raises; with the YAML reader's
   * types imported, the field is typed by its default (`{default: 1}` becomes an `int`).
   */
  lemma TypeInferredAsWrittenRaises(m: map<string, Doc>)
    requires "default" in m && "type" !in m
    ensures TypeInferredAsWritten(m) == Err(NameError)
    ensures TypeInferred(m)["type"] == Str(InferredTypeName(m["default"]))
    ensures TypeInferred(map["default" := Int(1)]) == map["default" := Int(1), "type" := Str("int")]
  {
  }

  /** `infer_type_from_default`; its return value is never used and is not modelled. */
  method InferTypeFromDefault(value: FieldDict)
    modifies value
    ensures value.entries == TypeInferred(old(value.entries))
  {
    if "default" in value.entries && "type" !in value.entries {
      value.entries := value.entries["type" := Str(InferredTypeName(value.entries["default"]))];
    } else if "default_factory" in value.entries && "type" !in value.entries {
      value.entries := value.entries["type" := Str("Any")];
    }
  }

  // ---------------------------------------------------------------------------------
  // is_field

  /** `MINIMAL_FIELD_KEYS` */
  const MinimalFieldKeys: seq<string> := ["type", "default", "default_factory", "enum"]

  /** Some key of `keys` is a key of `m`. */
  function AnyKeyIn(keys: seq<string>, m: map<string, Doc>): (r: bool)
    ensures r <==> exists j :: 0 <= j < |keys| && keys[j] in m
  {
    if keys == [] then false
    else if keys[0] in m then true
    else
      var rest := AnyKeyIn(keys[1..], m);
      assert forall j :: 1 <= j < |keys| ==> keys[j] == keys[1..][j - 1];
      rest
  }

  /** `is_field(value)` */
  function IsField(m: map<string, Doc>): (r: bool)
    ensures r <==> "type" in m || "default" in m || "default_factory" in m || "enum" in m
  {
    var r := AnyKeyIn(MinimalFieldKeys, m);
    assert MinimalFieldKeys[0] == "type" && MinimalFieldKeys[1] == "default";
    assert MinimalFieldKeys[2] == "default_factory" && MinimalFieldKeys[3] == "enum";
    r
  }

  // ---------------------------------------------------------------------------------
  // create_default_factory

  /**
   * The field after `create_default_factory(value, value_is_factory)`: the factory source
   * (the whole field, or its popped `default_factory`) must be a mapping or a list.
   */
  function DefaultFactoryCreated(m: map<string, Doc>, valueIsFactory: bool): (r: (map<string, Doc>, Result<()>))
    ensures r.1.Ok? ==> "default_factory" in r.0 && r.0["default_factory"].Factory?
    ensures r.1.Ok? ==> r.0.Keys == m.Keys + {"default_factory"}
    ensures !valueIsFactory && "default_factory" !in m ==> r == (m, Err(KeyError))
    ensures valueIsFactory ==> r == (m["default_factory" := Factory(Map(m))], Ok(()))
    ensures !valueIsFactory && "default_factory" in m && !(m["default_factory"].Map? || m["default_factory"].List?) ==>
      r == (m - {"default_factory"}, Err(MalformedHookField))
  {
    if valueIsFactory then (m["default_factory" := Factory(Map(m))], Ok(()))
    else if "default_factory" !in m then (m, Err(KeyError))
    else
      var source := m["default_factory"];
      var popped := m - {"default_factory"};
      if source.Map? || source.List? then (popped["default_factory" := Factory(source)], Ok(()))
      else (popped, Err(MalformedHookField))
  }

  /** `create_default_factory`; the executor keeps a copy of the field, not an alias of it. */
  method CreateDefaultFactory(value: FieldDict, valueIsFactory: bool) returns (r: Result<()>)
    modifies value
    ensures (value.entries, r) == DefaultFactoryCreated(old(value.entries), valueIsFactory)
  {
    var source: Doc;
    if valueIsFactory {
      source := Map(value.entries);
    } else {
      if "default_factory" !in value.entries {
        return Err(KeyError);
      }
      source := value.entries["default_factory"];
      value.entries := value.entries - {"default_factory"};
    }
    if !(source.Map? || source.List?) {
      return Err(MalformedHookField);
    }
    value.entries := value.entries["default_factory" := Factory(source)];
    return Ok(());
  }

  // ---------------------------------------------------------------------------------
  // dict_field_hook_macro / str_field_hook_macro

  /** The field once the arrow keys are resolved, the factory expanded and the type inferred. */
  function Prepared(m: map<string, Doc>, key: string): Result<map<string, Doc>>
  {
    if DefaultFactoryConflict(m) then Err(MalformedHookField)
    else
      match Expanded(DefaultFactoryUpdated(m), key)
      case Err(e) => Err(e)
      case Ok(x) => Ok(TypeInferred(x))
  }

  /** A prepared value that is not a field becomes the source of its own default factory. */
  function Finished(t: map<string, Doc>): map<string, Doc>
  {
    if IsField(t) then t
    else DefaultFactoryCreated(t, true).0["type" := Str("Any")]
  }

  /**
   * `dict_field_hook_macro` AS WRITTEN: the rewritten dict is returned only when it was
   * not already a field; a field falls off the end of the function and yields `None`.
   */
  function DictFieldMacroAsWritten(m: map<string, Doc>, key: string): Result<Option<map<string, Doc>>>
  {
    match Prepared(m, key)
    case Err(e) => Err(e)
    case Ok(t) => if IsField(t) then Ok(None) else Ok(Some(Finished(t)))
  }

  /** `dict_field_hook_macro`, returning the rewritten field in both cases. */
  function DictFieldMacro(m: map<string, Doc>, key: string): (r: Result<map<string, Doc>>)
    ensures r.Err? <==> DefaultFactoryConflict(m) || Expanded(DefaultFactoryUpdated(m), key).Err?
  {
    match Prepared(m, key)
    case Err(e) => Err(e)
    case Ok(t) => Ok(Finished(t))
  }

  /** Finishing a value whose default or factory is typed yields a typed field; a typed value is kept. */
  lemma FinishedIsTypedField(t: map<string, Doc>)
    requires "default" in t || "default_factory" in t ==> "type" in t
    ensures IsField(Finished(t))
    ensures "default" in Finished(t) || "default_factory" in Finished(t) ==> "type" in Finished(t)
    ensures "type" in t ==> Finished(t) == t
  {
    if !IsField(t) {
      assert "type" in DefaultFactoryCreated(t, true).0["type" := Str("Any")];
    }
  }

  /**
   * The rewritten value is always a field; it has a type whenever it has a default or a
   * default factory, and a type the user gave is kept.
   */
  lemma DictFieldMacroYieldsTypedField(m: map<string, Doc>, key: string)
    requires DictFieldMacro(m, key).Ok?
    ensures IsField(DictFieldMacro(m, key).value)
    ensures var r := DictFieldMacro(m, key).value; "default" in r || "default_factory" in r ==> "type" in r
    ensures "type" in m ==> "type" in DictFieldMacro(m, key).value && DictFieldMacro(m, key).value["type"] == m["type"]
  {
    var x := Expanded(DefaultFactoryUpdated(m), key).value;
    var t := TypeInferred(x);
    assert Prepared(m, key) == Ok(t);
    assert DictFieldMacro(m, key).value == Finished(t);
    FinishedIsTypedField(t);
    if "type" in m {
      PreparedKeepsType(m, key);
    }
  }

  /** A type the user gave survives the arrow update, the factory expansion and the type inference. */
  lemma PreparedKeepsType(m: map<string, Doc>, key: string)
    requires Prepared(m, key).Ok? && "type" in m
    ensures "type" in Prepared(m, key).value && Prepared(m, key).value["type"] == m["type"]
  {
    var u := DefaultFactoryUpdated(m);
    assert "type" in u && u["type"] == m["type"];
  }

  /** The as-written function loses exactly the results that are fields. */
  lemma DictFieldMacroAsWrittenDropsFields(m: map<string, Doc>, key: string)
    requires DictFieldMacro(m, key).Ok?
    ensures IsField(Prepared(m, key).value) ==> DictFieldMacroAsWritten(m, key) == Ok(None)
    ensures !IsField(Prepared(m, key).value) ==> DictFieldMacroAsWritten(m, key) == Ok(Some(DictFieldMacro(m, key).value))
  {
  }

  /** `dict_field_hook_macro` (returning the field in both cases). */
  method DictFieldHookMacro(key: string, value: FieldDict) returns (r: Result<map<string, Doc>>)
    modifies value
    ensures r == DictFieldMacro(old(value.entries), key)
    ensures r.Ok? ==> value.entries == r.value
    ensures r.Err? ==> value.entries == DefaultFactoryUpdated(old(value.entries))
  {
    var u := UpdateDefaultFactoryHookFields(value);
    if u.Err? {
      return Err(u.error);
    }
    var e := ExpandDefaultFactory(value, key);
    if e.Err? {
      return Err(e.error);
    }
    InferTypeFromDefault(value);
    if !IsField(value.entries) {
      var c := CreateDefaultFactory(value, true);
      value.entries := value.entries["type" := Str("Any")];
    }
    return Ok(value.entries);
  }

  /** The field `str_field_hook_macro` builds from `key` (ending in an arrow) and its value. */
  function StrFieldSeed(key: string, v: Doc): map<string, Doc>
  {
    map["default_factory" + LastTwo(key) := v]
  }

  /** `str_field_hook_macro` AS WRITTEN, on top of the as-written dict macro. */
  function StrFieldMacroAsWritten(key: string, v: Doc): Result<Option<map<string, Doc>>>
  {
    if !v.Str? then Err(MalformedHookField)
    else DictFieldMacroAsWritten(StrFieldSeed(key, v), DropLastTwo(key))
  }

  /** `str_field_hook_macro` on top of the corrected dict macro. */
  function StrFieldMacro(key: string, v: Doc): (r: Result<map<string, Doc>>)
    ensures !v.Str? <==> r == Err(MalformedHookField)
  {
    if !v.Str? then Err(MalformedHookField)
    else
      var r := DictFieldMacro(StrFieldSeed(key, v), DropLastTwo(key));
      assert DefaultFactoryUpdated(StrFieldSeed(key, v)) != map[] by {
        var k := "default_factory" + LastTwo(key);
        assert k in StrFieldSeed(key, v);
        if HasFactoryArrow(StrFieldSeed(key, v)) {
          assert "default_factory" in DefaultFactoryUpdated(StrFieldSeed(key, v));
        } else {
          assert k in DefaultFactoryUpdated(StrFieldSeed(key, v));
        }
      }
      assert !DefaultFactoryConflict(StrFieldSeed(key, v));
      r
  }

  /** The field a string hook field `name->: s` (or `name_>: s`) is meant to become. */
  function StrFieldIntended(name: string, arrow: string, s: string): map<string, Doc>
  {
    var f := map["default_factory" := Map(map[name + "->" := Str(s)]["return->" := ReturnOf(name)]), "type" := Str("Any")];
    if arrow == "_>" then f["exclude" := Bool(true)] else f
  }

  /** The position of an arrow-ended seed key in `DEFAULT_FACTORY_KEYS`. */
  lemma StrFieldSeedArrow(key: string, s: string)
    requires EndsWith(key, "->") || EndsWith(key, "_>")
    ensures HasFactoryArrow(StrFieldSeed(key, Str(s)))
    ensures FactoryArrow(StrFieldSeed(key, Str(s))) == "default_factory" + LastTwo(key)
    ensures !DefaultFactoryConflict(StrFieldSeed(key, Str(s)))
  {
    var m := StrFieldSeed(key, Str(s));
    assert LastTwo(key) == "->" || LastTwo(key) == "_>";
    var i := if LastTwo(key) == "->" then 2 else 3;
    assert DefaultFactoryKeys[i] == "default_factory" + LastTwo(key);
    assert forall j :: 0 <= j < i ==> DefaultFactoryKeys[j] !in m by {
      assert m.Keys == {"default_factory" + LastTwo(key)};
    }
    FirstPresentUnique(DefaultFactoryKeys, m, i);
  }

  /** A string hook field becomes a typed field whose factory computes and returns `name`. */
  lemma {:induction false} StrFieldMacroArrowForm(key: string, s: string)
    requires EndsWith(key, "->") || EndsWith(key, "_>")
    ensures StrFieldMacro(key, Str(s)) == Ok(StrFieldIntended(DropLastTwo(key), LastTwo(key), s))
  {
    var t := StrFieldIntended(DropLastTwo(key), LastTwo(key), s);
    StrFieldPrepared(key, s);
    assert IsField(t) by {
      assert "type" in t;
    }
    assert DictFieldMacro(StrFieldSeed(key, Str(s)), DropLastTwo(key)) == Ok(t);
  }

  /** The seed of a string hook field, updated, expanded and typed, is the intended field. */
  lemma StrFieldPrepared(key: string, s: string)
    requires EndsWith(key, "->") || EndsWith(key, "_>")
    ensures Prepared(StrFieldSeed(key, Str(s)), DropLastTwo(key)) == Ok(StrFieldIntended(DropLastTwo(key), LastTwo(key), s))
  {
    StrFieldSeedArrow(key, s);
    StrFieldUpdated(key, s);
    StrFieldExpandedTyped(DropLastTwo(key), LastTwo(key), s);
  }

  /** The updated seed of a string hook field expands its call and is typed `Any`. */
  lemma StrFieldExpandedTyped(name: string, arrow: string, s: string)
    ensures var u := map["default_factory" := Str(s)] + (if arrow == "_>" then map["exclude" := Bool(true)] else map[]);
      Expanded(u, name).Ok? && TypeInferred(Expanded(u, name).value) == StrFieldIntended(name, arrow, s)
  {
    var u := map["default_factory" := Str(s)] + (if arrow == "_>" then map["exclude" := Bool(true)] else map[]);
    var f := Map(map[name + "->" := Str(s)]["return->" := ReturnOf(name)]);
    var x := u["default_factory" := f];
    assert Expanded(u, name) == Ok(x);
    assert TypeInferred(x) == x["type" := Str("Any")];
  }

  /** Updating the seed moves the hook call to `default_factory`, excluded for `_>`. */
  lemma StrFieldUpdated(key: string, s: string)
    requires EndsWith(key, "->") || EndsWith(key, "_>")
    ensures DefaultFactoryUpdated(StrFieldSeed(key, Str(s))) ==
      map["default_factory" := Str(s)] + (if LastTwo(key) == "_>" then map["exclude" := Bool(true)] else map[])
  {
    var m := StrFieldSeed(key, Str(s));
    StrFieldSeedArrow(key, s);
    DefaultFactoryUpdatedMoves(m);
  }

  /** As written, the same string hook field yields `None`: the rewritten field is lost. */
  lemma {:induction false} StrFieldMacroAsWrittenLosesField(key: string, s: string)
    requires EndsWith(key, "->") || EndsWith(key, "_>")
    ensures StrFieldMacroAsWritten(key, Str(s)) == Ok(None)
  {
    var m := StrFieldSeed(key, Str(s));
    StrFieldSeedArrow(key, s);
    var x := Expanded(DefaultFactoryUpdated(m), DropLastTwo(key)).value;
    assert "default_factory" in x;
    assert IsField(TypeInferred(x));
  }

  /** `str_field_hook_macro` (returning the rewritten field). */
  method StrFieldHookMacro(key: string, v: Doc) returns (r: Result<map<string, Doc>>)
    ensures r == StrFieldMacro(key, v)
  {
    if !v.Str? {
      return Err(MalformedHookField);
    }
    var value := new FieldDict(StrFieldSeed(key, v));
    r := DictFieldHookMacro(DropLastTwo(key), value);
  }

  // ---------------------------------------------------------------------------------
  // hook_dict_macro / str_hook_macro / hook_macros

  /** A method key (`name<-` or `name<_`): the value is handled elsewhere. */
  predicate IsMethodKey(k: string)
  {
    EndsWith(k, "<-") || EndsWith(k, "<_")
  }

  /** A hook-call key (`name->` or `name_>`) whose string value is parsed as the default. */
  predicate IsArrowKey(k: string)
  {
    !IsMethodKey(k) && (EndsWith(k, "->") || EndsWith(k, "_>"))
  }

  /** The key under which `hook_dict_macro` stores the raw entry keyed `k`. */
  function StoredKey(k: string): string
  {
    if IsMethodKey(k) then LastTwo(k) else if IsArrowKey(k) then DropLastTwo(k) else k
  }

  /**
   * Where `hook_dict_macro` stores one raw entry `k: v`, and what it stores there.
   * `literalTypes` is `LITERAL_TYPES`.
   */
  function TranslateEntry(k: string, v: Doc, literalTypes: set<string>): (r: Result<(string, Doc)>)
    ensures r.Err? <==> IsArrowKey(k) && !v.Str?
    ensures r.Err? ==> r.error == UnknownInputArgument
    ensures r.Ok? ==> r.value.0 == StoredKey(k) && r.value.1.Map?
  {
    if EndsWith(k, "<-") || EndsWith(k, "<_") then
      Ok((LastTwo(k), Map(map[LastTwo(k) := v])))
    else if EndsWith(k, "->") || EndsWith(k, "_>") then
      if !v.Str? then Err(UnknownInputArgument)
      else Ok((DropLastTwo(k), Map(map["default" := v, "exclude" := Bool(LastTwo(k) == "_>"), "parse_keys" := List([Str("default")])])))
    else if v.Null? then Ok((k, Map(map["type" := Str("Any"), "default" := Null])))
    else if v.Str? && v.s in literalTypes then Ok((k, Map(map["type" := v])))
    else if v.Map? then Ok((k, v))
    else Ok((k, Map(map["type" := Str(RuntimeTypeName(v)), "default" := v])))
  }

  /** What `hook_dict_macro` stores for each kind of raw entry. */
  lemma TranslateEntryBranches(k: string, v: Doc, literalTypes: set<string>)
    // A method keeps its value under the method marker.
    ensures IsMethodKey(k) ==> TranslateEntry(k, v, literalTypes) == Ok((LastTwo(k), Map(map[LastTwo(k) := v])))
    // A hook call becomes a field whose default is parsed, excluded from output for `_>`.
    ensures IsArrowKey(k) && v.Str? ==>
      TranslateEntry(k, v, literalTypes) ==
      Ok((DropLastTwo(k), Map(map["default" := v, "exclude" := Bool(EndsWith(k, "_>")), "parse_keys" := List([Str("default")])])))
    // Any other key keeps its name and becomes a field descriptor.
    ensures var r := TranslateEntry(k, v, literalTypes); !IsMethodKey(k) && !IsArrowKey(k) ==>
      && r.Ok? && r.value.0 == k
      && (v.Null? ==> r.value.1 == Map(map["type" := Str("Any"), "default" := Null]))
      && (v.Str? && v.s in literalTypes ==> r.value.1 == Map(map["type" := v]))
      && (v.Map? ==> r.value.1 == v)
      && (!v.Null? && !v.Map? && !(v.Str? && v.s in literalTypes) ==>
          r.value.1 == Map(map["type" := Str(RuntimeTypeName(v)), "default" := v]))
  {
    assert LastTwo(k) == "_>" <==> EndsWith(k, "_>");
  }

  /**
   * One raw entry as the code is written: `LITERAL_TYPES` is not defined in the module, so
   * testing a plain string value against it raises `NameError`.
   */
  function TranslateEntryAsWritten(k: string, v: Doc): Result<(string, Doc)>
  {
    if !IsMethodKey(k) && !IsArrowKey(k) && v.Str? then Err(NameError)
    else TranslateEntry(k, v, {})
  }

  /**
   * As written, a plain field with a string value such as `name: str` raises `NameError`;
   * with a literal-type table holding `str` it becomes the field `{type: str}`.
   */
  lemma TranslateEntryAsWrittenRaises()
    ensures TranslateEntryAsWritten("name", Str("str")) == Err(NameError)
    ensures TranslateEntry("name", Str("str"), {"str"}) == Ok(("name", Map(map["type" := Str("str")])))
  {
    assert !EndsWith("name", "<-") && !EndsWith("name", "<_") by {
      assert "name"[2..] == "me";
    }
    assert !EndsWith("name", "->") && !EndsWith("name", "_>") by {
      assert "name"[2..] == "me";
    }
  }

  /** The loop of `hook_dict_macro` over `entries`, starting from `acc`. */
  function Translate(entries: seq<(string, Doc)>, literalTypes: set<string>, acc: map<string, Doc>): Result<map<string, Doc>>
    decreases |entries|
  {
    if entries == [] then Ok(acc)
    else
      match TranslateEntry(entries[0].0, entries[0].1, literalTypes)
      case Err(e) => Err(e)
      case Ok(p) => Translate(entries[1..], literalTypes, acc[p.0 := p.1])
  }

  /** The value stored under `k`, if any entry has key `k`. */
  function Lookup(entries: seq<(string, Doc)>, k: string): (r: Option<Doc>)
    ensures r.Some? <==> exists i :: 0 <= i < |entries| && entries[i].0 == k
  {
    if entries == [] then None
    else if entries[0].0 == k then Some(entries[0].1)
    else
      var rest := Lookup(entries[1..], k);
      assert forall i :: 1 <= i < |entries| ==> entries[i] == entries[1..][i - 1];
      rest
  }

  /** The entries without the one keyed `k` (`pop`). */
  function WithoutKey(entries: seq<(string, Doc)>, k: string): (r: seq<(string, Doc)>)
    ensures forall i :: 0 <= i < |r| ==> r[i].0 != k
    ensures |r| <= |entries|
  {
    if entries == [] then []
    else if entries[0].0 == k then WithoutKey(entries[1..], k)
    else [entries[0]] + WithoutKey(entries[1..], k)
  }

  /** What `hook_dict_macro` returns for the raw definition `entries`. */
  function HookDictMacroSpec(entries: seq<(string, Doc)>, literalTypes: set<string>): Result<map<string, Doc>>
  {
    var start := match Lookup(entries, "exec") case Some(e) => map["exec<-" := e] case None => map[];
    Translate(WithoutKey(entries, "exec"), literalTypes, start)
  }

  /** Every value the loop stores is a mapping: each raw field becomes a field descriptor. */
  lemma {:induction false} TranslateStoresMappings(entries: seq<(string, Doc)>, literalTypes: set<string>, acc: map<string, Doc>, k: string)
    requires Translate(entries, literalTypes, acc).Ok?
    requires k in Translate(entries, literalTypes, acc).value
    ensures k in acc || Translate(entries, literalTypes, acc).value[k].Map?
    ensures k in acc && !Translate(entries, literalTypes, acc).value[k].Map? ==> Translate(entries, literalTypes, acc).value[k] == acc[k]
    decreases |entries|
  {
    if entries != [] {
      var p := TranslateEntry(entries[0].0, entries[0].1, literalTypes).value;
      TranslateStoresMappings(entries[1..], literalTypes, acc[p.0 := p.1], k);
    }
  }

  /** The loop fails exactly when some arrow-ended (non-method) key holds a non-string. */
  lemma {:induction false} TranslateFailsOnNonStringArrow(entries: seq<(string, Doc)>, literalTypes: set<string>, acc: map<string, Doc>)
    ensures Translate(entries, literalTypes, acc).Err? <==>
      exists i :: 0 <= i < |entries| && TranslateEntry(entries[i].0, entries[i].1, literalTypes).Err?
    ensures Translate(entries, literalTypes, acc).Err? ==> Translate(entries, literalTypes, acc).error == UnknownInputArgument
    decreases |entries|
  {
    if entries != [] {
      var p := TranslateEntry(entries[0].0, entries[0].1, literalTypes);
      if p.Ok? {
        TranslateFailsOnNonStringArrow(entries[1..], literalTypes, acc[p.value.0 := p.value.1]);
        assert forall i :: 1 <= i < |entries| ==> entries[i] == entries[1..][i - 1];
        if Translate(entries, literalTypes, acc).Err? {
          var i :| 0 <= i < |entries[1..]| && TranslateEntry(entries[1..][i].0, entries[1..][i].1, literalTypes).Err?;
          assert entries[i + 1] == entries[1..][i];
        }
      }
    }
  }

  /**
   * Every value `hook_dict_macro` returns is a field descriptor, except under `exec<-`,
   * which may hold the popped `exec` value.
   */
  lemma HookDictMacroStoresMappings(entries: seq<(string, Doc)>, literalTypes: set<string>, k: string)
    requires HookDictMacroSpec(entries, literalTypes).Ok?
    requires k in HookDictMacroSpec(entries, literalTypes).value
    ensures var v := HookDictMacroSpec(entries, literalTypes).value[k];
      v.Map? || (k == "exec<-" && Lookup(entries, "exec") == Some(v))
  {
    var start := match Lookup(entries, "exec") case Some(e) => map["exec<-" := e] case None => map[];
    TranslateStoresMappings(WithoutKey(entries, "exec"), literalTypes, start, k);
  }

  /**
   * The keys of the loop's result are the keys it started with and the stored keys of the
   * entries; a key no entry is stored under keeps its starting value.
   */
  lemma {:induction false} TranslateKeys(entries: seq<(string, Doc)>, literalTypes: set<string>, acc: map<string, Doc>, k: string)
    requires Translate(entries, literalTypes, acc).Ok?
    ensures k in Translate(entries, literalTypes, acc).value <==>
      k in acc || exists i :: 0 <= i < |entries| && StoredKey(entries[i].0) == k
    ensures (forall i :: 0 <= i < |entries| ==> StoredKey(entries[i].0) != k) && k in acc ==>
      Translate(entries, literalTypes, acc).value[k] == acc[k]
    decreases |entries|
  {
    if entries != [] {
      var p := TranslateEntry(entries[0].0, entries[0].1, literalTypes).value;
      TranslateKeys(entries[1..], literalTypes, acc[p.0 := p.1], k);
      assert forall i :: 1 <= i < |entries| ==> entries[i] == entries[1..][i - 1];
      if exists i :: 0 <= i < |entries[1..]| && StoredKey(entries[1..][i].0) == k {
        var i :| 0 <= i < |entries[1..]| && StoredKey(entries[1..][i].0) == k;
        assert StoredKey(entries[i + 1].0) == k;
      }
    }
  }

  /** A key holds the descriptor of the last entry stored under it: later entries overwrite earlier ones. */
  lemma {:induction false} TranslateLastWriter(entries: seq<(string, Doc)>, literalTypes: set<string>, acc: map<string, Doc>, i: nat)
    requires Translate(entries, literalTypes, acc).Ok?
    requires i < |entries|
    requires forall j :: i < j < |entries| ==> StoredKey(entries[j].0) != StoredKey(entries[i].0)
    ensures TranslateEntry(entries[i].0, entries[i].1, literalTypes).Ok?
    ensures var k := StoredKey(entries[i].0);
      k in Translate(entries, literalTypes, acc).value &&
      Translate(entries, literalTypes, acc).value[k] == TranslateEntry(entries[i].0, entries[i].1, literalTypes).value.1
    decreases |entries|
  {
    var p := TranslateEntry(entries[0].0, entries[0].1, literalTypes).value;
    var rest := entries[1..];
    if i == 0 {
      var k := StoredKey(entries[0].0);
      forall j | 0 <= j < |rest|
        ensures StoredKey(rest[j].0) != k
      {
        assert rest[j] == entries[j + 1];
      }
      TranslateKeys(rest, literalTypes, acc[p.0 := p.1], k);
    } else {
      forall j | i - 1 < j < |rest|
        ensures StoredKey(rest[j].0) != StoredKey(rest[i - 1].0)
      {
        assert rest[j] == entries[j + 1];
      }
      TranslateLastWriter(rest, literalTypes, acc[p.0 := p.1], i - 1);
    }
  }

  /**
   * `exec` is re-emitted as `exec<-` holding the popped value, unless a later raw entry is
   * itself stored under `exec<-` (an arrow key such as `exec<-->`).
   */
  lemma HookDictMacroKeepsExec(entries: seq<(string, Doc)>, literalTypes: set<string>, e: Doc)
    requires Lookup(entries, "exec") == Some(e)
    requires HookDictMacroSpec(entries, literalTypes).Ok?
    requires forall i :: 0 <= i < |entries| && entries[i].0 != "exec" ==> StoredKey(entries[i].0) != "exec<-"
    ensures "exec<-" in HookDictMacroSpec(entries, literalTypes).value
    ensures HookDictMacroSpec(entries, literalTypes).value["exec<-"] == e
  {
    var items := WithoutKey(entries, "exec");
    WithoutKeyKeepsOthers(entries, "exec");
    forall i | 0 <= i < |items|
      ensures StoredKey(items[i].0) != "exec<-"
    {
      assert items[i] in entries;
    }
    TranslateKeys(items, literalTypes, map["exec<-" := e], "exec<-");
  }

  /**
   * Every entry other than `exec` is stored under its stored key, unless a later entry is
   * stored there too: the last such entry's descriptor is what the key holds.
   */
  lemma HookDictMacroLastWins(entries: seq<(string, Doc)>, literalTypes: set<string>, i: nat)
    requires HookDictMacroSpec(entries, literalTypes).Ok?
    requires var items := WithoutKey(entries, "exec");
      i < |items| && forall j :: i < j < |items| ==> StoredKey(items[j].0) != StoredKey(items[i].0)
    ensures var item := WithoutKey(entries, "exec")[i];
      var k := StoredKey(item.0);
      TranslateEntry(item.0, item.1, literalTypes).Ok? &&
      k in HookDictMacroSpec(entries, literalTypes).value &&
      HookDictMacroSpec(entries, literalTypes).value[k] == TranslateEntry(item.0, item.1, literalTypes).value.1
  {
    var start := match Lookup(entries, "exec") case Some(e) => map["exec<-" := e] case None => map[];
    TranslateLastWriter(WithoutKey(entries, "exec"), literalTypes, start, i);
  }

  /** One turn of the `hook_dict_macro` loop, at position `i`. */
  lemma TranslateStep(items: seq<(string, Doc)>, i: nat, literalTypes: set<string>, acc: map<string, Doc>)
    requires i < |items|
    ensures Translate(items[i..], literalTypes, acc) ==
      match TranslateEntry(items[i].0, items[i].1, literalTypes)
      case Err(e) => Err(e)
      case Ok(p) => Translate(items[i + 1..], literalTypes, acc[p.0 := p.1])
  {
    assert items[i..][1..] == items[i + 1..];
  }

  /** `hook_dict_macro`: pops `exec` from the raw definition and rewrites every other key. */
  method HookDictMacro(raw: HookInputDict, literalTypes: set<string>) returns (r: Result<map<string, Doc>>)
    requires raw.Valid()
    modifies raw
    ensures r == HookDictMacroSpec(old(raw.entries), literalTypes)
    ensures raw.entries == WithoutKey(old(raw.entries), "exec")
  {
    var exec := Lookup(raw.entries, "exec");
    var newHookInput: map<string, Doc> := match exec case Some(e) => map["exec<-" := e] case None => map[];
    if exec.Some? {
      raw.entries := WithoutKey(raw.entries, "exec");
    } else {
      WithoutKeyAbsent(raw.entries, "exec");
    }
    var items := raw.entries;
    assert items[0..] == items;
    var i := 0;
    while i < |items|
      invariant 0 <= i <= |items|
      invariant raw.entries == items == WithoutKey(old(raw.entries), "exec")
      invariant Translate(items[i..], literalTypes, newHookInput) == HookDictMacroSpec(old(raw.entries), literalTypes)
    {
      var t := TranslateEntry(items[i].0, items[i].1, literalTypes);
      TranslateStep(items, i, literalTypes, newHookInput);
      if t.Err? {
        return Err(t.error);
      }
      newHookInput := newHookInput[t.value.0 := t.value.1];
      i := i + 1;
    }
    assert items[i..] == [];
    return Ok(newHookInput);
  }

  /** Popping a key that is not there leaves the entries as they are. */
  lemma {:induction false} WithoutKeyAbsent(entries: seq<(string, Doc)>, k: string)
    requires Lookup(entries, k).None?
    ensures WithoutKey(entries, k) == entries
  {
    if entries != [] {
      assert forall i :: 1 <= i < |entries| ==> entries[i] == entries[1..][i - 1];
      WithoutKeyAbsent(entries[1..], k);
    }
  }

  /** `str_hook_macro`: a string hook runs its call into `tmp_in` and returns it. */
  function StrHookMacro(s: string): (r: seq<(string, Doc)>)
    ensures DistinctKeys(r) && Lookup(r, "tmp_in->") == Some(Str(s))
  {
    [("tmp_in->", Str(s)), ("tmp_out->", Str("return {{tmp_in}}"))]
  }

  /**
   * Read as a hook definition, a string hook declares two fields, `tmp_in` and `tmp_out`,
   * each parsing its default (the call, then the return of `tmp_in`).
   */
  lemma StrHookMacroDeclaresTwoFields(s: string, literalTypes: set<string>)
    ensures HookDictMacroSpec(StrHookMacro(s), literalTypes) == Ok(map[
      "tmp_in" := Map(map["default" := Str(s), "exclude" := Bool(false), "parse_keys" := List([Str("default")])]),
      "tmp_out" := Map(map["default" := Str("return {{tmp_in}}"), "exclude" := Bool(false), "parse_keys" := List([Str("default")])])])
  {
    var e := StrHookMacro(s);
    var call := Map(map["default" := Str(s), "exclude" := Bool(false), "parse_keys" := List([Str("default")])]);
    var ret := Map(map["default" := Str("return {{tmp_in}}"), "exclude" := Bool(false), "parse_keys" := List([Str("default")])]);
    assert Lookup(e, "exec") == None;
    WithoutKeyAbsent(e, "exec");
    assert TranslateEntry("tmp_in->", Str(s), literalTypes) == Ok(("tmp_in", call)) by {
      assert !EndsWith("tmp_in->", "<-") && !EndsWith("tmp_in->", "<_") && EndsWith("tmp_in->", "->");
      assert DropLastTwo("tmp_in->") == "tmp_in" && LastTwo("tmp_in->") == "->";
    }
    assert TranslateEntry("tmp_out->", Str("return {{tmp_in}}"), literalTypes) == Ok(("tmp_out", ret)) by {
      assert !EndsWith("tmp_out->", "<-") && !EndsWith("tmp_out->", "<_") && EndsWith("tmp_out->", "->");
      assert DropLastTwo("tmp_out->") == "tmp_out" && LastTwo("tmp_out->") == "->";
    }
    TranslateStep(e, 0, literalTypes, map[]);
    TranslateStep(e, 1, literalTypes, map["tmp_in" := call]);
    assert e[2..] == [] && e[0..] == e;
  }

  /** The argument of `hook_macros`: a string or a dictionary (anything else is unexpected). */
  datatype RawHook = RawStr(s: string) | RawDict(entries: seq<(string, Doc)>) | RawOther(d: Doc)

  /** `hook_macros` AS WRITTEN: the dictionary branch calls a name that is not defined. */
  function HookMacrosAsWritten(raw: RawHook, literalTypes: set<string>): Result<seq<(string, Doc)>>
  {
    match raw
    case RawStr(s) => Ok(StrHookMacro(s))
    case RawDict(_) => Err(NameError)
    case RawOther(_) => Err(Unexpected)
  }

  /** The result of `hook_macros`: the string form, or the rewritten dictionary. */
  datatype MacroResult = StrForm(entries: seq<(string, Doc)>) | DictForm(fields: map<string, Doc>)

  /** `hook_macros` dispatching a dictionary to `hook_dict_macro`. */
  function HookMacrosSpec(raw: RawHook, literalTypes: set<string>): (r: Result<MacroResult>)
    ensures raw.RawStr? ==> r == Ok(StrForm(StrHookMacro(raw.s)))
    ensures raw.RawOther? ==> r == Err(Unexpected)
    ensures raw.RawDict? ==> r.Ok? == HookDictMacroSpec(raw.entries, literalTypes).Ok?
    ensures raw.RawDict? && r.Ok? ==> r.value == DictForm(HookDictMacroSpec(raw.entries, literalTypes).value)
    ensures raw.RawDict? && r.Err? ==> r.error == HookDictMacroSpec(raw.entries, literalTypes).error
  {
    match raw
    case RawStr(s) => Ok(StrForm(StrHookMacro(s)))
    case RawDict(entries) =>
      (match HookDictMacroSpec(entries, literalTypes)
       case Ok(m) => Ok(DictForm(m))
       case Err(e) => Err(e))
    case RawOther(_) => Err(Unexpected)
  }

  /**
   * As written, every dictionary definition fails with `NameError`, while the dispatch to
   * `hook_dict_macro` succeeds on one that has no arrow-ended key holding a non-string.
   */
  lemma HookMacrosDictBranch(entries: seq<(string, Doc)>, literalTypes: set<string>)
    requires forall i :: 0 <= i < |entries| ==> TranslateEntry(entries[i].0, entries[i].1, literalTypes).Ok?
    ensures HookMacrosAsWritten(RawDict(entries), literalTypes) == Err(NameError)
    ensures HookMacrosSpec(RawDict(entries), literalTypes).Ok?
  {
    var start := match Lookup(entries, "exec") case Some(e) => map["exec<-" := e] case None => map[];
    WithoutKeyKeepsOthers(entries, "exec");
    TranslateFailsOnNonStringArrow(WithoutKey(entries, "exec"), literalTypes, start);
  }

  /** Every entry left after `pop` was an entry before. */
  lemma {:induction false} WithoutKeyKeepsOthers(entries: seq<(string, Doc)>, k: string)
    ensures forall i :: 0 <= i < |WithoutKey(entries, k)| ==> WithoutKey(entries, k)[i] in entries
  {
    if entries != [] {
      WithoutKeyKeepsOthers(entries[1..], k);
    }
  }
}
