/**
 * The context data hooks: `get` (tackle/providers/context/hooks/get.py), `set`
 * (tackle/providers/context/hooks/sets.py), `update` (providers/context/hooks/update.py)
 * and `return` (providers/logic/hooks/returns.py), over a context made of four data
 * partitions and the flag that stops parsing.
 *
 * Key paths are navigated with the `KeyPaths` definitions, which stand in for
 * `encode_key_path`, `nested_get` and `nested_set`.
 */
module ContextHooks {
  import opened Wrappers
  import opened Document
  import opened KeyPaths
  import HookModels

  /** The context a hook runs in: the public, private, temporary and existing data, and `break_`. */
  class Context {
    var publicData: Doc
    var privateData: Doc
    var temporaryData: Doc
    var existingData: Doc
    var breakFlag: bool

    constructor (publicData: Doc, privateData: Doc, temporaryData: Doc, existingData: Doc)
      ensures this.publicData == publicData && this.privateData == privateData
      ensures this.temporaryData == temporaryData && this.existingData == existingData
      ensures !breakFlag
    {
      this.publicData := publicData;
      this.privateData := privateData;
      this.temporaryData := temporaryData;
      this.existingData := existingData;
      breakFlag := false;
    }

    /** The partitions in the order `get` searches them. */
    function Partitions(): seq<Doc>
      reads this
    {
      [publicData, privateData, temporaryData, existingData]
    }

    /** `GetKeyHook.exec`: the first partition that holds a non-None value at the path. */
    method Get(path: Doc, sep: string) returns (r: Result<Doc>)
      ensures r == GetSpec(Partitions(), path, sep)
    {
      var encoded := EncodeKeyPath(path, sep);
      if encoded.Err? {
        return Err(encoded.error);
      }
      var keys := encoded.value;
      var parts := Partitions();
      var value := Null;
      var i := 0;
      while i < |parts|
        invariant 0 <= i <= |parts|
        invariant value == Null
        invariant FirstFound(parts[i..], keys) == FirstFound(parts, keys)
        decreases |parts| - i
      {
        assert parts[i..][1..] == parts[i + 1..] && parts[i..][0] == parts[i];
        var got := NestedGet(parts[i], keys);
        assert FirstFound(parts[i..], keys) == if Yields(parts[i], keys) then got.value else FirstFound(parts[i + 1..], keys);
        if got.Ok? {
          value := got.value;
        }
        if value != Null {
          break;
        }
        i := i + 1;
      }
      assert value == Null ==> parts[i..] == [];
      assert value == FirstFound(parts, keys);
      return Ok(value);
    }

    /** `SetKeyHook.exec`: a write at the path into the public data; nothing is returned. */
    method Set(path: Doc, value: Doc, sep: string) returns (r: Result<()>)
      modifies this
      ensures r.Ok? <==> SetSpec(old(publicData), path, value, sep).Ok?
      ensures r.Ok? ==> publicData == SetSpec(old(publicData), path, value, sep).value
      ensures r.Err? ==> r.error == SetSpec(old(publicData), path, value, sep).error && publicData == old(publicData)
      ensures privateData == old(privateData) && temporaryData == old(temporaryData)
      ensures existingData == old(existingData) && breakFlag == old(breakFlag)
    {
      var written := SetSpec(publicData, path, value, sep);
      if written.Err? {
        return Err(written.error);
      }
      publicData := written.value;
      return Ok(());
    }

    /**
     * `DictUpdateHook.exec`: at a key path, merge into a mapping, append to a list or
     * overwrite; with a mapping `src`, merge into it and return it.
     */
    method Update(src: Doc, input: Doc, sep: string) returns (r: Result<Doc>)
      modifies this
      ensures r.Ok? <==> UpdateSpec(old(publicData), src, input, sep).Ok?
      ensures r.Ok? ==> (publicData, r.value) == UpdateSpec(old(publicData), src, input, sep).value
      ensures r.Err? ==> r.error == UpdateSpec(old(publicData), src, input, sep).error && publicData == old(publicData)
      ensures privateData == old(privateData) && temporaryData == old(temporaryData)
      ensures existingData == old(existingData) && breakFlag == old(breakFlag)
    {
      var updated := UpdateSpec(publicData, src, input, sep);
      if updated.Err? {
        return Err(updated.error);
      }
      publicData := updated.value.0;
      return Ok(updated.value.1);
    }

    /** `ReturnHook.exec`: stop parsing, make `value` the public data, and return it. */
    method Return(value: Doc) returns (r: Doc)
      modifies this
      ensures breakFlag && publicData == value && r == value
      ensures privateData == old(privateData) && temporaryData == old(temporaryData) && existingData == old(existingData)
    {
      breakFlag := true;
      publicData := value;
      return value;
    }
  }

  // ---------------------------------------------------------------------------------
  // get

  /** The partition `d` holds a value other than None at `keys`. */
  predicate Yields(d: Doc, keys: seq<Step>)
  {
    NestedGet(d, keys).Ok? && NestedGet(d, keys).value != Null
  }

  /** The value of the first partition that yields one at `keys`; None when none does. */
  function FirstFound(parts: seq<Doc>, keys: seq<Step>): Doc
    decreases |parts|
  {
    if parts == [] then Null
    else if Yields(parts[0], keys) then NestedGet(parts[0], keys).value
    else FirstFound(parts[1..], keys)
  }

  /** What `get` returns for the partitions `parts`. */
  function GetSpec(parts: seq<Doc>, path: Doc, sep: string): Result<Doc>
  {
    match EncodeKeyPath(path, sep)
    case Err(e) => Err(e)
    case Ok(keys) => Ok(FirstFound(parts, keys))
  }

  /** The search returns the value of the first yielding partition; later ones are not consulted. */
  lemma {:induction false} FirstFoundIsFirst(parts: seq<Doc>, keys: seq<Step>, j: nat)
    requires j < |parts| && Yields(parts[j], keys)
    requires forall i :: 0 <= i < j ==> !Yields(parts[i], keys)
    ensures FirstFound(parts, keys) == NestedGet(parts[j], keys).value
    decreases j
  {
    if j > 0 {
      assert !Yields(parts[0], keys);
      FirstFoundIsFirst(parts[1..], keys, j - 1);
    }
  }

  /** The search gives None exactly when no partition yields a value. */
  lemma {:induction false} FirstFoundNone(parts: seq<Doc>, keys: seq<Step>)
    ensures FirstFound(parts, keys) == Null <==> forall i :: 0 <= i < |parts| ==> !Yields(parts[i], keys)
    decreases |parts|
  {
    if parts != [] {
      FirstFoundNone(parts[1..], keys);
      assert forall i :: 1 <= i < |parts| ==> parts[i] == parts[1..][i - 1];
    }
  }

  /** The public data is searched first: when it yields a value, `get` returns that value. */
  lemma PublicFirst(publicData: Doc, privateData: Doc, temporaryData: Doc, existingData: Doc, path: Doc, sep: string)
    requires EncodeKeyPath(path, sep).Ok? && Yields(publicData, EncodeKeyPath(path, sep).value)
    ensures GetSpec([publicData, privateData, temporaryData, existingData], path, sep)
      == NestedGet(publicData, EncodeKeyPath(path, sep).value)
  {
  }

  /**
   * A string path is split on the default separator `/`: its keys are the pieces between
   * slashes, none containing `/` and joining back to the path; a path without `/` is one key.
   */
  lemma GetDefaultSeparator(s: string, parts: seq<Doc>)
    ensures GetSpec(parts, Str(s), GetDefaultSep).Ok?
    ensures var keys := EncodeKeyPath(Str(s), GetDefaultSep).value; var pieces := Strings.SplitOn(s, "/");
      |keys| == |pieces| && forall k :: 0 <= k < |keys| ==> keys[k] == Key(pieces[k])
    ensures Strings.JoinStrings(Strings.SplitOn(s, "/"), "/") == s
    ensures forall k :: 0 <= k < |Strings.SplitOn(s, "/")| ==> !Strings.Contains(Strings.SplitOn(s, "/")[k], "/")
    ensures !Strings.Contains(s, "/") ==> EncodeKeyPath(Str(s), GetDefaultSep) == Ok([Key(s)])
  {
    Strings.SplitJoinRoundTrip(s, "/");
    Strings.SplitPiecesFree(s, "/");
    Strings.FindIsLeftmost(s, "/");
    if !Strings.Contains(s, "/") {
      var keys := EncodeKeyPath(Str(s), GetDefaultSep).value;
      assert Strings.SplitOn(s, "/") == [s];
      assert keys[0] == Key(s);
      assert keys == [Key(s)];
    }
  }

  /** `get`'s separator default. */
  const GetDefaultSep: string := "/"

  // ---------------------------------------------------------------------------------
  // set

  /** The public data after `set` writes `value` at `path`. */
  function SetSpec(publicData: Doc, path: Doc, value: Doc, sep: string): Result<Doc>
  {
    match EncodeKeyPath(path, sep)
    case Err(e) => Err(e)
    case Ok(keys) => NestedSet(publicData, keys, value)
  }

  /** `set`'s separator default. */
  const SetDefaultSep: string := "/"

  /** A value written by `set` is what `get` then returns at the same path. */
  lemma GetAfterSetHook(publicData: Doc, privateData: Doc, temporaryData: Doc, existingData: Doc, path: Doc, value: Doc, sep: string)
    requires value != Null && SetSpec(publicData, path, value, sep).Ok?
    ensures GetSpec([SetSpec(publicData, path, value, sep).value, privateData, temporaryData, existingData], path, sep) == Ok(value)
  {
    var keys := EncodeKeyPath(path, sep).value;
    GetAfterSet(publicData, keys, value);
  }

  /** `set` writes only under the first key of the path: every other top-level public entry stays. */
  lemma SetKeepsOtherEntries(publicFields: map<string, Doc>, path: Doc, value: Doc, sep: string, other: string)
    requires SetSpec(Map(publicFields), path, value, sep).Ok?
    requires EncodeKeyPath(path, sep).value[0] != Key(other)
    ensures SetSpec(Map(publicFields), path, value, sep).value.Map?
    ensures var after := SetSpec(Map(publicFields), path, value, sep).value.fields;
      (other in after <==> other in publicFields) && (other in publicFields ==> after[other] == publicFields[other])
  {
    var keys := EncodeKeyPath(path, sep).value;
    assert keys != [];
    if keys[0].Key? {
      SetKeepsSiblings(publicFields, keys, value, other);
    }
  }

  // ---------------------------------------------------------------------------------
  // update

  /** Write `v` at `keys`; the empty path stands for the data itself, updated in place. */
  function ReplaceAt(element: Doc, keys: seq<Step>, v: Doc): Result<Doc>
  {
    if keys == [] then Ok(v) else NestedSet(element, keys, v)
  }

  /** The new public data and the returned value of `update`. */
  function UpdateSpec(publicData: Doc, src: Doc, input: Doc, sep: string): Result<(Doc, Doc)>
  {
    match src
    case Str(_) => UpdateAtPath(publicData, src, input, sep)
    case List(_) => UpdateAtPath(publicData, src, input, sep)
    case Map(fields) =>
      (match DictUpdate(fields, input)
       case Err(e) => Err(e)
       case Ok(merged) => Ok((publicData, Map(merged))))
    case _ => Err(TypeError)
  }

  /** The key-path form of `update`: the public data is changed at the path and None is returned. */
  function UpdateAtPath(publicData: Doc, src: Doc, input: Doc, sep: string): Result<(Doc, Doc)>
  {
    match EncodeKeyPath(src, sep)
    case Err(e) => Err(e)
    case Ok(keys) =>
      match NestedGet(publicData, keys)
      case Err(e) => Err(e)
      case Ok(target) =>
        var written :=
          if target.Map? then
            (match DictUpdate(target.fields, input)
             case Err(e) => Err(e)
             case Ok(merged) => ReplaceAt(publicData, keys, Map(merged)))
          else if target.List? then ReplaceAt(publicData, keys, List(target.items + [input]))
          else NestedSet(publicData, keys, input);
        match written
        case Err(e) => Err(e)
        case Ok(p) => Ok((p, Null))
  }

  /** `update`'s separator default. */
  const UpdateDefaultSep: string := "."

  /** Reading back after an in-place update at a path that exists. */
  lemma ReplaceAtReads(element: Doc, keys: seq<Step>, v: Doc)
    requires NestedGet(element, keys).Ok?
    ensures ReplaceAt(element, keys, v).Ok? && NestedGet(ReplaceAt(element, keys, v).value, keys) == Ok(v)
  {
    if keys != [] {
      SetWhereGetSucceeds(element, keys, v);
      GetAfterSet(element, keys, v);
    }
  }

  /**
   * A mapping at the path gains the input's keys, the input's values winning, and keeps
   * the rest of its entries; None is returned.
   */
  lemma UpdateMergesMapping(publicData: Doc, src: Doc, input: map<string, Doc>, sep: string)
    requires src.Str? || src.List?
    requires EncodeKeyPath(src, sep).Ok?
    requires NestedGet(publicData, EncodeKeyPath(src, sep).value).Ok?
    requires NestedGet(publicData, EncodeKeyPath(src, sep).value).value.Map?
    ensures UpdateSpec(publicData, src, Map(input), sep).Ok?
    ensures var keys := EncodeKeyPath(src, sep).value;
      var before := NestedGet(publicData, keys).value.fields;
      var (after, returned) := UpdateSpec(publicData, src, Map(input), sep).value;
      returned == Null && NestedGet(after, keys).Ok? && NestedGet(after, keys).value.Map? &&
      var merged := NestedGet(after, keys).value.fields;
      merged.Keys == before.Keys + input.Keys &&
      (forall k :: k in input ==> merged[k] == input[k]) &&
      (forall k :: k in before && k !in input ==> merged[k] == before[k])
  {
    var keys := EncodeKeyPath(src, sep).value;
    var before := NestedGet(publicData, keys).value.fields;
    ReplaceAtReads(publicData, keys, Map(before + input));
  }

  /** A list at the path grows by exactly one element, the input, at its end. */
  lemma UpdateAppendsToList(publicData: Doc, src: Doc, input: Doc, sep: string)
    requires src.Str? || src.List?
    requires EncodeKeyPath(src, sep).Ok?
    requires NestedGet(publicData, EncodeKeyPath(src, sep).value).Ok?
    requires NestedGet(publicData, EncodeKeyPath(src, sep).value).value.List?
    ensures UpdateSpec(publicData, src, input, sep).Ok?
    ensures var keys := EncodeKeyPath(src, sep).value;
      var before := NestedGet(publicData, keys).value.items;
      var (after, returned) := UpdateSpec(publicData, src, input, sep).value;
      returned == Null && NestedGet(after, keys).Ok? && NestedGet(after, keys).value.List? &&
      var items := NestedGet(after, keys).value.items;
      |items| == |before| + 1 && items[..|before|] == before && items[|before|] == input
  {
    var keys := EncodeKeyPath(src, sep).value;
    var before := NestedGet(publicData, keys).value.items;
    ReplaceAtReads(publicData, keys, List(before + [input]));
    assert (before + [input])[..|before|] == before;
  }

  /** Any other value at the path is replaced by the input. */
  lemma UpdateOverwritesScalar(publicData: Doc, src: Doc, input: Doc, sep: string)
    requires src.Str? || src.List?
    requires EncodeKeyPath(src, sep).Ok? && EncodeKeyPath(src, sep).value != []
    requires NestedGet(publicData, EncodeKeyPath(src, sep).value).Ok?
    requires var t := NestedGet(publicData, EncodeKeyPath(src, sep).value).value; !t.Map? && !t.List?
    ensures UpdateSpec(publicData, src, input, sep).Ok?
    ensures var (after, returned) := UpdateSpec(publicData, src, input, sep).value;
      returned == Null && NestedGet(after, EncodeKeyPath(src, sep).value) == Ok(input)
  {
    var keys := EncodeKeyPath(src, sep).value;
    ReplaceAtReads(publicData, keys, input);
  }

  /** With a mapping `src`, the context is untouched and the merged mapping is returned. */
  lemma UpdateDictSource(publicData: Doc, src: map<string, Doc>, input: map<string, Doc>, sep: string)
    ensures UpdateSpec(publicData, Map(src), Map(input), sep).Ok?
    ensures var (after, returned) := UpdateSpec(publicData, Map(src), Map(input), sep).value;
      after == publicData && returned.Map? && returned.fields.Keys == src.Keys + input.Keys &&
      (forall k :: k in input ==> returned.fields[k] == input[k]) &&
      (forall k :: k in src && k !in input ==> returned.fields[k] == src[k])
  {
  }

  // ---------------------------------------------------------------------------------
  // Positional arguments of the hooks

  const GetArgs: seq<string> := ["path"]
  const SetArgs: seq<string> := ["path", "value"]
  const UpdateArgs: seq<string> := ["src", "input"]
  const ReturnArgs: seq<string> := ["value"]

  /** `set foo/bar baz`: the first argument is the path, the second the value. */
  lemma SetPositionalArgs(path: Doc, value: Doc)
    ensures HookModels.BindPositional(SetArgs, [path, value]) == Ok(map["path" := path, "value" := value])
  {
    assert [path, value][1..] == [value] && [value][1..] == [];
    assert SetArgs[1..] == ["value"] && ["value"][1..] == [];
    assert HookModels.BindPositional([], []) == Ok(map[]);
    assert HookModels.BindPositional(["value"], [value]) == Ok(map["value" := value]);
    assert HookModels.BindPositional(SetArgs, [path, value]) == Ok(map["value" := value]["path" := path]);
    assert map["value" := value]["path" := path] == map["path" := path, "value" := value];
  }

  /** `update src input`: the first argument is the source, the second the input. */
  lemma UpdatePositionalArgs(src: Doc, input: Doc)
    ensures HookModels.BindPositional(UpdateArgs, [src, input]) == Ok(map["src" := src, "input" := input])
  {
    assert [src, input][1..] == [input] && [input][1..] == [];
    assert UpdateArgs[1..] == ["input"] && ["input"][1..] == [];
    assert HookModels.BindPositional([], []) == Ok(map[]);
    assert HookModels.BindPositional(["input"], [input]) == Ok(map["input" := input]);
    assert HookModels.BindPositional(UpdateArgs, [src, input]) == Ok(map["input" := input]["src" := src]);
    assert map["input" := input]["src" := src] == map["src" := src, "input" := input];
  }

  /** `get path` and `return value` take one positional argument; a second is refused. */
  lemma SingleArgumentHooks(a: Doc, b: Doc)
    ensures HookModels.BindPositional(GetArgs, [a]) == Ok(map["path" := a])
    ensures HookModels.BindPositional(ReturnArgs, [a]) == Ok(map["value" := a])
    ensures HookModels.BindPositional(GetArgs, [a, b]).Err? && HookModels.BindPositional(ReturnArgs, [a, b]).Err?
  {
    assert [a][1..] == [];
  }
}
