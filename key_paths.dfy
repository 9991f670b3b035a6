/**
 * Key-path navigation over documents: `encode_key_path`, `nested_get` and `nested_set`.
 * These live in tackle/utils/dicts.py and tackle/utils/data_crud.py, which are not part
 * of this model; the definitions below are what the context hooks are
 * verified against: a string key selects a mapping entry, an integer an element of a
 * list, and anything else is a `KeyError`.
 */
module KeyPaths {
  import opened Wrappers
  import opened Document
  import Strings

  datatype Step = Key(name: string) | Index(i: int)

  /**
   * `encode_key_path(path, sep)`: a string is split on `sep` into keys; a list keeps its
   * string elements as keys and its integer elements as indexes.
   */
  function EncodeKeyPath(path: Doc, sep: string): (r: Result<seq<Step>>)
    ensures path.Str? && sep != "" ==> r.Ok? && |r.value| == Strings.Count(path.s, sep) + 1
    ensures path.Str? && sep != "" ==> forall k :: 0 <= k < |r.value| ==> r.value[k].Key?
  {
    match path
    case Str(s) =>
      if sep == "" then Err(ValueError)
      else
        var pieces := Strings.SplitOn(s, sep);
        Strings.SplitPieceCount(s, sep);
        Ok(seq(|pieces|, k requires 0 <= k < |pieces| => Key(pieces[k])))
    case List(items) =>
      if forall k :: 0 <= k < |items| ==> items[k].Str? || items[k].Int? then
        Ok(seq(|items|, k requires 0 <= k < |items| => if items[k].Str? then Key(items[k].s) else Index(items[k].i)))
      else Err(TypeError)
    case _ => Err(TypeError)
  }

  /** `nested_get(element, keys)` */
  function NestedGet(element: Doc, keys: seq<Step>): Result<Doc>
    decreases |keys|
  {
    if keys == [] then Ok(element)
    else
      match (element, keys[0])
      case (Map(m), Key(k)) => if k in m then NestedGet(m[k], keys[1..]) else Err(KeyError)
      case (List(l), Index(i)) => if 0 <= i < |l| then NestedGet(l[i], keys[1..]) else Err(KeyError)
      case _ => Err(KeyError)
  }

  /**
   * `nested_set(element, keys, value)`: a missing mapping key on the way down is created
   * holding an empty mapping; an empty path cannot be written.
   */
  function NestedSet(element: Doc, keys: seq<Step>, value: Doc): Result<Doc>
    decreases |keys|
  {
    if keys == [] then Err(KeyError)
    else if |keys| == 1 then
      match (element, keys[0])
      case (Map(m), Key(k)) => Ok(Map(m[k := value]))
      case (List(l), Index(i)) => if 0 <= i < |l| then Ok(List(l[i := value])) else Err(KeyError)
      case _ => Err(KeyError)
    else
      match (element, keys[0])
      case (Map(m), Key(k)) =>
        var child := if k in m then m[k] else Map(map[]);
        (match NestedSet(child, keys[1..], value)
         case Ok(c) => Ok(Map(m[k := c]))
         case Err(e) => Err(e))
      case (List(l), Index(i)) =>
        if 0 <= i < |l| then
          (match NestedSet(l[i], keys[1..], value)
           case Ok(c) => Ok(List(l[i := c]))
           case Err(e) => Err(e))
        else Err(KeyError)
      case _ => Err(KeyError)
  }

  /** What `nested_set` wrote, `nested_get` reads back. */
  lemma {:induction false} GetAfterSet(element: Doc, keys: seq<Step>, value: Doc)
    requires NestedSet(element, keys, value).Ok?
    ensures NestedGet(NestedSet(element, keys, value).value, keys) == Ok(value)
    decreases |keys|
  {
    if |keys| > 1 {
      match (element, keys[0])
      case (Map(m), Key(k)) =>
        var child := if k in m then m[k] else Map(map[]);
        GetAfterSet(child, keys[1..], value);
      case (List(l), Index(i)) =>
        GetAfterSet(l[i], keys[1..], value);
    }
  }

  /** A write at a top-level key leaves every other top-level entry of a mapping as it was. */
  lemma SetKeepsSiblings(m: map<string, Doc>, keys: seq<Step>, value: Doc, other: string)
    requires keys != [] && keys[0].Key? && keys[0].name != other
    requires NestedSet(Map(m), keys, value).Ok?
    ensures NestedSet(Map(m), keys, value).value.Map?
    ensures other in m <==> other in NestedSet(Map(m), keys, value).value.fields
    ensures other in m ==> NestedSet(Map(m), keys, value).value.fields[other] == m[other]
  {
  }

  /** Where `nested_get` finds a value, `nested_set` can write over it. */
  lemma {:induction false} SetWhereGetSucceeds(element: Doc, keys: seq<Step>, value: Doc)
    requires keys != [] && NestedGet(element, keys).Ok?
    ensures NestedSet(element, keys, value).Ok?
    decreases |keys|
  {
    if |keys| > 1 {
      match (element, keys[0])
      case (Map(m), Key(k)) =>
        SetWhereGetSucceeds(m[k], keys[1..], value);
      case (List(l), Index(i)) =>
        SetWhereGetSucceeds(l[i], keys[1..], value);
    }
  }
}
