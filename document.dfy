/**
 * The values a tackle document is made of (tackle/types.py): mappings, lists and
 * hashable scalars, plus null. Documents come from the round-trip YAML reader, so a
 * float is a `ScalarFloat`, a list a `CommentedSeq` and a mapping a `CommentedMap`.
 */
module Document {
  import opened Wrappers

  datatype Doc =
    | Null
    | Bool(b: bool)
    | Int(i: int)
    | Float(r: real)
    | Str(s: string)
    | List(items: seq<Doc>)
    | Map(fields: map<string, Doc>)
      /** A compiled default-factory executor; what it does when called is not modelled. */
    | Factory(source: Doc)

  /** Python truthiness (`bool(v)`). */
  predicate Truthy(d: Doc)
  {
    match d
    case Null => false
    case Bool(b) => b
    case Int(i) => i != 0
    case Float(r) => r != 0.0
    case Str(s) => s != ""
    case List(items) => items != []
    case Map(fields) => fields != map[]
    case Factory(_) => true
  }

  /** `type(v).__name__` for a value read by the round-trip YAML reader. */
  function RuntimeTypeName(d: Doc): string
  {
    match d
    case Null => "NoneType"
    case Bool(_) => "bool"
    case Int(_) => "int"
    case Float(_) => "ScalarFloat"
    case Str(_) => "str"
    case List(_) => "CommentedSeq"
    case Map(_) => "CommentedMap"
    case Factory(_) => "function"
  }

  /** `s.startswith(p)` */
  predicate StartsWith(s: string, p: string)
  {
    |p| <= |s| && s[..|p|] == p
  }

  /** `s.endswith(p)` */
  predicate EndsWith(s: string, p: string)
  {
    |p| <= |s| && s[|s| - |p|..] == p
  }

  /** Python's `s[-2:]`: the last two characters, or all of `s` when it is shorter. */
  function LastTwo(s: string): (r: string)
    ensures |r| == if |s| < 2 then |s| else 2
    ensures EndsWith(s, r)
  {
    if |s| < 2 then s else s[|s| - 2..]
  }

  /** Python's `s[:-2]`: everything but the last two characters ("" when `s` is shorter). */
  function DropLastTwo(s: string): (r: string)
    ensures r + LastTwo(s) == s
  {
    if |s| < 2 then "" else s[..|s| - 2]
  }

  /**
   * The key and value one element of a `dict.update` sequence contributes: a two-element
   * list, or a two-character string. An element of another length raises `ValueError`; one
   * that cannot be iterated raises `TypeError`.
   */
  function UpdatePair(e: Doc): (r: Result<(string, Doc)>)
    ensures e.List? && |e.items| == 2 && e.items[0].Str? ==> r == Ok((e.items[0].s, e.items[1]))
    ensures e.Str? && |e.s| == 2 ==> r == Ok(([e.s[0]], Str([e.s[1]])))
    ensures (e.List? && |e.items| != 2) || (e.Str? && |e.s| != 2) || (e.Map? && |e.fields| != 2) ==> r == Err(ValueError)
    ensures e.Null? || e.Bool? || e.Int? || e.Float? || e.Factory? ==> r == Err(TypeError)
  {
    match e
    case List(items) =>
      if |items| != 2 then Err(ValueError)
      else if items[0].Str? then Ok((items[0].s, items[1]))
      else Err(TypeError)
    case Str(s) =>
      if |s| != 2 then Err(ValueError)
      else
        assert s[..1] == [s[0]] && s[1..] == [s[1]];
        Ok((s[..1], Str(s[1..])))
    case Map(m) => if |m| != 2 then Err(ValueError) else Err(TypeError)
    case _ => Err(TypeError)
  }

  /** Inserting the pairs of a `dict.update` sequence one after the other. */
  function UpdatePairs(d: map<string, Doc>, items: seq<Doc>): Result<map<string, Doc>>
    decreases |items|
  {
    if items == [] then Ok(d)
    else
      match UpdatePair(items[0])
      case Err(e) => Err(e)
      case Ok(p) => UpdatePairs(d[p.0 := p.1], items[1..])
  }

  /**
   * `d.update(u)`: a mapping overrides `d` on its keys; any other iterable is read as a
   * sequence of key-value pairs, so the empty string changes nothing and any other string
   * raises `ValueError`; a value that cannot be iterated raises `TypeError`.
   */
  function DictUpdate(d: map<string, Doc>, u: Doc): (r: Result<map<string, Doc>>)
    ensures u.Map? ==> r == Ok(d + u.fields)
    ensures u.Str? ==> (r.Ok? <==> u.s == "") && (r.Ok? ==> r.value == d) && (r.Err? ==> r.error == ValueError)
    ensures u.Null? || u.Bool? || u.Int? || u.Float? || u.Factory? ==> r == Err(TypeError)
  {
    match u
    case Map(m) => Ok(d + m)
    case List(items) => UpdatePairs(d, items)
    case Str(s) => if s == "" then Ok(d) else Err(ValueError)
    case _ => Err(TypeError)
  }

  /** Updating with a list succeeds exactly when every element is a pair. */
  lemma {:induction false} UpdatePairsOk(d: map<string, Doc>, items: seq<Doc>)
    ensures UpdatePairs(d, items).Ok? <==> forall j :: 0 <= j < |items| ==> UpdatePair(items[j]).Ok?
    decreases |items|
  {
    if items != [] {
      assert forall j :: 1 <= j < |items| ==> items[j] == items[1..][j - 1];
      match UpdatePair(items[0])
      case Err(_) =>
      case Ok(p) =>
        UpdatePairsOk(d[p.0 := p.1], items[1..]);
    }
  }

  /** A key no pair names keeps its place and value in `d`. */
  lemma {:induction false} UpdatePairsKeeps(d: map<string, Doc>, items: seq<Doc>, k: string)
    requires UpdatePairs(d, items).Ok?
    requires forall j :: 0 <= j < |items| ==> UpdatePair(items[j]).Ok? && UpdatePair(items[j]).value.0 != k
    ensures k in UpdatePairs(d, items).value <==> k in d
    ensures k in d ==> UpdatePairs(d, items).value[k] == d[k]
    decreases |items|
  {
    if items != [] {
      var p := UpdatePair(items[0]).value;
      assert forall j :: 1 <= j < |items| ==> items[j] == items[1..][j - 1];
      UpdatePairsKeeps(d[p.0 := p.1], items[1..], k);
    }
  }

  /** Pairs are inserted in order: a key holds the value of the last pair naming it. */
  lemma {:induction false} UpdatePairsLastWins(d: map<string, Doc>, items: seq<Doc>, i: nat)
    requires UpdatePairs(d, items).Ok? && i < |items|
    requires UpdatePair(items[i]).Ok?
    requires forall j :: i < j < |items| ==> UpdatePair(items[j]).Ok? && UpdatePair(items[j]).value.0 != UpdatePair(items[i]).value.0
    ensures var (k, v) := UpdatePair(items[i]).value; k in UpdatePairs(d, items).value && UpdatePairs(d, items).value[k] == v
    decreases |items|
  {
    var p := UpdatePair(items[0]).value;
    var rest := items[1..];
    assert forall j :: 1 <= j < |items| ==> items[j] == rest[j - 1];
    if i == 0 {
      UpdatePairsKeeps(d[p.0 := p.1], rest, p.0);
    } else {
      UpdatePairsLastWins(d[p.0 := p.1], rest, i - 1);
    }
  }
}
