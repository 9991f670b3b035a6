/**
 * The pure parts of the `generate` hook (tackle/providers/generate/hooks/generate.py):
 * building the render context from the context partitions and `extra_context`, the
 * normalisation of `copy_without_render` with the choice of path separator, and the test
 * whether a path is only copied rather than rendered.
 */
module Generate {
  import opened Wrappers
  import opened Document

  /** The fields of a `generate` hook call that these steps read and write. */
  class GenerateHook {
    var renderContext: Option<map<string, Doc>>
    var existingData: Doc
    var temporaryData: Doc
    var privateData: Doc
    var publicData: Doc
    var extraContext: Doc
    var copyWithoutRender: Doc
    var pathSeparator: string

    constructor (renderContext: Option<map<string, Doc>>, existingData: Doc, temporaryData: Doc, privateData: Doc,
                 publicData: Doc, extraContext: Doc, copyWithoutRender: Doc)
      ensures this.renderContext == renderContext && this.existingData == existingData
      ensures this.temporaryData == temporaryData && this.privateData == privateData && this.publicData == publicData
      ensures this.extraContext == extraContext && this.copyWithoutRender == copyWithoutRender
      ensures pathSeparator == "/"
    {
      this.renderContext := renderContext;
      this.existingData := existingData;
      this.temporaryData := temporaryData;
      this.privateData := privateData;
      this.publicData := publicData;
      this.extraContext := extraContext;
      this.copyWithoutRender := copyWithoutRender;
      pathSeparator := "/";
    }

    /**
     * `_init_paths`, the parts modelled: a single `copy_without_render` pattern becomes a
     * one-element list, and the separator is `\` on Windows and `/` elsewhere.
     */
    method InitPaths(isWindows: bool)
      modifies this
      ensures copyWithoutRender == SinglePatternAsList(old(copyWithoutRender))
      ensures pathSeparator == (if isWindows then "\\" else "/")
      ensures renderContext == old(renderContext) && extraContext == old(extraContext)
      ensures publicData == old(publicData) && privateData == old(privateData)
      ensures temporaryData == old(temporaryData) && existingData == old(existingData)
    {
      if copyWithoutRender.Str? {
        copyWithoutRender := List([copyWithoutRender]);
      }
      if isWindows {
        pathSeparator := "\\";
      } else {
        pathSeparator := "/";
      }
    }

    /**
     * `_init_context`: unless a render context was given, merge the partitions (existing,
     * then temporary, private and public, each overriding the one before) and apply
     * `extra_context` on top.
     */
    method InitContext() returns (r: Result<()>)
      modifies this
      ensures (renderContext, r) == InitContextSpec(old(renderContext), existingData, temporaryData, privateData, publicData, extraContext)
      ensures existingData == old(existingData) && temporaryData == old(temporaryData)
      ensures privateData == old(privateData) && publicData == old(publicData)
      ensures extraContext == old(extraContext) && copyWithoutRender == old(copyWithoutRender)
      ensures pathSeparator == old(pathSeparator)
    {
      if renderContext.Some? {
        return Ok(());
      }
      var merged := MergedPartitions(existingData, temporaryData, privateData, publicData);
      if merged.Err? {
        return Err(merged.error);
      }
      renderContext := Some(merged.value);
      if extraContext.Null? {
        return Ok(());
      }
      if !extraContext.List? {
        var updated := DictUpdate(renderContext.value, extraContext);
        if updated.Err? {
          return Err(updated.error);
        }
        renderContext := Some(updated.value);
        return Ok(());
      }
      var items := extraContext.items;
      var i := 0;
      while i < |items|
        invariant 0 <= i <= |items| && renderContext.Some?
        invariant existingData == old(existingData) && temporaryData == old(temporaryData)
        invariant privateData == old(privateData) && publicData == old(publicData)
        invariant extraContext == old(extraContext) && copyWithoutRender == old(copyWithoutRender)
        invariant pathSeparator == old(pathSeparator)
        invariant ApplyAll(renderContext.value, items[i..]) == ApplyAll(merged.value, items)
        decreases |items| - i
      {
        assert items[i..][0] == items[i] && items[i..][1..] == items[i + 1..];
        var updated := DictUpdate(renderContext.value, items[i]);
        if updated.Err? {
          return Err(updated.error);
        }
        renderContext := Some(updated.value);
        i := i + 1;
      }
      assert items[i..] == [];
      return Ok(());
    }

    /** `is_copy_only_path(path)`: whether some pattern matches `path` or `.` + separator + `path`. */
    method IsCopyOnlyPath(path: string) returns (r: Result<bool>)
      ensures r == CopyOnlySpec(copyWithoutRender, path, pathSeparator)
    {
      if copyWithoutRender.Null? {
        return Ok(false);
      }
      var patterns := Patterns(copyWithoutRender);
      if patterns.Err? {
        return Err(patterns.error);
      }
      var ps := patterns.value;
      var i := 0;
      while i < |ps|
        invariant 0 <= i <= |ps|
        invariant CopyOnlyFrom(ps[i..], path, pathSeparator) == CopyOnlyFrom(ps, path, pathSeparator)
        decreases |ps| - i
      {
        assert ps[i..][0] == ps[i] && ps[i..][1..] == ps[i + 1..];
        if !ps[i].Str? {
          return Err(TypeError);
        }
        if Glob(ps[i].s, path) {
          return Ok(true);
        }
        if Glob("." + pathSeparator + ps[i].s, path) {
          return Ok(true);
        }
        i := i + 1;
      }
      assert ps[i..] == [];
      return Ok(false);
    }
  }

  // ---------------------------------------------------------------------------------
  // _init_paths

  /** A string `copy_without_render` as the one-element list holding it. */
  function SinglePatternAsList(d: Doc): (r: Doc)
    ensures d.Str? ==> r.List? && r.items == [d]
    ensures !d.Str? ==> r == d
  {
    if d.Str? then List([d]) else d
  }

  // ---------------------------------------------------------------------------------
  // _init_context

  /** A partition as a mapping to unpack: None is the empty mapping, anything but a mapping raises. */
  function AsMapping(d: Doc): (r: Result<map<string, Doc>>)
    ensures d.Null? ==> r == Ok(map[])
    ensures d.Map? ==> r == Ok(d.fields)
    ensures !d.Null? && !d.Map? ==> r == Err(TypeError)
  {
    match d
    case Null => Ok(map[])
    case Map(m) => Ok(m)
    case _ => Err(TypeError)
  }

  /** `{**existing, **temporary, **private, **public}` */
  function MergedPartitions(existingData: Doc, temporaryData: Doc, privateData: Doc, publicData: Doc): Result<map<string, Doc>>
  {
    match (AsMapping(existingData), AsMapping(temporaryData), AsMapping(privateData), AsMapping(publicData))
    case (Ok(e), Ok(t), Ok(v), Ok(p)) => Ok(e + t + v + p)
    case (Err(x), _, _, _) => Err(x)
    case (_, Err(x), _, _) => Err(x)
    case (_, _, Err(x), _) => Err(x)
    case (_, _, _, Err(x)) => Err(x)
  }

  /** Applying the elements of an `extra_context` list in order; an error stops at that element. */
  function ApplyAll(d: map<string, Doc>, items: seq<Doc>): (map<string, Doc>, Result<()>)
    decreases |items|
  {
    if items == [] then (d, Ok(()))
    else
      match DictUpdate(d, items[0])
      case Err(e) => (d, Err(e))
      case Ok(d1) => ApplyAll(d1, items[1..])
  }

  /** The render context after `_init_context`, and whether it raised. */
  function InitContextSpec(renderContext: Option<map<string, Doc>>, existingData: Doc, temporaryData: Doc,
                           privateData: Doc, publicData: Doc, extraContext: Doc): (Option<map<string, Doc>>, Result<()>)
  {
    if renderContext.Some? then (renderContext, Ok(()))
    else
      match MergedPartitions(existingData, temporaryData, privateData, publicData)
      case Err(e) => (None, Err(e))
      case Ok(merged) =>
        match extraContext
        case Null => (Some(merged), Ok(()))
        case List(items) =>
          var (d, outcome) := ApplyAll(merged, items);
          (Some(d), outcome)
        case _ =>
          match DictUpdate(merged, extraContext)
          case Err(e) => (Some(merged), Err(e))
          case Ok(d) => (Some(d), Ok(()))
  }

  /** A render context that is already set is kept as it is. */
  lemma InitContextKeepsGiven(rc: map<string, Doc>, e: Doc, t: Doc, v: Doc, p: Doc, x: Doc)
    ensures InitContextSpec(Some(rc), e, t, v, p, x) == (Some(rc), Ok(()))
  {
  }

  /**
   * Each key takes its value from the highest partition that holds it: public over
   * private over temporary over existing; partitions that are None contribute nothing.
   */
  lemma MergePrecedence(existingData: Doc, temporaryData: Doc, privateData: Doc, publicData: Doc, k: string)
    requires MergedPartitions(existingData, temporaryData, privateData, publicData).Ok?
    ensures var m := MergedPartitions(existingData, temporaryData, privateData, publicData).value;
      var e := AsMapping(existingData).value;
      var t := AsMapping(temporaryData).value;
      var v := AsMapping(privateData).value;
      var p := AsMapping(publicData).value;
      && (k in m <==> k in e || k in t || k in v || k in p)
      && (k in p ==> m[k] == p[k])
      && (k !in p && k in v ==> m[k] == v[k])
      && (k !in p && k !in v && k in t ==> m[k] == t[k])
      && (k !in p && k !in v && k !in t && k in e ==> m[k] == e[k])
  {
  }

  /** Applying one more mapping at the end of the list is merging it on top: later mappings win. */
  lemma {:induction false} ApplyAllAppend(d: map<string, Doc>, items: seq<Doc>, m: map<string, Doc>)
    requires ApplyAll(d, items).1.Ok?
    ensures ApplyAll(d, items + [Map(m)]) == (ApplyAll(d, items).0 + m, Ok(()))
    decreases |items|
  {
    if items == [] {
      assert items + [Map(m)] == [Map(m)];
      assert [Map(m)][1..] == [];
    } else {
      var d1 := DictUpdate(d, items[0]).value;
      assert (items + [Map(m)])[0] == items[0];
      assert (items + [Map(m)])[1..] == items[1..] + [Map(m)];
      ApplyAllAppend(d1, items[1..], m);
    }
  }

  /** A list of mappings applied in order: a key set by the last mapping holds that mapping's value. */
  lemma LastExtraWins(d: map<string, Doc>, items: seq<Doc>, m: map<string, Doc>, k: string)
    requires ApplyAll(d, items).1.Ok? && k in m
    ensures var r := ApplyAll(d, items + [Map(m)]).0; k in r && r[k] == m[k]
  {
    ApplyAllAppend(d, items, m);
  }

  /** A single `extra_context` mapping overrides every partition on the keys it holds. */
  lemma ExtraContextOverrides(e: Doc, t: Doc, v: Doc, p: Doc, extra: map<string, Doc>, k: string)
    requires MergedPartitions(e, t, v, p).Ok? && k in extra
    ensures var (rc, outcome) := InitContextSpec(None, e, t, v, p, Map(extra));
      outcome.Ok? && rc.Some? && rc.value[k] == extra[k]
  {
  }

  // ---------------------------------------------------------------------------------
  // is_copy_only_path

  /**
   * `fnmatch.fnmatch(name, pattern)` on POSIX: `*` matches any run of characters, `?` any
   * one character, anything else itself.
   */
  function Glob(pattern: string, name: string): bool
    decreases |pattern| + |name|
  {
    if pattern == [] then name == []
    else if pattern[0] == '*' then Glob(pattern[1..], name) || (name != [] && Glob(pattern, name[1..]))
    else if name == [] then false
    else (pattern[0] == '?' || pattern[0] == name[0]) && Glob(pattern[1..], name[1..])
  }

  predicate NoWildcards(p: string)
  {
    forall k :: 0 <= k < |p| ==> p[k] != '*' && p[k] != '?'
  }

  /** A pattern without wildcards matches exactly itself. */
  lemma {:induction false} GlobLiteral(p: string, name: string)
    requires NoWildcards(p)
    ensures Glob(p, name) <==> p == name
    decreases |p|
  {
    if p != [] && name != [] {
      GlobLiteral(p[1..], name[1..]);
      if p[1..] == name[1..] && p[0] == name[0] {
        assert p == [p[0]] + p[1..] && name == [name[0]] + name[1..];
      }
    }
  }

  /** `*` matches every name. */
  lemma {:induction false} GlobStarMatchesAll(name: string)
    ensures Glob("*", name)
    decreases |name|
  {
    if name != [] {
      GlobStarMatchesAll(name[1..]);
    }
  }

  /** A literal prefix followed by `*` matches exactly the names that start with the prefix. */
  lemma {:induction false} GlobPrefixStar(p: string, name: string)
    requires NoWildcards(p)
    ensures Glob(p + "*", name) <==> StartsWith(name, p)
    decreases |p|
  {
    if p == [] {
      assert p + "*" == "*";
      GlobStarMatchesAll(name);
    } else if name == [] {
    } else {
      assert (p + "*")[0] == p[0] && (p + "*")[1..] == p[1..] + "*";
      GlobPrefixStar(p[1..], name[1..]);
      if StartsWith(name[1..], p[1..]) && p[0] == name[0] {
        assert name[..|p|] == [name[0]] + name[1..][..|p| - 1];
        assert p == [p[0]] + p[1..];
      }
      if StartsWith(name, p) {
        assert name[1..][..|p| - 1] == name[..|p|][1..];
      }
    }
  }

  /** The patterns `copy_without_render` iterates over: a list's elements, or a string's characters. */
  function Patterns(d: Doc): (r: Result<seq<Doc>>)
    ensures d.List? ==> r == Ok(d.items)
    ensures d.Str? ==> r.Ok? && |r.value| == |d.s| && forall k :: 0 <= k < |d.s| ==> r.value[k] == Str([d.s[k]])
  {
    match d
    case List(items) => Ok(items)
    case Str(s) => Ok(seq(|s|, k requires 0 <= k < |s| => Str([s[k]])))
    case _ => Err(TypeError)
  }

  /** The search over `patterns`, stopping at the first match or the first pattern that is not a string. */
  function CopyOnlyFrom(patterns: seq<Doc>, path: string, sep: string): Result<bool>
    decreases |patterns|
  {
    if patterns == [] then Ok(false)
    else if !patterns[0].Str? then Err(TypeError)
    else if Glob(patterns[0].s, path) || Glob("." + sep + patterns[0].s, path) then Ok(true)
    else CopyOnlyFrom(patterns[1..], path, sep)
  }

  /** What `is_copy_only_path` returns. */
  function CopyOnlySpec(copyWithoutRender: Doc, path: string, sep: string): Result<bool>
  {
    if copyWithoutRender.Null? then Ok(false)
    else
      match Patterns(copyWithoutRender)
      case Err(e) => Err(e)
      case Ok(ps) => CopyOnlyFrom(ps, path, sep)
  }

  /** A string pattern matches `path` itself or `path` under `.` and the separator. */
  predicate PatternMatches(p: Doc, path: string, sep: string)
  {
    p.Str? && (Glob(p.s, path) || Glob("." + sep + p.s, path))
  }

  /**
   * Over string patterns, a path is copy-only exactly when some pattern matches it
   * directly or with the `./` prefix.
   */
  lemma {:induction false} CopyOnlyIffSomePatternMatches(patterns: seq<Doc>, path: string, sep: string)
    requires forall k :: 0 <= k < |patterns| ==> patterns[k].Str?
    ensures CopyOnlyFrom(patterns, path, sep) == Ok(exists k :: 0 <= k < |patterns| && PatternMatches(patterns[k], path, sep))
    decreases |patterns|
  {
    if patterns != [] {
      CopyOnlyIffSomePatternMatches(patterns[1..], path, sep);
      assert forall k :: 1 <= k < |patterns| ==> patterns[k] == patterns[1..][k - 1];
      if PatternMatches(patterns[0], path, sep) {
        assert exists k :: 0 <= k < |patterns| && PatternMatches(patterns[k], path, sep);
      }
      if exists k :: 0 <= k < |patterns| && PatternMatches(patterns[k], path, sep) {
        var k :| 0 <= k < |patterns| && PatternMatches(patterns[k], path, sep);
        if k > 0 {
          assert PatternMatches(patterns[1..][k - 1], path, sep);
        }
      }
    }
  }

  /** With no patterns configured nothing is copy-only. */
  lemma NoPatternsNothingCopyOnly(path: string, sep: string)
    ensures CopyOnlySpec(Null, path, sep) == Ok(false)
    ensures CopyOnlySpec(List([]), path, sep) == Ok(false)
  {
  }
}
