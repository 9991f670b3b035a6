/**
 * Path and source classifiers (tackle/utils/paths.py): abbreviation expansion, the
 * repository-URL and file-name tests, and the upward search for a tackle base.
 *
 * The file system is an oracle: `pathExists` and `isFile` answer for a path string, and a
 * directory listing (`os.scandir`) is a function from a path to its entries, `None` when
 * the path is not a directory. Paths searched upwards are absolute and given as their
 * segments (`[]` is `/`).
 */
module Paths {
  import opened Wrappers
  import opened Document
  import Strings

  // ---------------------------------------------------------------------------------
  // expand_abbreviations

  /** How the replacement fields of a format string have been numbered so far. */
  datatype Numbering = Unset | Auto | Manual

  function Prepend(prefix: string, r: Result<string>): Result<string>
  {
    match r
    case Ok(s) => Ok(prefix + s)
    case Err(e) => Err(e)
  }

  /** The position of the first `}` in `s` at or after `j`. */
  function CloseBrace(s: string, j: nat): (r: Option<nat>)
    ensures r.Some? ==> j <= r.value < |s| && s[r.value] == '}'
    decreases |s| - j
  {
    if j >= |s| then None
    else if s[j] == '}' then Some(j)
    else CloseBrace(s, j + 1)
  }

  /**
   * `s.format(arg)` with a single positional argument, from numbering state `mode` with
   * `used` automatic fields already filled: `{{` and `}}` are literal braces, `{}` and
   * `{0}` are `arg`; a second `{}`, a mix of `{}` and `{0}`, an unmatched brace or any
   * other field is an error.
   */
  function FormatFrom(s: string, arg: string, mode: Numbering, used: nat): Result<string>
    decreases |s|
  {
    if s == [] then Ok([])
    else if s[0] == '{' then
      if |s| > 1 && s[1] == '{' then Prepend("{", FormatFrom(s[2..], arg, mode, used))
      else
        match CloseBrace(s, 1)
        case None => Err(ValueError)
        case Some(j) =>
          var field := s[1..j];
          if field == "" then
            if mode == Manual then Err(ValueError)
            else if used >= 1 then Err(IndexError)
            else Prepend(arg, FormatFrom(s[j + 1..], arg, Auto, used + 1))
          else if field == "0" then
            if mode == Auto then Err(ValueError)
            else Prepend(arg, FormatFrom(s[j + 1..], arg, Manual, used))
          else Err(ValueError)
    else if s[0] == '}' then
      if |s| > 1 && s[1] == '}' then Prepend("}", FormatFrom(s[2..], arg, mode, used))
      else Err(ValueError)
    else Prepend([s[0]], FormatFrom(s[1..], arg, mode, used))
  }

  /** `s.format(arg)` */
  function Format(s: string, arg: string): Result<string>
  {
    FormatFrom(s, arg, Unset, 0)
  }

  predicate BraceFree(s: string)
  {
    forall k :: 0 <= k < |s| ==> s[k] != '{' && s[k] != '}'
  }

  /** A string without braces formats to itself. */
  lemma {:induction false} FormatBraceFree(s: string, arg: string, mode: Numbering, used: nat)
    requires BraceFree(s)
    ensures FormatFrom(s, arg, mode, used) == Ok(s)
    decreases |s|
  {
    if s != [] {
      FormatBraceFree(s[1..], arg, mode, used);
      assert [s[0]] + s[1..] == s;
    }
  }

  /** `{0}` at the start of a brace-free text is replaced by the argument. */
  lemma FormatManualFieldFirst(q: string, arg: string)
    requires BraceFree(q)
    ensures FormatFrom("{0}" + q, arg, Unset, 0) == Ok(arg + q)
  {
    var s := "{0}" + q;
    assert s[0] == '{' && s[1] == '0' && s[2] == '}';
    assert CloseBrace(s, 2) == Some(2);
    assert CloseBrace(s, 1) == Some(2);
    assert s[1..2] == "0" && s[3..] == q;
    FormatBraceFree(q, arg, Manual, 0);
  }

  /** `{}` at the start of a brace-free text is replaced by the argument. */
  lemma FormatAutoFieldFirst(q: string, arg: string)
    requires BraceFree(q)
    ensures FormatFrom("{}" + q, arg, Unset, 0) == Ok(arg + q)
  {
    var s := "{}" + q;
    assert s[0] == '{' && s[1] == '}';
    assert CloseBrace(s, 1) == Some(1);
    assert s[1..1] == "" && s[2..] == q;
    FormatBraceFree(q, arg, Auto, 1);
  }

  /** A format string with one field `{0}` (or `{}`) and no other braces gets `arg` in its place. */
  lemma {:induction false} FormatOneField(p: string, field: string, q: string, arg: string)
    requires BraceFree(p) && BraceFree(q)
    requires field == "{0}" || field == "{}"
    ensures Format(p + field + q, arg) == Ok(p + arg + q)
    decreases |p|
  {
    if p == [] {
      assert p + field + q == field + q && p + arg + q == arg + q;
      if field == "{0}" {
        FormatManualFieldFirst(q, arg);
      } else {
        FormatAutoFieldFirst(q, arg);
      }
    } else {
      var s := p + field + q;
      assert s[0] == p[0] && s[1..] == p[1..] + field + q;
      FormatOneField(p[1..], field, q, arg);
      assert [p[0]] + (p[1..] + arg + q) == p + arg + q;
    }
  }

  /** `template.partition(':')`: the text before the first colon, and the text after it ("" without one). */
  function Partition(template: string): (r: (string, string))
    ensures !Strings.Contains(template, ":") ==> r == (template, "")
    ensures Strings.Contains(template, ":") ==> template == r.0 + ":" + r.1 && !Strings.Contains(r.0, ":")
  {
    Strings.FindIsLeftmost(template, ":");
    match Strings.Find(template, ":")
    case None => (template, "")
    case Some(i) =>
      assert template == template[..i] + ":" + template[i + 1..];
      assert !Strings.Contains(template[..i], ":") by {
        forall k: nat | k <= |template[..i]| && Strings.OccursAt(template[..i], ":", k)
          ensures false
        {
          assert Strings.OccursAt(template, ":", k);
        }
      }
      (template[..i], template[i + 1..])
  }

  /** `expand_abbreviations(template, abbreviations)` */
  function ExpandAbbreviations(template: string, abbreviations: map<string, string>): (r: Result<string>)
    ensures template in abbreviations ==> r == Ok(abbreviations[template])
    ensures template !in abbreviations && Partition(template).0 !in abbreviations ==> r == Ok(template)
  {
    if template in abbreviations then Ok(abbreviations[template])
    else
      var (prefix, rest) := Partition(template);
      if prefix in abbreviations then Format(abbreviations[prefix], rest)
      else Ok(template)
  }

  /** `prefix:rest` with an abbreviation `prefix` of the form `p{0}q` expands to `p` + `rest` + `q`. */
  lemma ExpandAbbreviationsPrefix(prefix: string, rest: string, abbreviations: map<string, string>, p: string, q: string)
    requires !Strings.Contains(prefix, ":")
    requires prefix + ":" + rest !in abbreviations
    requires prefix in abbreviations && abbreviations[prefix] == p + "{0}" + q
    requires BraceFree(p) && BraceFree(q)
    ensures ExpandAbbreviations(prefix + ":" + rest, abbreviations) == Ok(p + rest + q)
  {
    var template := prefix + ":" + rest;
    assert Strings.OccursAt(template, ":", |prefix|);
    var (pre, post) := Partition(template);
    PartitionUnique(template, prefix, rest, pre, post);
    FormatOneField(p, "{0}", q, rest);
  }

  /** The split at the first colon is the only one whose left part has no colon. */
  lemma PartitionUnique(template: string, a: string, b: string, c: string, d: string)
    requires template == a + ":" + b && template == c + ":" + d
    requires !Strings.Contains(a, ":") && !Strings.Contains(c, ":")
    ensures a == c && b == d
  {
    if |a| < |c| {
      assert Strings.OccursAt(c, ":", |a|) by {
        assert c[|a|] == template[|a|] == ':';
        assert c[|a|..|a| + 1] == [':'];
      }
    } else if |c| < |a| {
      assert Strings.OccursAt(a, ":", |c|) by {
        assert a[|c|] == template[|c|] == ':';
        assert a[|c|..|c| + 1] == [':'];
      }
    } else {
      assert a == template[..|a|] == c;
      assert b == template[|a| + 1..] == d;
    }
  }

  // ---------------------------------------------------------------------------------
  // is_repo_url

  /** A character of the class `[\w,\-,\_]`, with `\w` read as ASCII letters, digits and `_`. */
  predicate IsWordChar(c: char)
  {
    ('a' <= c <= 'z') || ('A' <= c <= 'Z') || ('0' <= c <= '9') || c == '_' || c == ',' || c == '-'
  }

  predicate AllWordChars(s: string)
  {
    forall k :: 0 <= k < |s| ==> IsWordChar(s[k])
  }

  /** `[\w,\-,\_]+\/[\w,\-,\_]+` matching all of `s`. */
  predicate WordSlashWord(s: string)
  {
    exists k :: 0 < k < |s| - 1 && s[k] == '/' && AllWordChars(s[..k]) && AllWordChars(s[k + 1..])
  }

  /** What `$` leaves to match: the value without one trailing newline. */
  function BeforeEnd(v: string): string
  {
    if |v| > 0 && v[|v| - 1] == '\n' then v[..|v| - 1] else v
  }

  /** `(git|ssh|file|https?):` at the start of `v`. */
  predicate SchemeColon(v: string)
  {
    StartsWith(v, "git:") || StartsWith(v, "ssh:") || StartsWith(v, "file:") || StartsWith(v, "http:") || StartsWith(v, "https:")
  }

  /** `((git|hg)\+)?(git|ssh|file|https?):` at the start of `v`. */
  predicate SchemePrefix(v: string)
  {
    SchemeColon(v) || (StartsWith(v, "git+") && SchemeColon(v[4..])) || (StartsWith(v, "hg+") && SchemeColon(v[3..]))
  }

  /** One repetition of `(github.com|gitlab.com)`, whose `.` is any character but a newline. */
  predicate HostBlock(b: string)
  {
    |b| == 10 && (b[..6] == "github" || b[..6] == "gitlab") && b[6] != '\n' && b[7..] == "com"
  }

  /** `(github.com|gitlab.com)+\/[\w,\-,\_]+\/[\w,\-,\_]+` matching all of `s`. */
  predicate HostPath(s: string)
    decreases |s|
  {
    |s| >= 10 && HostBlock(s[..10]) &&
      ((|s| > 10 && s[10] == '/' && WordSlashWord(s[11..])) || HostPath(s[10..]))
  }

  /** `is_repo_url(value)`; `pathExists` is `os.path.exists`. */
  function IsRepoUrl(value: string, pathExists: string -> bool): (r: bool)
    ensures SchemePrefix(value) ==> r
    ensures r && !SchemePrefix(value) && !HostPath(BeforeEnd(value)) ==> WordSlashWord(BeforeEnd(value)) && !pathExists(value)
  {
    if SchemePrefix(value) || HostPath(BeforeEnd(value)) then true
    else if WordSlashWord(BeforeEnd(value)) then !pathExists(value)
    else false
  }

  /** `s` does not start with `p` when they differ at some position `j` of `p`. */
  lemma NotPrefixAt(s: string, p: string, j: nat)
    requires j < |p| && (j >= |s| || s[j] != p[j])
    ensures !StartsWith(s, p)
  {
    if |p| <= |s| {
      assert s[..|p|][j] == s[j];
    }
  }

  /** No scheme prefix can start a value without `:` and `+` in its first six characters. */
  lemma NoSchemeWithoutColon(v: string)
    requires forall j :: 0 <= j < |v| && j < 6 ==> v[j] != ':' && v[j] != '+'
    ensures !SchemePrefix(v)
  {
    NotPrefixAt(v, "git:", 3);
    NotPrefixAt(v, "ssh:", 3);
    NotPrefixAt(v, "file:", 4);
    NotPrefixAt(v, "http:", 4);
    NotPrefixAt(v, "https:", 5);
    NotPrefixAt(v, "git+", 3);
    NotPrefixAt(v, "hg+", 2);
  }

  /** A value whose first character is none of `g`, `s`, `f`, `h` has no scheme prefix. */
  lemma NoSchemeFirstChar(v: string)
    requires |v| > 0 && v[0] != 'g' && v[0] != 's' && v[0] != 'f' && v[0] != 'h'
    ensures !SchemePrefix(v)
  {
    NotPrefixAt(v, "git:", 0);
    NotPrefixAt(v, "ssh:", 0);
    NotPrefixAt(v, "file:", 0);
    NotPrefixAt(v, "http:", 0);
    NotPrefixAt(v, "https:", 0);
    NotPrefixAt(v, "git+", 0);
    NotPrefixAt(v, "hg+", 0);
  }

  /** A character outside the class (other than a slash past the start) rules out `word/word`. */
  lemma NotWordSlashWordAt(s: string, j: nat)
    requires j < |s| && !IsWordChar(s[j]) && (j == 0 || s[j] != '/')
    ensures !WordSlashWord(s)
  {
    forall k | 0 < k < |s| - 1 && s[k] == '/'
      ensures !AllWordChars(s[..k]) || !AllWordChars(s[k + 1..])
    {
      if j < k {
        assert s[..k][j] == s[j];
      } else {
        assert s[k + 1..][j - k - 1] == s[j];
      }
    }
  }

  /** A value that differs from both `github` and `gitlab` at one of their positions starts no host block. */
  lemma NotHostPathAt(s: string, j: nat)
    requires j < 6 && j < |s| && s[j] != "github"[j] && s[j] != "gitlab"[j]
    ensures !HostPath(s)
  {
    if |s| >= 10 {
      assert s[..10][..6][j] == s[j];
    }
  }

  /** Word characters hold no slash. */
  lemma WordsHaveNoSlash(s: string)
    requires AllWordChars(s)
    ensures multiset(s)['/'] == 0
  {
    assert forall k :: 0 <= k < |s| ==> s[k] != '/';
  }

  /** `word/word` holds exactly one slash. */
  lemma WordSlashWordSlashes(s: string)
    requires WordSlashWord(s)
    ensures multiset(s)['/'] == 1
  {
    var k :| 0 < k < |s| - 1 && s[k] == '/' && AllWordChars(s[..k]) && AllWordChars(s[k + 1..]);
    WordsHaveNoSlash(s[..k]);
    WordsHaveNoSlash(s[k + 1..]);
    assert s == s[..k] + [s[k]] + s[k + 1..];
  }

  /** A host path holds at least two slashes: the one after the hosts and the one between the words. */
  lemma {:induction false} HostPathSlashes(s: string)
    requires HostPath(s)
    ensures multiset(s)['/'] >= 2
    decreases |s|
  {
    assert s == s[..10] + s[10..];
    if |s| > 10 && s[10] == '/' && WordSlashWord(s[11..]) {
      WordSlashWordSlashes(s[11..]);
      assert s[10..] == [s[10]] + s[11..];
    } else {
      HostPathSlashes(s[10..]);
    }
  }

  /** A bare `org/repo` is a repository exactly when no local path of that name exists. */
  lemma OrgRepoIsRepoUrl(org: string, repo: string, pathExists: string -> bool)
    requires |org| > 0 && |repo| > 0 && AllWordChars(org) && AllWordChars(repo)
    ensures IsRepoUrl(org + "/" + repo, pathExists) <==> !pathExists(org + "/" + repo)
  {
    var v := org + "/" + repo;
    assert v[..|org|] == org && v[|org| + 1..] == repo;
    assert WordSlashWord(v);
    assert BeforeEnd(v) == v by {
      assert v[|v| - 1] == repo[|repo| - 1];
    }
    assert !SchemePrefix(v) by {
      forall j | 0 <= j < |v| && j < 6
        ensures v[j] != ':' && v[j] != '+'
      {
        if j < |org| {
          assert v[j] == org[j];
        } else if j > |org| {
          assert v[j] == repo[j - |org| - 1];
        }
      }
      NoSchemeWithoutColon(v);
    }
    assert !HostPath(v) by {
      WordSlashWordSlashes(v);
      if HostPath(v) {
        HostPathSlashes(v);
      }
    }
  }

  /** An absolute path starts with `/`, which no alternative of the pattern accepts. */
  lemma AbsolutePathIsNotRepoUrl(value: string, pathExists: string -> bool)
    requires |value| > 0 && value[0] == '/'
    ensures !IsRepoUrl(value, pathExists)
  {
    NoSchemeFirstChar(value);
    var b := BeforeEnd(value);
    if |b| > 0 {
      assert b[0] == '/';
      NotHostPathAt(b, 0);
      NotWordSlashWordAt(b, 0);
    }
  }

  /** `gh:org/repo` is not a repository URL until its abbreviation is expanded. */
  lemma AbbreviatedIsNotRepoUrl(rest: string, pathExists: string -> bool)
    ensures !IsRepoUrl("gh:" + rest, pathExists)
  {
    var v := "gh:" + rest;
    assert v[0] == 'g' && v[1] == 'h' && v[2] == ':';
    NotPrefixAt(v, "git:", 1);
    NotPrefixAt(v, "git+", 1);
    NotPrefixAt(v, "ssh:", 0);
    NotPrefixAt(v, "file:", 0);
    NotPrefixAt(v, "http:", 1);
    NotPrefixAt(v, "https:", 1);
    NotPrefixAt(v, "hg+", 2);
    var b := BeforeEnd(v);
    assert |b| > 2 && b[1] == 'h' && b[2] == ':' by {
      if v[|v| - 1] == '\n' {
        assert b == v[..|v| - 1];
      }
    }
    NotHostPathAt(b, 1);
    NotWordSlashWordAt(b, 2);
  }

  /** Every URL with a version-control or transport scheme is accepted, whatever follows. */
  lemma SchemeUrlsAreRepoUrls(rest: string, pathExists: string -> bool)
    ensures IsRepoUrl("https:" + rest, pathExists) && IsRepoUrl("git+https:" + rest, pathExists)
    ensures IsRepoUrl("hg+https:" + rest, pathExists) && IsRepoUrl("file:" + rest, pathExists)
    ensures IsRepoUrl("git:" + rest, pathExists) && IsRepoUrl("ssh:" + rest, pathExists)
  {
    assert StartsWith("https:" + rest, "https:");
    assert ("git+https:" + rest)[4..] == "https:" + rest;
    assert StartsWith("git+https:" + rest, "git+");
    assert ("hg+https:" + rest)[3..] == "https:" + rest;
    assert StartsWith("hg+https:" + rest, "hg+");
    assert StartsWith("file:" + rest, "file:");
    assert StartsWith("git:" + rest, "git:");
    assert StartsWith("ssh:" + rest, "ssh:");
  }

  /** The scp-like form `user@host:path` matches no alternative of the pattern. */
  lemma ScpLikeIsNotRepoUrl(user: string, rest: string, pathExists: string -> bool)
    requires |user| == 3 && user[0] == 'g' && user[1] == 'i' && user[2] == 't'
    ensures !IsRepoUrl(user + "@" + rest, pathExists)
  {
    var v := user + "@" + rest;
    assert v[0] == 'g' && v[1] == 'i' && v[2] == 't' && v[3] == '@';
    NotPrefixAt(v, "git:", 3);
    NotPrefixAt(v, "git+", 3);
    NotPrefixAt(v, "ssh:", 0);
    NotPrefixAt(v, "file:", 0);
    NotPrefixAt(v, "http:", 0);
    NotPrefixAt(v, "https:", 0);
    NotPrefixAt(v, "hg+", 0);
    var b := BeforeEnd(v);
    assert |b| > 3 && b[3] == '@' by {
      if v[|v| - 1] == '\n' {
        assert b == v[..|v| - 1];
      }
    }
    NotHostPathAt(b, 3);
    NotWordSlashWordAt(b, 3);
  }

  // ---------------------------------------------------------------------------------
  // is_file

  /** `^.*\.(yaml|yml|json|toml)$`: no newline before the extension, at most one after it. */
  predicate HasTackleExtension(value: string)
  {
    var b := BeforeEnd(value);
    (forall k :: 0 <= k < |b| ==> b[k] != '\n') &&
      (EndsWith(b, ".yaml") || EndsWith(b, ".yml") || EndsWith(b, ".json") || EndsWith(b, ".toml"))
  }

  /** `os.path.join(directory, value)` for POSIX paths. */
  function JoinPath(directory: string, value: string): (r: string)
    ensures |value| > 0 && value[0] == '/' ==> r == value
    ensures EndsWith(r, value)
  {
    if |value| > 0 && value[0] == '/' then value
    else if directory == "" || directory[|directory| - 1] == '/' then directory + value
    else directory + "/" + value
  }

  /** `is_file(value, directory)`; `isFile` is `os.path.isfile`. */
  function IsFile(value: string, directory: Option<string>, isFile: string -> bool): (r: bool)
    ensures !HasTackleExtension(value) ==> !r
    ensures HasTackleExtension(value) && directory.None? ==> r == isFile(value)
    ensures HasTackleExtension(value) && directory.Some? ==> r == isFile(JoinPath(directory.value, value))
  {
    if HasTackleExtension(value) then
      var path := if directory.Some? then JoinPath(directory.value, value) else value;
      isFile(path)
    else false
  }

  // ---------------------------------------------------------------------------------
  // find_tackle_base_in_parent_dir / is_directory_with_tackle

  /** `DEFAULT_TACKLE_FILES` */
  const DefaultTackleFiles: set<string> :=
    {".tackle.yaml", ".tackle.yml", ".tackle.json", ".tackle.toml", "tackle.yaml", "tackle.yml", "tackle.json", "tackle.toml"}

  /** `DEFAULT_HOOKS_DIRECTORIES` */
  const DefaultHooksDirectories: set<string> := {"hooks", ".hooks"}

  /** An entry of a directory listing. */
  datatype DirEntry = DirEntry(name: string, isDir: bool, isFile: bool)

  /** An absolute path as its segments; `[]` is the root `/`. */
  type Path = seq<string>

  /** `find_hooks_directory_in_dir(dir) is not None` */
  predicate HasHooksDirectory(entries: seq<DirEntry>)
  {
    exists k :: 0 <= k < |entries| && entries[k].isDir && entries[k].name in DefaultHooksDirectories
  }

  /** `find_tackle_file_in_dir(dir) is not None` */
  predicate HasTackleFile(entries: seq<DirEntry>)
  {
    exists k :: 0 <= k < |entries| && entries[k].isFile && entries[k].name in DefaultTackleFiles
  }

  /** A tackle base: a directory with a hooks directory or a tackle file in it. */
  predicate IsTackleBase(listing: Path -> Option<seq<DirEntry>>, dir: Path)
  {
    listing(dir).Some? && (HasHooksDirectory(listing(dir).value) || HasTackleFile(listing(dir).value))
  }

  /** What the upward search returns: a directory, the fallback, or nothing. */
  datatype Found = FoundDir(dir: Path) | FoundFallback(fallback: Doc) | NotFound

  /**
   * `find_tackle_base_in_parent_dir(dir, fallback)`; listing a path that is not a
   * directory raises.
   */
  function FindTackleBase(dir: Path, fallback: Doc, listing: Path -> Option<seq<DirEntry>>): Result<Found>
    decreases |dir|
  {
    match listing(dir)
    case None => Err(NotADirectory)
    case Some(entries) =>
      if HasHooksDirectory(entries) then Ok(FoundDir(dir))
      else if HasTackleFile(entries) then Ok(FoundDir(dir))
      else if dir == [] then
        if Truthy(fallback) then Ok(FoundFallback(fallback)) else Ok(NotFound)
      else FindTackleBase(dir[..|dir| - 1], fallback, listing)
  }

  /**
   * The search finds the nearest tackle base among `dir` and its ancestors; only when there
   * is none does it give the fallback (when truthy) or nothing.
   */
  lemma {:induction false} FindTackleBaseIsNearest(dir: Path, fallback: Doc, listing: Path -> Option<seq<DirEntry>>)
    requires FindTackleBase(dir, fallback, listing).Ok?
    ensures var r := FindTackleBase(dir, fallback, listing).value;
      && (r.FoundDir? ==> |r.dir| <= |dir| && r.dir == dir[..|r.dir|] && IsTackleBase(listing, r.dir)
                          && forall n :: |r.dir| < n <= |dir| ==> !IsTackleBase(listing, dir[..n]))
      && (r.FoundFallback? ==> r.fallback == fallback && Truthy(fallback))
      && (r.NotFound? ==> !Truthy(fallback))
      && (!r.FoundDir? ==> forall n :: 0 <= n <= |dir| ==> !IsTackleBase(listing, dir[..n]))
    decreases |dir|
  {
    var entries := listing(dir).value;
    if HasHooksDirectory(entries) || HasTackleFile(entries) {
      assert dir[..|dir|] == dir;
    } else if dir == [] {
    } else {
      var parent := dir[..|dir| - 1];
      FindTackleBaseIsNearest(parent, fallback, listing);
      assert dir[..|dir|] == dir;
      assert forall n :: 0 <= n <= |parent| ==> parent[..n] == dir[..n];
    }
  }

  /** `find_tackle_base_in_parent_dir_with_exception` */
  function FindTackleBaseWithException(dir: Path, fallback: Doc, listing: Path -> Option<seq<DirEntry>>): (r: Result<Found>)
    ensures r == Err(UnknownSource) <==> FindTackleBase(dir, fallback, listing) == Ok(NotFound)
    ensures r.Ok? ==> r == FindTackleBase(dir, fallback, listing) && !r.value.NotFound?
  {
    match FindTackleBase(dir, fallback, listing)
    case Err(e) => (assert e != UnknownSource by { FindTackleBaseErrors(dir, fallback, listing); } Err(e))
    case Ok(NotFound) => Err(UnknownSource)
    case Ok(found) => Ok(found)
  }

  /** The only error of the plain search is a path that cannot be listed. */
  lemma {:induction false} FindTackleBaseErrors(dir: Path, fallback: Doc, listing: Path -> Option<seq<DirEntry>>)
    ensures FindTackleBase(dir, fallback, listing).Err? ==> FindTackleBase(dir, fallback, listing).error == NotADirectory
    decreases |dir|
  {
    if listing(dir).Some? && dir != [] {
      FindTackleBaseErrors(dir[..|dir| - 1], fallback, listing);
    }
  }

  /** `is_directory_with_tackle(dir)` */
  function IsDirectoryWithTackle(dir: Path, listing: Path -> Option<seq<DirEntry>>): (r: bool)
    ensures listing(dir).None? ==> !r
  {
    match listing(dir)
    case None => false
    case Some(entries) => AnyTackleEntry(entries)
  }

  /** The scan of `is_directory_with_tackle`: some entry is a hooks directory or a tackle file. */
  function AnyTackleEntry(entries: seq<DirEntry>): (r: bool)
    ensures r <==> HasHooksDirectory(entries) || HasTackleFile(entries)
  {
    if entries == [] then false
    else
      var e := entries[0];
      if e.isDir && e.name in DefaultHooksDirectories then true
      else if e.isFile && e.name in DefaultTackleFiles then true
      else
        var rest := AnyTackleEntry(entries[1..]);
        assert forall k :: 1 <= k < |entries| ==> entries[k] == entries[1..][k - 1];
        rest
  }

  /** A directory holds a tackle base exactly when the upward search stops at it. */
  lemma DirectoryWithTackleIsBase(dir: Path, fallback: Doc, listing: Path -> Option<seq<DirEntry>>)
    ensures IsDirectoryWithTackle(dir, listing) <==> FindTackleBase(dir, fallback, listing) == Ok(FoundDir(dir))
  {
    if listing(dir).Some? && !IsDirectoryWithTackle(dir, listing) && dir != [] {
      var parent := dir[..|dir| - 1];
      if FindTackleBase(parent, fallback, listing).Ok? {
        FindTackleBaseIsNearest(parent, fallback, listing);
      }
    }
  }
}
