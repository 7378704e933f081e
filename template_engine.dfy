/**
 * The template engine of the pretty-page handler: an ordered list of search
 * roots, a name-to-path cache filled on first successful lookup and never
 * invalidated, template execution as a render request, and the pure string
 * helpers that templates call (`pick`, `escape`, `slug`).
 *
 * The filesystem is a parameter: `readable` is the set of paths for which
 * `is_readable` holds at the time of the call.
 */
module Templates {
  import opened Wrappers
  import opened PhpValues

  // ---------------------------------------------------------------------
  // Joining a search root and a resource name
  // ---------------------------------------------------------------------

  /** `rtrim(s, "/")`: `s` without its trailing slashes. */
  function RTrimSlashes(s: string): string
    decreases |s|
  {
    if |s| == 0 || s[|s| - 1] != '/' then s else RTrimSlashes(s[..|s| - 1])
  }

  /** `ltrim(s, "/")`: `s` without its leading slashes. */
  function LTrimSlashes(s: string): string
    decreases |s|
  {
    if |s| == 0 || s[0] != '/' then s else LTrimSlashes(s[1..])
  }

  /** Right-trimming keeps a prefix, cuts off only slashes, and cuts all of them. */
  lemma {:induction false} RTrimSlashesTrims(s: string)
    ensures var r := RTrimSlashes(s);
      |r| <= |s| && r == s[..|r|] &&
      (forall i | |r| <= i < |s| :: s[i] == '/') &&
      (|r| == 0 || r[|r| - 1] != '/')
    decreases |s|
  {
    if |s| > 0 && s[|s| - 1] == '/' {
      RTrimSlashesTrims(s[..|s| - 1]);
    }
  }

  /** Left-trimming keeps a suffix, cuts off only slashes, and cuts all of them. */
  lemma {:induction false} LTrimSlashesTrims(s: string)
    ensures var r := LTrimSlashes(s);
      |r| <= |s| && r == s[|s| - |r|..] &&
      (forall i | 0 <= i < |s| - |r| :: s[i] == '/') &&
      (|r| == 0 || r[0] != '/')
    decreases |s|
  {
    if |s| > 0 && s[0] == '/' {
      LTrimSlashesTrims(s[1..]);
    }
  }

  /**
   * The candidate path for `name` under `root`. Exactly one slash sits at the
   * junction, and the path is never PHP-falsy (it is neither "" nor "0").
   */
  function JoinPath(root: string, name: string): string
  {
    RTrimSlashes(root) + "/" + LTrimSlashes(name)
  }

  /**
   * Exactly one slash sits at the junction of a candidate path, the root's part
   * comes first, and the path is never PHP-falsy (it is neither "" nor "0").
   */
  lemma JoinPathSeparator(root: string, name: string)
    ensures var p, k := JoinPath(root, name), |RTrimSlashes(root)|;
      k <= |root| && k < |p| && p[k] == '/' && p[..k] == root[..k] &&
      (k == 0 || p[k - 1] != '/') && (k + 1 == |p| || p[k + 1] != '/') &&
      Truthy(VString(p))
  {
    RTrimSlashesTrims(root);
    LTrimSlashesTrims(name);
  }

  // ---------------------------------------------------------------------
  // The search specification
  // ---------------------------------------------------------------------

  /**
   * The index of the highest root among `paths[..n]` whose candidate path is
   * readable, if any: the scan goes from the last-added root back to the first.
   */
  function HighestReadable(paths: seq<string>, name: string, readable: set<string>, n: nat): (r: Option<nat>)
    requires n <= |paths|
    ensures r.Some? ==>
      r.value < n && JoinPath(paths[r.value], name) in readable &&
      forall j | r.value < j < n :: JoinPath(paths[j], name) !in readable
    ensures r.None? ==> forall j | 0 <= j < n :: JoinPath(paths[j], name) !in readable
    decreases n
  {
    if n == 0 then None
    else if JoinPath(paths[n - 1], name) in readable then Some(n - 1)
    else HighestReadable(paths, name, readable, n - 1)
  }

  /** The readable root with no readable root above it is the one the scan stops at. */
  lemma {:induction false} HighestReadableIs(paths: seq<string>, name: string, readable: set<string>, i: nat, n: nat)
    requires i < n <= |paths|
    requires JoinPath(paths[i], name) in readable
    requires forall j | i < j < n :: JoinPath(paths[j], name) !in readable
    ensures HighestReadable(paths, name, readable, n) == Some(i)
    decreases n
  {
    if n - 1 != i {
      HighestReadableIs(paths, name, readable, i, n - 1);
    }
  }

  /** The errors the engine throws (both are RuntimeException in the source). */
  datatype EngineError =
    | NoSearchPaths(resource: string)
    | NotFound(resource: string, searchPaths: seq<string>)

  /** What `findResource` returns: an error, a path, or null when nothing is readable. */
  function Find(paths: seq<string>, name: string, readable: set<string>): Result<Option<string>, EngineError>
  {
    if |paths| == 0 then Failure(NoSearchPaths(name))
    else
      match HighestReadable(paths, name, readable, |paths|)
      case Some(i) => Success(Some(JoinPath(paths[i], name)))
      case None => Success(None)
  }

  /** What `getResource` returns: the cached path if any, else the result of a search. */
  function Resolve(cache: map<string, string>, paths: seq<string>, name: string, readable: set<string>): Result<string, EngineError>
  {
    if name in cache then Success(cache[name])
    else
      match Find(paths, name, readable)
      case Failure(e) => Failure(e)
      case Success(Some(p)) => Success(p)
      case Success(None) => Failure(NotFound(name, paths))
  }

  /** The cache after a lookup: only a successful search writes, and only under `name`. */
  function CacheAfter(cache: map<string, string>, paths: seq<string>, name: string, readable: set<string>): map<string, string>
  {
    if name in cache then cache
    else
      match Find(paths, name, readable)
      case Success(Some(p)) => cache[name := p]
      case _ => cache
  }

  /** With no search roots and nothing cached, the error is "no search paths", never "not found". */
  lemma NoRootsIsMisconfiguration(cache: map<string, string>, name: string, readable: set<string>)
    requires name !in cache
    ensures Resolve(cache, [], name, readable) == Failure(NoSearchPaths(name))
    ensures CacheAfter(cache, [], name, readable) == cache
  {
  }

  /**
   * Without a cache entry, a lookup succeeds exactly when some root holds a
   * readable candidate, and it then returns the candidate of the highest such root.
   */
  lemma ResolveSearchesHighestRoot(cache: map<string, string>, paths: seq<string>, name: string, readable: set<string>)
    requires name !in cache && |paths| > 0
    ensures Resolve(cache, paths, name, readable).Success? <==>
      exists i | 0 <= i < |paths| :: JoinPath(paths[i], name) in readable
    ensures forall i | 0 <= i < |paths| && JoinPath(paths[i], name) in readable ::
      (forall j | i < j < |paths| :: JoinPath(paths[j], name) !in readable) ==>
        Resolve(cache, paths, name, readable) == Success(JoinPath(paths[i], name))
    ensures Resolve(cache, paths, name, readable).Failure? ==>
      Resolve(cache, paths, name, readable) == Failure(NotFound(name, paths))
  {
    var h := HighestReadable(paths, name, readable, |paths|);
    if h.Some? {
      assert JoinPath(paths[h.value], name) in readable;
    }
  }

  /** The last-added root overrides every earlier one. */
  lemma LastRootOverrides(cache: map<string, string>, paths: seq<string>, root: string, name: string, readable: set<string>)
    requires name !in cache && JoinPath(root, name) in readable
    ensures Resolve(cache, paths + [root], name, readable) == Success(JoinPath(root, name))
    ensures CacheAfter(cache, paths + [root], name, readable) == cache[name := JoinPath(root, name)]
  {
  }

  /**
   * A cached name resolves to its cached path whatever the roots and the
   * filesystem now are, and a successful lookup caches what it returned: the
   * cache is never invalidated.
   */
  lemma CacheIsNeverInvalidated(cache: map<string, string>, paths: seq<string>, name: string, readable: set<string>,
                                laterPaths: seq<string>, laterReadable: set<string>)
    requires Resolve(cache, paths, name, readable).Success?
    ensures var cache' := CacheAfter(cache, paths, name, readable);
      Resolve(cache', laterPaths, name, laterReadable) == Resolve(cache, paths, name, readable) &&
      CacheAfter(cache', laterPaths, name, laterReadable) == cache'
  {
  }

  /** A lookup changes no cache entry other than `name`'s, and fills that one only on success. */
  lemma LookupWritesOnlyItsName(cache: map<string, string>, paths: seq<string>, name: string, readable: set<string>)
    ensures var cache' := CacheAfter(cache, paths, name, readable);
      (forall k | k != name :: (k in cache' <==> k in cache) && (k in cache ==> cache'[k] == cache[k])) &&
      (Resolve(cache, paths, name, readable).Failure? ==> cache' == cache) &&
      (Resolve(cache, paths, name, readable).Success? ==> name in cache' && cache'[name] == Resolve(cache, paths, name, readable).value)
  {
  }

  // ---------------------------------------------------------------------
  // The engine
  // ---------------------------------------------------------------------

  /** A template execution: the resolved template path and the variables extracted into its scope. */
  datatype Render = Render(path: string, variables: Option<map<string, Value>>)

  class TemplateEngine {
    /** Search roots in the order they were added; the last one has priority. */
    var searchPaths: seq<string>
    /** Resource name to resolved path; written on first successful lookup, never cleared. */
    var resourceCache: map<string, string>
    /** The templates executed so far, in order: the engine's output. */
    var rendered: seq<Render>

    constructor ()
      ensures searchPaths == [] && resourceCache == map[] && rendered == []
    {
      searchPaths := [];
      resourceCache := map[];
      rendered := [];
    }

    /** Appends one root; it becomes the highest-priority one. The cache is untouched. */
    method AddSearchPath(searchPath: string)
      modifies this`searchPaths
      ensures searchPaths == old(searchPaths) + [searchPath]
    {
      searchPaths := searchPaths + [searchPath];
    }

    /** Replaces the whole root list. The cache is untouched. */
    method SetSearchPaths(paths: seq<string>)
      modifies this`searchPaths
      ensures searchPaths == paths
    {
      searchPaths := paths;
    }

    method GetSearchPaths() returns (paths: seq<string>)
      ensures paths == searchPaths
    {
      paths := searchPaths;
    }

    /**
     * Scans the roots from the last one back to the first and caches the first
     * readable candidate. Throws when there are no roots at all; returns null
     * (None) when nothing is readable.
     */
    method FindResource(name: string, readable: set<string>) returns (r: Result<Option<string>, EngineError>)
      modifies this`resourceCache
      ensures r == Find(searchPaths, name, readable)
      ensures resourceCache == if r.Success? && r.value.Some? then old(resourceCache)[name := r.value.value]
                               else old(resourceCache)
    {
      if |searchPaths| == 0 {
        return Failure(NoSearchPaths(name));
      }
      var resourcePath: Option<string> := None;
      var i := |searchPaths| - 1;
      while i >= 0
        invariant -1 <= i < |searchPaths|
        invariant resourcePath == None && resourceCache == old(resourceCache)
        invariant forall j | i < j < |searchPaths| :: JoinPath(searchPaths[j], name) !in readable
      {
        var candidate := JoinPath(searchPaths[i], name);
        if candidate in readable {
          resourcePath := Some(candidate);
          resourceCache := resourceCache[name := candidate];
          HighestReadableIs(searchPaths, name, readable, i, |searchPaths|);
          break;
        }
        i := i - 1;
      }
      r := Success(resourcePath);
    }

    /** Returns the cached path for `name` if there is one, otherwise searches. */
    method GetResource(name: string, readable: set<string>) returns (r: Result<string, EngineError>)
      modifies this`resourceCache
      ensures r == Resolve(old(resourceCache), searchPaths, name, readable)
      ensures resourceCache == CacheAfter(old(resourceCache), searchPaths, name, readable)
    {
      if name in resourceCache {
        return Success(resourceCache[name]);
      }
      var found := FindResource(name, readable);
      match found
      case Failure(e) =>
        r := Failure(e);
      case Success(Some(path)) =>
        JoinPathSeparator(searchPaths[HighestReadable(searchPaths, name, readable, |searchPaths|).value], name);
        if Truthy(VString(path)) {
          r := Success(path);
        } else {
          r := Failure(NotFound(name, searchPaths));
        }
      case Success(None) =>
        r := Failure(NotFound(name, searchPaths));
    }

    /**
     * Whether `name` can be located: true when cached or found, false when no
     * root holds it; having no roots at all is still an error.
     */
    method HasResource(name: string, readable: set<string>) returns (r: Result<bool, EngineError>)
      modifies this`resourceCache
      ensures r.Success? <==> !Resolve(old(resourceCache), searchPaths, name, readable).Failure?
                              || Resolve(old(resourceCache), searchPaths, name, readable).error.NotFound?
      ensures r.Success? ==> (r.value <==> Resolve(old(resourceCache), searchPaths, name, readable).Success?)
      ensures r.Failure? ==> r.error == NoSearchPaths(name)
      ensures resourceCache == CacheAfter(old(resourceCache), searchPaths, name, readable)
    {
      var path := GetResource(name, readable);
      match path
      case Success(_) =>
        r := Success(true);
      case Failure(NotFound(_, _)) =>
        r := Success(false);
      case Failure(e) =>
        r := Failure(e);
    }

    /**
     * Resolves `resource` and executes it with `variables` bound in a scope of
     * its own; resolution errors propagate and nothing is rendered then.
     */
    method ExecuteTemplate(resource: string, variables: Option<map<string, Value>>, readable: set<string>)
      returns (r: Outcome<EngineError>)
      modifies this`resourceCache, this`rendered
      ensures var res := Resolve(old(resourceCache), searchPaths, resource, readable);
        match res
        case Success(path) => r == Pass && rendered == old(rendered) + [Render(path, variables)]
        case Failure(e) => r == Fail(e) && rendered == old(rendered)
      ensures resourceCache == CacheAfter(old(resourceCache), searchPaths, resource, readable)
    {
      var path := GetResource(resource, readable);
      match path
      case Success(p) =>
        rendered := rendered + [Render(p, variables)];
        r := Pass;
      case Failure(e) =>
        r := Fail(e);
    }

    /** `template`: an alias of `executeTemplate`. */
    method Template(resource: string, variables: Option<map<string, Value>>, readable: set<string>)
      returns (r: Outcome<EngineError>)
      modifies this`resourceCache, this`rendered
      ensures var res := Resolve(old(resourceCache), searchPaths, resource, readable);
        match res
        case Success(path) => r == Pass && rendered == old(rendered) + [Render(path, variables)]
        case Failure(e) => r == Fail(e) && rendered == old(rendered)
      ensures resourceCache == CacheAfter(old(resourceCache), searchPaths, resource, readable)
    {
      r := ExecuteTemplate(resource, variables, readable);
    }
  }

  /**
   * A name resolved once keeps resolving to the same path after a root with a
   * readable candidate of its own is added on top.
   */
  method StaleCacheAfterNewRoot(low: string, high: string, name: string, readable: set<string>)
    returns (first: Result<string, EngineError>, second: Result<string, EngineError>)
    requires JoinPath(low, name) in readable && JoinPath(high, name) in readable
    ensures first == Success(JoinPath(low, name)) && second == first
  {
    var engine := new TemplateEngine();
    engine.AddSearchPath(low);
    first := engine.GetResource(name, readable);
    engine.AddSearchPath(high);
    second := engine.GetResource(name, readable);
  }

  // ---------------------------------------------------------------------
  // Helpers exposed to templates
  // ---------------------------------------------------------------------

  /** `$value ?: $defaultValue`. */
  function Pick(value: Value, defaultValue: Value): Value
  {
    if Truthy(value) then value else defaultValue
  }

  /** `pick` keeps a truthy value, and otherwise falls back to the default. */
  lemma PickChoosesTruthy(value: Value, defaultValue: Value)
    ensures Truthy(value) ==> Pick(value, defaultValue) == value
    ensures !Truthy(value) ==> Pick(value, defaultValue) == defaultValue
    ensures Truthy(Pick(value, defaultValue)) <==> Truthy(value) || Truthy(defaultValue)
    ensures Pick(VString(""), defaultValue) == defaultValue && Pick(VString("0"), defaultValue) == defaultValue
    ensures Pick(VString("x"), defaultValue) == VString("x")
  {
  }

  /** The characters `htmlspecialchars` rewrites under ENT_QUOTES. */
  predicate IsHtmlSpecial(c: char)
  {
    c == '&' || c == '<' || c == '>' || c == '"' || c == '\''
  }

  function EscapeChar(c: char): string
  {
    match c
    case '&' => "&amp;"
    case '"' => "&quot;"
    case '\'' => "&#039;"
    case '<' => "&lt;"
    case '>' => "&gt;"
    case _ => [c]
  }

  /**
   * `htmlspecialchars($raw, ENT_QUOTES, 'UTF-8')`: no raw `<`, `>`, `"` or `'`
   * survives, and text without special characters comes back unchanged.
   */
  function Escape(raw: string): string
    decreases |raw|
  {
    if |raw| == 0 then "" else EscapeChar(raw[0]) + Escape(raw[1..])
  }

  /** No raw `<`, `>`, `"` or `'` survives escaping, and escaping never shortens. */
  lemma {:induction false} EscapeRemovesMarkup(raw: string)
    ensures var r := Escape(raw);
      (forall i | 0 <= i < |r| :: r[i] != '<' && r[i] != '>' && r[i] != '"' && r[i] != '\'') &&
      |r| >= |raw|
    decreases |raw|
  {
    if |raw| > 0 {
      EscapeRemovesMarkup(raw[1..]);
      var e, t := EscapeChar(raw[0]), Escape(raw[1..]);
      assert Escape(raw) == e + t;
      forall i | 0 <= i < |e + t|
        ensures (e + t)[i] != '<' && (e + t)[i] != '>' && (e + t)[i] != '"' && (e + t)[i] != '\''
      {
        if i >= |e| {
          assert (e + t)[i] == t[i - |e|];
        }
      }
    }
  }

  /** Text without special characters comes back unchanged. */
  lemma {:induction false} EscapeKeepsPlainText(raw: string)
    requires forall i | 0 <= i < |raw| :: !IsHtmlSpecial(raw[i])
    ensures Escape(raw) == raw
    decreases |raw|
  {
    if |raw| > 0 {
      assert !IsHtmlSpecial(raw[0]);
      EscapeKeepsPlainText(raw[1..]);
      assert [raw[0]] + raw[1..] == raw;
    }
  }

  /** One step of the escape loop: the first character, then the rest. */
  lemma EscapeCons(c: char, t: string)
    ensures Escape([c] + t) == EscapeChar(c) + Escape(t)
  {
    assert ([c] + t)[0] == c && ([c] + t)[1..] == t;
  }

  /** Escaping works character by character: it distributes over concatenation. */
  lemma {:induction false} EscapeAppend(a: string, b: string)
    ensures Escape(a + b) == Escape(a) + Escape(b)
    decreases |a|
  {
    if |a| == 0 {
      assert a + b == b;
    } else {
      var c, rest := a[0], a[1..];
      assert a == [c] + rest;
      assert a + b == [c] + (rest + b);
      calc {
        Escape(a + b);
        { EscapeCons(c, rest + b); }
        EscapeChar(c) + Escape(rest + b);
        { EscapeAppend(rest, b); }
        EscapeChar(c) + (Escape(rest) + Escape(b));
        (EscapeChar(c) + Escape(rest)) + Escape(b);
        { EscapeCons(c, rest); }
        Escape(a) + Escape(b);
      }
    }
  }

  /** Decodes the five entities `Escape` produces (the reference inverse). */
  function Unescape(s: string): string
    decreases |s|
  {
    if |s| == 0 then ""
    else if s[0] != '&' || |s| < 4 then [s[0]] + Unescape(s[1..])
    else if |s| >= 5 && s[1] == 'a' && s[2] == 'm' && s[3] == 'p' && s[4] == ';' then "&" + Unescape(s[5..])
    else if |s| >= 6 && s[1] == 'q' && s[2] == 'u' && s[3] == 'o' && s[4] == 't' && s[5] == ';' then "\"" + Unescape(s[6..])
    else if |s| >= 6 && s[1] == '#' && s[2] == '0' && s[3] == '3' && s[4] == '9' && s[5] == ';' then "'" + Unescape(s[6..])
    else if s[1] == 'l' && s[2] == 't' && s[3] == ';' then "<" + Unescape(s[4..])
    else if s[1] == 'g' && s[2] == 't' && s[3] == ';' then ">" + Unescape(s[4..])
    else [s[0]] + Unescape(s[1..])
  }

  lemma UnescapeEscapedChar(c: char, t: string)
    ensures Unescape(EscapeChar(c) + t) == [c] + Unescape(t)
  {
    var e := EscapeChar(c);
    var s := e + t;
    assert s[|e|..] == t;
    if IsHtmlSpecial(c) {
      assert s[0] == '&' && s[1] == e[1] && s[2] == e[2] && s[3] == e[3];
      if |e| > 4 {
        assert s[4] == e[4];
      }
      if |e| > 5 {
        assert s[5] == e[5];
      }
    } else {
      assert s[0] == c;
    }
  }

  /** Escaping loses nothing: decoding the entities gives the original text back. */
  lemma {:induction false} UnescapeAfterEscape(raw: string)
    ensures Unescape(Escape(raw)) == raw
    decreases |raw|
  {
    if |raw| > 0 {
      UnescapeEscapedChar(raw[0], Escape(raw[1..]));
      UnescapeAfterEscape(raw[1..]);
      assert [raw[0]] + raw[1..] == raw;
    }
  }

  lemma EscapeKeepsScript()
    ensures Escape("script") == "script"
  {
    var w := "script";
    forall i | 0 <= i < |w| ensures !IsHtmlSpecial(w[i]) {
      assert i in {0, 1, 2, 3, 4, 5};
    }
    EscapeKeepsPlainText(w);
  }

  /** `escape("<script>")` is `"&lt;script&gt;"`. */
  lemma EscapeScriptTag()
    ensures Escape("<script>") == "&lt;" + "script" + "&gt;"
  {
    calc {
      Escape("<script>");
      { assert "<script>" == "<script" + ">"; EscapeAppend("<script", ">"); }
      Escape("<script") + Escape(">");
      { assert "<script" == "<" + "script"; EscapeAppend("<", "script"); }
      Escape("<") + Escape("script") + Escape(">");
      { EscapeKeepsScript(); }
      Escape("<") + "script" + Escape(">");
      "&lt;" + "script" + "&gt;";
    }
  }

  /** `\w`, `\d`, `-` and `_`: the characters the slug's pattern keeps. */
  predicate IsWordChar(c: char)
  {
    ('A' <= c <= 'Z') || ('a' <= c <= 'z') || ('0' <= c <= '9') || c == '_' || c == '-'
  }

  /** The characters a slug consists of. */
  predicate IsSlugChar(c: char)
  {
    ('a' <= c <= 'z') || ('0' <= c <= '9') || c == '_' || c == '-'
  }

  /** `str_replace(" ", "-", $s)`. */
  function SpacesToHyphens(s: string): string
  {
    seq(|s|, i requires 0 <= i < |s| => if s[i] == ' ' then '-' else s[i])
  }

  /** `preg_replace('/[^\w\d\-\_]/i', '', $s)`: drops every other character, keeping order. */
  function KeepWordChars(s: string): (r: string)
    ensures |r| <= |s|
    ensures forall i | 0 <= i < |r| :: IsWordChar(r[i])
    decreases |s|
  {
    if |s| == 0 then ""
    else if IsWordChar(s[0]) then [s[0]] + KeepWordChars(s[1..])
    else KeepWordChars(s[1..])
  }

  function LowerChar(c: char): char
  {
    if 'A' <= c <= 'Z' then (c as int - 'A' as int + 'a' as int) as char else c
  }

  /** `strtolower`, ASCII letters only. */
  function ToLower(s: string): string
  {
    seq(|s|, i requires 0 <= i < |s| => LowerChar(s[i]))
  }

  /** `slug`: spaces become hyphens, other non-word characters go, letters are lower-cased. */
  function Slug(original: string): (r: string)
    ensures |r| <= |original|
    ensures forall i | 0 <= i < |r| :: IsSlugChar(r[i])
  {
    ToLower(KeepWordChars(SpacesToHyphens(original)))
  }

  lemma {:induction false} KeepWordCharsKeepsWords(s: string)
    requires forall i | 0 <= i < |s| :: IsWordChar(s[i])
    ensures KeepWordChars(s) == s
    decreases |s|
  {
    if |s| > 0 {
      KeepWordCharsKeepsWords(s[1..]);
      assert [s[0]] + s[1..] == s;
    }
  }

  /** A string is its own slug exactly when it consists of slug characters only. */
  lemma SlugFixedPoints(s: string)
    ensures Slug(s) == s <==> forall i | 0 <= i < |s| :: IsSlugChar(s[i])
  {
    if forall i | 0 <= i < |s| :: IsSlugChar(s[i]) {
      assert SpacesToHyphens(s) == s;
      KeepWordCharsKeepsWords(s);
      assert ToLower(s) == s;
    }
  }

  /** Slugging a slug changes nothing. */
  lemma SlugIdempotent(s: string)
    ensures Slug(Slug(s)) == Slug(s)
  {
    SlugFixedPoints(Slug(s));
  }

  lemma {:induction false} KeepWordCharsAppend(a: string, b: string)
    ensures KeepWordChars(a + b) == KeepWordChars(a) + KeepWordChars(b)
    decreases |a|
  {
    if |a| == 0 {
      assert a + b == b;
    } else {
      assert (a + b)[0] == a[0];
      assert (a + b)[1..] == a[1..] + b;
      KeepWordCharsAppend(a[1..], b);
      if IsWordChar(a[0]) {
        assert KeepWordChars(a + b) == [a[0]] + (KeepWordChars(a[1..]) + KeepWordChars(b));
      }
    }
  }

  /** The documented example: `slug("Hello world!")` is `"hello-world"`. */
  lemma SlugHelloWorld()
    ensures Slug("Hello world!") == "hello-world"
  {
    assert SpacesToHyphens("Hello world!") == "Hello-world" + "!";
    HelloWorldKeepsWordChars();
    assert ToLower("Hello-world") == "hello-world";
  }

  lemma HelloWorldKeepsWordChars()
    ensures KeepWordChars("Hello-world" + "!") == "Hello-world"
  {
    var w := "Hello-world";
    forall i | 0 <= i < |w| ensures IsWordChar(w[i]) {
      assert i in {0, 1, 2, 3, 4, 5, 6, 7, 8, 9, 10};
    }
    KeepWordCharsKeepsWords(w);
    KeepWordCharsAppend(w, "!");
    assert KeepWordChars("!") == "";
    assert w + "" == w;
  }
}
