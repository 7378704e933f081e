/**
 * The shallow asset compiler: resource contents joined by newlines, and for
 * CSS the one minifying substitution `\s*([;{}:,])\s*` -> `$1`.
 * File reads are abstracted as a map from path to contents.
 */
module AssetCompiler {

  /** `file_get_contents`: a missing file reads as false, which `join` turns into "". */
  function Contents(files: map<string, string>, path: string): string
  {
    if path in files then files[path] else ""
  }

  /** The contents of every resource, in the order given. */
  function Loaded(files: map<string, string>, paths: seq<string>): (r: seq<string>)
    ensures |r| == |paths|
    ensures forall i | 0 <= i < |paths| :: r[i] == Contents(files, paths[i])
  {
    seq(|paths|, i requires 0 <= i < |paths| => Contents(files, paths[i]))
  }

  /** `join("\n", parts)`. */
  function JoinLines(parts: seq<string>): string
    decreases |parts|
  {
    if |parts| == 0 then ""
    else if |parts| == 1 then parts[0]
    else parts[0] + "\n" + JoinLines(parts[1..])
  }

  /** `explode("\n", s)`: the pieces between newlines; there is always at least one. */
  function SplitLines(s: string): (r: seq<string>)
    ensures |r| >= 1
    decreases |s|
  {
    if |s| == 0 then [""]
    else
      var rest := SplitLines(s[1..]);
      if s[0] == '\n' then [""] + rest
      else [[s[0]] + rest[0]] + rest[1..]
  }

  predicate NoNewline(s: string)
  {
    forall i | 0 <= i < |s| :: s[i] != '\n'
  }

  function CompileResourceContents(files: map<string, string>, paths: seq<string>): string
  {
    JoinLines(Loaded(files, paths))
  }

  function CompileJsResources(files: map<string, string>, paths: seq<string>): string
  {
    CompileResourceContents(files, paths)
  }

  function CompileCssResources(files: map<string, string>, paths: seq<string>): string
  {
    Minify(CompileResourceContents(files, paths))
  }

  lemma {:induction false} SplitLineWithoutNewline(p: string)
    requires NoNewline(p)
    ensures SplitLines(p) == [p]
    decreases |p|
  {
    if |p| > 0 {
      SplitLineWithoutNewline(p[1..]);
      assert [p[0]] + p[1..] == p;
    }
  }

  lemma {:induction false} SplitLinesAfterLine(p: string, t: string)
    requires NoNewline(p)
    ensures SplitLines(p + "\n" + t) == [p] + SplitLines(t)
    decreases |p|
  {
    var s := p + "\n" + t;
    if |p| == 0 {
      assert s[0] == '\n' && s[1..] == t;
    } else {
      SplitLinesAfterLine(p[1..], t);
      assert s[0] == p[0] && s[1..] == p[1..] + "\n" + t;
      assert [p[0]] + p[1..] == p;
    }
  }

  /**
   * Splitting the joined text at its newlines gives the parts back, as long
   * as no part holds a newline itself: the join is in order and loses nothing.
   */
  lemma {:induction false} SplitJoinLines(parts: seq<string>)
    requires |parts| >= 1
    requires forall i | 0 <= i < |parts| :: NoNewline(parts[i])
    ensures SplitLines(JoinLines(parts)) == parts
    decreases |parts|
  {
    if |parts| == 1 {
      SplitLineWithoutNewline(parts[0]);
    } else {
      SplitJoinLines(parts[1..]);
      SplitLinesAfterLine(parts[0], JoinLines(parts[1..]));
      assert [parts[0]] + parts[1..] == parts;
    }
  }

  /** Joining two non-empty lists puts one newline between their joins. */
  lemma {:induction false} JoinLinesAppend(a: seq<string>, b: seq<string>)
    requires |a| >= 1 && |b| >= 1
    ensures JoinLines(a + b) == JoinLines(a) + "\n" + JoinLines(b)
    decreases |a|
  {
    if |a| == 1 {
      assert (a + b)[1..] == b;
    } else {
      JoinLinesAppend(a[1..], b);
      assert (a + b)[1..] == a[1..] + b;
    }
  }

  /** No resources give "", one gives its contents, and a further resource is appended after a newline. */
  lemma CompileResourceContentsInOrder(files: map<string, string>, paths: seq<string>, path: string)
    ensures CompileResourceContents(files, []) == ""
    ensures CompileResourceContents(files, [path]) == Contents(files, path)
    ensures |paths| >= 1 ==>
      CompileResourceContents(files, paths + [path]) ==
      CompileResourceContents(files, paths) + "\n" + Contents(files, path)
  {
    if |paths| >= 1 {
      assert Loaded(files, paths + [path]) == Loaded(files, paths) + [Contents(files, path)];
      JoinLinesAppend(Loaded(files, paths), [Contents(files, path)]);
    }
  }

  /** JavaScript is only concatenated: splitting it again gives every file's contents, in order. */
  lemma JsIsPlainConcatenation(files: map<string, string>, paths: seq<string>)
    requires |paths| >= 1
    requires forall i | 0 <= i < |paths| :: NoNewline(Contents(files, paths[i]))
    ensures SplitLines(CompileJsResources(files, paths)) == Loaded(files, paths)
  {
    SplitJoinLines(Loaded(files, paths));
  }

  // ---------------------------------------------------------------------
  // Minification
  // ---------------------------------------------------------------------

  /** PCRE's `\s`: space, tab, newline, vertical tab, form feed, carriage return. */
  predicate IsCssSpace(c: char)
  {
    c == ' ' || ('\t' <= c <= '\r')
  }

  /** The class `[;{}:,]`. */
  predicate IsCssPunct(c: char)
  {
    c == ';' || c == '{' || c == '}' || c == ':' || c == ','
  }

  /** `s` without its leading whitespace run. */
  function TrimLeft(s: string): (r: string)
    ensures |r| <= |s|
    decreases |s|
  {
    if |s| > 0 && IsCssSpace(s[0]) then TrimLeft(s[1..]) else s
  }

  /** What `TrimLeft` removes is a prefix of whitespace, and what it keeps does not start with whitespace. */
  lemma {:induction false} TrimLeftSkipsSpace(s: string)
    ensures TrimLeft(s) == s[|s| - |TrimLeft(s)|..]
    ensures forall i | 0 <= i < |s| - |TrimLeft(s)| :: IsCssSpace(s[i])
    ensures |TrimLeft(s)| > 0 ==> !IsCssSpace(TrimLeft(s)[0])
    decreases |s|
  {
    if |s| > 0 && IsCssSpace(s[0]) {
      TrimLeftSkipsSpace(s[1..]);
      assert forall i | 1 <= i < |s| :: s[i] == s[1..][i - 1];
    }
  }

  /**
   * `preg_replace` of the pattern `\s*([;{}:,])\s*` by `$1`, as the regex
   * engine scans: a match starts at the current position exactly when the
   * whitespace run there is followed by one of the punctuation characters;
   * it is replaced by that character, and the whitespace after it goes too.
   * Otherwise one character is copied and the scan moves on.
   */
  function Minify(s: string): string
    decreases |s|
  {
    if |s| == 0 then ""
    else
      var t := TrimLeft(s);
      if |t| > 0 && IsCssPunct(t[0]) then [t[0]] + Minify(TrimLeft(t[1..]))
      else [s[0]] + Minify(s[1..])
  }

  /** One step of the scan, unfolded. */
  lemma MinifyStep(s: string)
    requires |s| > 0
    ensures var t := TrimLeft(s);
      Minify(s) ==
        if |t| > 0 && IsCssPunct(t[0]) then [t[0]] + Minify(TrimLeft(t[1..]))
        else [s[0]] + Minify(s[1..])
  {
  }

  /** The substitution never lengthens the text. */
  lemma {:induction false} MinifyNeverLengthens(s: string)
    ensures |Minify(s)| <= |s|
    decreases |s|
  {
    if |s| > 0 {
      var t := TrimLeft(s);
      MinifyStep(s);
      if |t| > 0 && IsCssPunct(t[0]) {
        MinifyNeverLengthens(TrimLeft(t[1..]));
      } else {
        MinifyNeverLengthens(s[1..]);
      }
    }
  }

  /** The characters of `s` that are not whitespace, in order. */
  function NonSpace(s: string): string
    decreases |s|
  {
    if |s| == 0 then ""
    else if IsCssSpace(s[0]) then NonSpace(s[1..])
    else [s[0]] + NonSpace(s[1..])
  }

  /** No whitespace character stands right before or right after a punctuation character. */
  predicate Clean(s: string)
  {
    forall i | 0 <= i < |s| - 1 ::
      !(IsCssSpace(s[i]) && IsCssPunct(s[i + 1])) && !(IsCssPunct(s[i]) && IsCssSpace(s[i + 1]))
  }

  lemma {:induction false} NonSpaceAppend(a: string, b: string)
    ensures NonSpace(a + b) == NonSpace(a) + NonSpace(b)
    decreases |a|
  {
    if |a| > 0 {
      NonSpaceAppend(a[1..], b);
      assert (a + b)[1..] == a[1..] + b;
    } else {
      assert a + b == b;
    }
  }

  /** Trimming leading whitespace loses no non-whitespace character. */
  lemma {:induction false} NonSpaceTrimLeft(s: string)
    ensures NonSpace(TrimLeft(s)) == NonSpace(s)
    decreases |s|
  {
    if |s| > 0 && IsCssSpace(s[0]) {
      NonSpaceTrimLeft(s[1..]);
    }
  }

  /** Minification only deletes whitespace: the non-whitespace characters stay the same, in order. */
  lemma {:induction false} MinifyKeepsNonSpace(s: string)
    ensures NonSpace(Minify(s)) == NonSpace(s)
    decreases |s|
  {
    if |s| > 0 {
      var t := TrimLeft(s);
      MinifyStep(s);
      if |t| > 0 && IsCssPunct(t[0]) {
        var u := TrimLeft(t[1..]);
        MinifyKeepsNonSpace(u);
        NonSpaceAppend([t[0]], Minify(u));
        NonSpaceTrimLeft(t[1..]);
        NonSpaceAppend([t[0]], t[1..]);
        assert [t[0]] + t[1..] == t;
        NonSpaceTrimLeft(s);
      } else {
        MinifyKeepsNonSpace(s[1..]);
        NonSpaceAppend([s[0]], Minify(s[1..]));
        NonSpaceAppend([s[0]], s[1..]);
        assert [s[0]] + s[1..] == s;
      }
    }
  }

  /** The first character of the output: the punctuation a match starts with, or the copied character. */
  lemma MinifyHead(s: string)
    requires |s| > 0
    ensures |Minify(s)| > 0
    ensures var t := TrimLeft(s);
      Minify(s)[0] == if |t| > 0 && IsCssPunct(t[0]) then t[0] else s[0]
  {
    MinifyStep(s);
  }

  lemma CleanCons(c: char, m: string)
    requires Clean(m)
    requires |m| > 0 ==> !(IsCssSpace(c) && IsCssPunct(m[0])) && !(IsCssPunct(c) && IsCssSpace(m[0]))
    ensures Clean([c] + m)
  {
    var s := [c] + m;
    forall i | 0 <= i < |s| - 1
      ensures !(IsCssSpace(s[i]) && IsCssPunct(s[i + 1])) && !(IsCssPunct(s[i]) && IsCssSpace(s[i + 1]))
    {
      if i > 0 {
        assert s[i] == m[i - 1] && s[i + 1] == m[i];
      }
    }
  }

  /** In the minified text no whitespace is next to `; { } : ,`. */
  lemma {:induction false} MinifyIsClean(s: string)
    ensures Clean(Minify(s))
    decreases |s|
  {
    if |s| > 0 {
      var t := TrimLeft(s);
      MinifyStep(s);
      if |t| > 0 && IsCssPunct(t[0]) {
        var u := TrimLeft(t[1..]);
        MinifyIsClean(u);
        if |u| > 0 {
          TrimLeftSkipsSpace(t[1..]);
          assert TrimLeft(u) == u;
          MinifyHead(u);
        }
        CleanCons(t[0], Minify(u));
      } else {
        MinifyIsClean(s[1..]);
        if |s| > 1 {
          MinifyHead(s[1..]);
          if IsCssSpace(s[0]) {
            assert TrimLeft(s[1..]) == t;
            if !IsCssSpace(s[1]) {
              assert TrimLeft(s[1..]) == s[1..];
            }
          } else {
            assert t == s;
          }
        }
        CleanCons(s[0], Minify(s[1..]));
      }
    }
  }

  /** Text that is already clean is left unchanged; so whitespace away from punctuation survives. */
  lemma {:induction false} MinifyFixesCleanText(s: string)
    requires Clean(s)
    ensures Minify(s) == s
    decreases |s|
  {
    if |s| > 0 {
      CleanTail(s);
      CleanScanCopies(s);
      MinifyFixesCleanText(s[1..]);
      assert s == [s[0]] + s[1..];
    }
  }

  lemma CleanTail(s: string)
    requires Clean(s) && |s| > 0
    ensures Clean(s[1..])
  {
    var t := s[1..];
    forall i | 0 <= i < |t| - 1
      ensures !(IsCssSpace(t[i]) && IsCssPunct(t[i + 1])) && !(IsCssPunct(t[i]) && IsCssSpace(t[i + 1]))
    {
      assert t[i] == s[i + 1] && t[i + 1] == s[i + 2];
    }
  }

  /** In clean text a whitespace run is never followed by punctuation, so a match can only start on the punctuation itself. */
  lemma {:induction false} CleanTrimLeft(s: string)
    requires Clean(s)
    ensures |TrimLeft(s)| > 0 && IsCssPunct(TrimLeft(s)[0]) ==> TrimLeft(s) == s
    decreases |s|
  {
    if |s| > 1 && IsCssSpace(s[0]) {
      assert !IsCssPunct(s[1]);
      CleanTail(s);
      CleanTrimLeft(s[1..]);
    }
  }

  /** On clean text every step of the scan copies its first character. */
  lemma CleanScanCopies(s: string)
    requires Clean(s) && |s| > 0
    ensures Minify(s) == [s[0]] + Minify(s[1..])
  {
    var t := TrimLeft(s);
    MinifyStep(s);
    CleanTrimLeft(s);
    if |t| > 0 && IsCssPunct(t[0]) {
      if |s| > 1 {
        assert !IsCssSpace(s[1]);
      }
      assert TrimLeft(s[1..]) == s[1..];
    }
  }

  /** Minifying twice is minifying once. */
  lemma MinifyIdempotent(s: string)
    ensures Minify(Minify(s)) == Minify(s)
  {
    MinifyIsClean(s);
    MinifyFixesCleanText(Minify(s));
  }

  /** A space between two words is kept. */
  lemma MinifyKeepsSpaceBetweenWords()
    ensures Minify("a b") == "a b"
  {
    assert Clean("a b");
    MinifyFixesCleanText("a b");
  }

  /** A character that is neither whitespace nor punctuation is copied. */
  lemma MinifyCopiesPlainChar(c: char, t: string)
    requires !IsCssSpace(c) && !IsCssPunct(c)
    ensures Minify([c] + t) == [c] + Minify(t)
  {
    MinifyStep([c] + t);
    assert ([c] + t)[1..] == t;
  }

  /** A character that is neither whitespace nor punctuation. */
  predicate IsPlain(c: char)
  {
    !IsCssSpace(c) && !IsCssPunct(c)
  }

  /** Trimming stops inside `x` when `x` ends in a non-whitespace character, so what follows `x` is untouched. */
  lemma {:induction false} TrimLeftBeforeNonSpace(x: string, r: string)
    requires |x| > 0 && !IsCssSpace(x[|x| - 1])
    ensures TrimLeft(x + r) == TrimLeft(x) + r
    ensures |TrimLeft(x)| > 0 && TrimLeft(x)[|TrimLeft(x)| - 1] == x[|x| - 1]
    decreases |x|
  {
    if IsCssSpace(x[0]) {
      assert (x + r)[1..] == x[1..] + r;
      TrimLeftBeforeNonSpace(x[1..], r);
    } else {
      assert (x + r)[0] == x[0];
    }
  }

  /** A whitespace run before a non-whitespace character is trimmed away entirely. */
  lemma {:induction false} TrimLeftSpaceRun(w: string, b: string)
    requires forall i | 0 <= i < |w| :: IsCssSpace(w[i])
    requires |b| > 0 && !IsCssSpace(b[0])
    ensures TrimLeft(w + b) == b
    decreases |w|
  {
    if |w| == 0 {
      assert w + b == b;
    } else {
      assert (w + b)[0] == w[0] && (w + b)[1..] == w[1..] + b;
      TrimLeftSpaceRun(w[1..], b);
    }
  }

  /**
   * A plain character ends every match: the text up to and including it is
   * minified on its own, and the scan resumes after it.
   */
  lemma {:induction false} MinifySplitsAfterPlain(a: string, r: string)
    requires |a| > 0 && IsPlain(a[|a| - 1])
    ensures Minify(a + r) == Minify(a) + Minify(r)
    decreases |a|
  {
    TrimLeftBeforeNonSpace(a, r);
    if IsCssPunct(TrimLeft(a)[0]) {
      MinifySplitsAtPunct(a, r);
    } else {
      MinifySplitsAtCopy(a, r);
    }
  }

  /** The case of `MinifySplitsAfterPlain` where the front character of `a` is copied. */
  lemma {:induction false} MinifySplitsAtCopy(a: string, r: string)
    requires |a| > 0 && IsPlain(a[|a| - 1])
    requires TrimLeft(a + r) == TrimLeft(a) + r
    requires |TrimLeft(a)| > 0 && !IsCssPunct(TrimLeft(a)[0])
    ensures Minify(a + r) == Minify(a) + Minify(r)
    decreases |a|, 0
  {
    if |a| == 1 {
      MinifyCopiesPlainChar(a[0], r);
      MinifyCopiesPlainChar(a[0], "");
      assert a + r == [a[0]] + r && a == [a[0]] + "";
    } else {
      assert (a + r)[0] == a[0] && (a + r)[1..] == a[1..] + r;
      calc {
        Minify(a + r);
        { MinifyStep(a + r); }
        [a[0]] + Minify(a[1..] + r);
        { MinifySplitsAfterPlain(a[1..], r); }
        [a[0]] + (Minify(a[1..]) + Minify(r));
        ([a[0]] + Minify(a[1..])) + Minify(r);
        { MinifyStep(a); }
        Minify(a) + Minify(r);
      }
    }
  }

  /** The case of `MinifySplitsAfterPlain` where a match starts at the front of `a`. */
  lemma {:induction false} MinifySplitsAtPunct(a: string, r: string)
    requires |a| > 0 && IsPlain(a[|a| - 1])
    requires TrimLeft(a + r) == TrimLeft(a) + r
    requires |TrimLeft(a)| > 0 && TrimLeft(a)[|TrimLeft(a)| - 1] == a[|a| - 1]
    requires IsCssPunct(TrimLeft(a)[0])
    ensures Minify(a + r) == Minify(a) + Minify(r)
    decreases |a|, 0
  {
    var t := TrimLeft(a);
    var u := t[1..];
    // the match cannot end at the last character of `a`, which is plain
    assert |u| > 0 && u[|u| - 1] == a[|a| - 1];
    assert (t + r)[0] == t[0] && (t + r)[1..] == u + r;
    TrimLeftBeforeNonSpace(u, r);
    var v := TrimLeft(u);
    calc {
      Minify(a + r);
      { MinifyStep(a + r); }
      [t[0]] + Minify(TrimLeft(u + r));
      [t[0]] + Minify(v + r);
      { MinifySplitsAfterPlain(v, r); }
      [t[0]] + (Minify(v) + Minify(r));
      ([t[0]] + Minify(v)) + Minify(r);
      { MinifyStep(a); }
      Minify(a) + Minify(r);
    }
  }

  /** A whitespace run before a plain character is kept as it is. */
  lemma {:induction false} MinifyKeepsSpaceBeforePlain(w: string, b: string)
    requires forall i | 0 <= i < |w| :: IsCssSpace(w[i])
    requires |b| > 0 && IsPlain(b[0])
    ensures Minify(w + b) == w + Minify(b)
    decreases |w|
  {
    if |w| == 0 {
      assert w + b == b;
    } else {
      var s := w + b;
      TrimLeftSpaceRun(w, b);
      MinifyStep(s);
      assert s[0] == w[0] && s[1..] == w[1..] + b;
      MinifyKeepsSpaceBeforePlain(w[1..], b);
      assert w == [w[0]] + w[1..];
    }
  }

  /** Only the whitespace next to punctuation goes: `a b ;` becomes `a b;`. */
  lemma MinifyKeepsFarSpace()
    ensures Minify("a b ;") == "a b;"
  {
    MinifySplitsAfterPlain("a", " b ;");
    assert "a" + " b ;" == "a b ;";
    MinifyKeepsSpaceBeforePlain(" ", "b ;");
    assert " " + "b ;" == " b ;";
    MinifySplitsAfterPlain("b", " ;");
    assert "b" + " ;" == "b ;";
    MinifyCopiesPlainChar('a', "");
    assert "a" == ['a'] + "";
    MinifyCopiesPlainChar('b', "");
    assert "b" == ['b'] + "";
    MinifyStep(" ;");
    assert TrimLeft(" ;") == ";";
    assert TrimLeft(";"[1..]) == "";
  }

  /** A punctuation character with one space on each side loses both spaces. */
  lemma MinifyDropsSpacesAround(p: char, t: string)
    requires IsCssPunct(p)
    requires |t| > 0 ==> !IsCssSpace(t[0])
    ensures Minify([' '] + ([p] + ([' '] + t))) == [p] + Minify(t)
  {
    var u := [' '] + t;
    var v := [p] + u;
    var s := [' '] + v;
    MinifyStep(s);
    assert s[1..] == v && v[1..] == u && u[1..] == t;
    assert TrimLeft(u) == t;
  }

  /** The compiled CSS differs from plain concatenation only in whitespace, and is clean. */
  lemma CssIsMinifiedConcatenation(files: map<string, string>, paths: seq<string>)
    ensures NonSpace(CompileCssResources(files, paths)) == NonSpace(CompileJsResources(files, paths))
    ensures Clean(CompileCssResources(files, paths))
    ensures |CompileCssResources(files, paths)| <= |CompileJsResources(files, paths)|
  {
    MinifyKeepsNonSpace(CompileResourceContents(files, paths));
    MinifyIsClean(CompileResourceContents(files, paths));
    MinifyNeverLengthens(CompileResourceContents(files, paths));
  }
}
