# Whoops pretty-page core, modelled in Dafny

This project models the rendering core behind Whoops' pretty error page:

- **Template engine** (`Templates`, `template_engine.dfy`). A `TemplateEngine` object keeps
  an ordered list of search roots and a cache from resource name to resolved path. A lookup
  tries the roots from the last one added to the first. The first readable `root/name` wins and
  is cached for good. With no roots at all the engine raises a configuration error. Beside
  the resolver are the pure helpers `pick` (PHP's `?:`), `escape` (`htmlspecialchars` with
  `ENT_QUOTES`) and `slug`.
- **Variable dumper** (`Dumping`, `variable_dumper.dfy`). A `VariableDumper` holds an ordered
  list of rules `(name, template, test)`. `dump` sends each variable to the template of the
  first rule whose test accepts it. A rule with an unknown test kind raises when it is reached.
- **Error page** (`PrettyPage`, `error_page.dfy`). An `ErrorPage` holds an attribute table
  with four defaults. Names must be non-empty strings, lookups go through `isset`, and
  `mergeWithAttribute` applies `array_merge`. The page also creates its template engine
  lazily and lists the default dumper rules.
- **Asset compiler** (`AssetCompiler`, `asset_compiler.dfy`). It joins resource contents
  with newlines, in order. For CSS it then applies one substitution: whitespace next to
  `; { } : ,` is removed.

`PhpValues` (`php_values.dfy`) gives the PHP values the core inspects: the `gettype` names,
truthiness, and `array_merge` on ordered arrays. `Wrappers` holds `Option`, `Result` and
`Outcome`. A thrown exception is modelled as a `Failure`/`Fail` value.

Effects outside the core become parameters:
- `is_readable` is a set `readable` of readable paths.
- `file_get_contents` is a map `files` from path to contents. A missing file reads as `""`,
  which is what `join` makes of `false`.
- The `is_subclass_of(…, HandlerInterface)` test is a function `isHandler`.
- A `MATCH_REGEX` pattern is a predicate `accepts` on the type name.
- A `MATCH_CLOSURE` callback is a function from values to values; its result is judged by
  truthiness.

Rendering a template is not run. Each render request is recorded instead: the engine appends
`(resolved path, variables)` to `rendered`, and the dumper appends `(template, variable,
gettype name)` to its own `rendered` list.

## Model

| member | source | states |
|---|---|---|
| Templates.TemplateEngine.constructor | src/Whoops/Util/TemplateEngine.php:20-33 | a new engine has no search roots, an empty resource cache and has rendered nothing |
| Templates.TemplateEngine.AddSearchPath | src/Whoops/Util/TemplateEngine.php:135-138 | the root is appended after the existing roots, so it is searched first from then on |
| Templates.TemplateEngine.SetSearchPaths | src/Whoops/Util/TemplateEngine.php:148-151 | the roots are replaced by exactly the given list |
| Templates.TemplateEngine.GetSearchPaths | src/Whoops/Util/TemplateEngine.php:156-159 | returns the roots in insertion order |
| Templates.RTrimSlashesTrims | src/Whoops/Util/TemplateEngine.php:226 | `rtrim($root, "/")`: the result is a prefix of the input, everything cut off is `/`, and the result does not end in `/` |
| Templates.LTrimSlashesTrims | src/Whoops/Util/TemplateEngine.php:226 | `ltrim($name, "/")`: the result is a suffix of the input, everything cut off is `/`, and the result does not start with `/` |
| Templates.JoinPathSeparator | src/Whoops/Util/TemplateEngine.php:226 | the joined path is the trimmed root, exactly one `/`, then the name without leading slashes; it is never PHP-empty |
| Templates.HighestReadable | src/Whoops/Util/TemplateEngine.php:222-236 | the index found is the highest root below `n` whose joined path is readable; no index means no such root is readable |
| Templates.TemplateEngine.FindResource | src/Whoops/Util/TemplateEngine.php:213-239 | fails on an empty root list; otherwise walks the roots from last to first, returns the first readable joined path or none, and caches only a hit |
| Templates.TemplateEngine.GetResource | src/Whoops/Util/TemplateEngine.php:169-182 | a cached name is returned without searching; otherwise the search result, cached; a miss is a `NotFound` error naming the roots |
| Templates.NoRootsIsMisconfiguration | src/Whoops/Util/TemplateEngine.php:215-219 | an uncached lookup with no roots raises the configuration error and caches nothing |
| Templates.ResolveSearchesHighestRoot | src/Whoops/Util/TemplateEngine.php:169-182 | with roots, an uncached lookup succeeds exactly when some joined path is readable, never returns a lower root than a readable higher one, and fails with `NotFound` otherwise |
| Templates.LastRootOverrides | src/Whoops/Util/TemplateEngine.php:222-233 | when the most recently added root holds the resource, it wins and is cached |
| Templates.CacheIsNeverInvalidated | src/Whoops/Util/TemplateEngine.php:172-173 | after a successful lookup, the same name resolves to the same path whatever the roots or readable files become |
| Templates.LookupWritesOnlyItsName | src/Whoops/Util/TemplateEngine.php:230-233 | a lookup changes the cache entry of its own name and no other |
| Templates.StaleCacheAfterNewRoot | src/Whoops/Util/TemplateEngine.php:172-173 | adding a higher root that also holds the resource does not change an answer that is already cached |
| Templates.TemplateEngine.HasResource | src/Whoops/Util/TemplateEngine.php:184-199 | true exactly when the resource resolves, false when no root holds it, and the configuration error passes through; the cache changes as for a lookup |
| Templates.TemplateEngine.ExecuteTemplate | src/Whoops/Util/TemplateEngine.php:110-127 | resolves the resource first; on success it records one render of the resolved path with the given variables, and on failure it records nothing and returns the resolution error |
| Templates.TemplateEngine.Template | src/Whoops/Util/TemplateEngine.php:81-84 | behaves exactly as `ExecuteTemplate` |
| Templates.PickChoosesTruthy | src/Whoops/Util/TemplateEngine.php:43-46 | returns the value when it is truthy and the default otherwise (so `""` and `"0"` fall back); the result is truthy iff one of the two is |
| Templates.EscapeRemovesMarkup | src/Whoops/Util/TemplateEngine.php:54-57 | the output has no `<`, `>`, `"` or `'`, and escaping never shortens |
| Templates.EscapeKeepsPlainText | src/Whoops/Util/TemplateEngine.php:54-57 | text without special characters is unchanged |
| Templates.EscapeAppend | src/Whoops/Util/TemplateEngine.php:54-57 | escaping works character by character: escaping a concatenation concatenates the escapes |
| Templates.UnescapeAfterEscape | src/Whoops/Util/TemplateEngine.php:54-57 | decoding the five entities recovers the raw text, so escaping loses nothing |
| Templates.EscapeScriptTag | src/Whoops/Util/TemplateEngine.php:54-57 | `<script>` becomes `&lt;script&gt;` |
| Templates.KeepWordChars | src/Whoops/Util/TemplateEngine.php:70 | the regex deletion leaves only word characters, hyphens and underscores, and never lengthens |
| Templates.Slug | src/Whoops/Util/TemplateEngine.php:67-73 | a slug is no longer than its input and holds only lower-case word characters, digits, `-` and `_` |
| Templates.SlugFixedPoints | src/Whoops/Util/TemplateEngine.php:67-73 | a string is its own slug exactly when it already consists of slug characters only |
| Templates.SlugIdempotent | src/Whoops/Util/TemplateEngine.php:67-73 | slugging a slug changes nothing |
| Templates.KeepWordCharsAppend | src/Whoops/Util/TemplateEngine.php:70 | the deletion works character by character: it distributes over concatenation |
| Templates.SlugHelloWorld | src/Whoops/Util/TemplateEngine.php:62 | `Hello world!` becomes `hello-world` |
| Dumping.TestIfDumperMatches | src/Whoops/Util/VariableDumper.php:105-127 | the test raises exactly when the rule's test-type code is none of `MATCH_REGEX`, `MATCH_CLOSURE`, `MATCH_EQUAL` and `MATCH_ALL`, naming the rule; `MATCH_ALL` always accepts |
| Dumping.TestsSeeOnlyTheType | src/Whoops/Util/VariableDumper.php:107-117 | every test except the closure test depends only on the `gettype` name |
| Dumping.FirstMatch | src/Whoops/Util/VariableDumper.php:76-90 | the rule chosen accepts the variable and every earlier rule rejects it; an unknown test is reported only after every earlier rule rejected; no match means every rule rejected |
| Dumping.DumpVarsAppend | src/Whoops/Util/VariableDumper.php:75-92 | dumping `a` then `b` renders `a`'s calls then `b`'s, as long as `a` raised nothing |
| Dumping.AtMostOneCallPerVariable | src/Whoops/Util/VariableDumper.php:75-92 | as a multiset, the rendered variables are contained in the arguments: each value is rendered at most as often as it was passed; every render receives its variable's `gettype` name |
| Dumping.DumpOneCallsOnlyItself | src/Whoops/Util/VariableDumper.php:80-90 | the rule loop for one variable issues no request or exactly one, for that variable and its `gettype` name |
| Dumping.FirstMatchingRuleWins | src/Whoops/Util/VariableDumper.php:76-87 | the first accepting rule renders the variable, and no later rule is consulted |
| Dumping.FirstUnknownTestRaises | src/Whoops/Util/VariableDumper.php:121-124 | an unknown test kind reached after only rejecting rules raises, naming that rule, and renders nothing |
| Dumping.UnknownTestRaisesOnlyWhenReached | src/Whoops/Util/VariableDumper.php:76-87 | an unknown test behind an accepting rule is never evaluated |
| Dumping.NoAcceptingRuleRendersNothing | src/Whoops/Util/VariableDumper.php:76-90 | a variable no rule accepts is skipped without error |
| Dumping.UnmatchedVariableIsSkipped | src/Whoops/Util/VariableDumper.php:75-92 | a skipped variable leaves the renders of the others unchanged |
| Dumping.AppendedRuleOnlyCatchesFallThrough | src/Whoops/Util/VariableDumper.php:140-148 | a rule added later only sees variables that no earlier rule handled |
| Dumping.CatchAllFirstShadowsTheRest | src/Whoops/Util/VariableDumper.php:110-111 | when the first rule is `MATCH_ALL`, every variable goes to its template |
| Dumping.VariableDumper.constructor | src/Whoops/Util/VariableDumper.php:47-50 | keeps the engine; there are no rules and nothing has been rendered |
| Dumping.VariableDumper.GetTemplateEngine | src/Whoops/Util/VariableDumper.php:55-58 | returns the engine given at construction |
| Dumping.VariableDumper.AddDumper | src/Whoops/Util/VariableDumper.php:140-148 | appends the rule after the existing ones |
| Dumping.VariableDumper.Dump | src/Whoops/Util/VariableDumper.php:66-93 | no arguments raise before anything is rendered; otherwise the renders are those of dumping the variables in order, and the first unknown test stops the dump with its error |
| Dumping.VariableDumper.DumpVariable | src/Whoops/Util/VariableDumper.php:76-90 | one variable: the rules are tried in order and the render (or the error) is that of the first rule that decides |
| PhpValues.GetTypeNamesKinds | src/Whoops/Util/VariableDumper.php:107 | two values get the same `gettype` name exactly when they are of the same kind |
| PhpValues.ArrayMergeIntKeys | src/Whoops/Handler/PrettyPageHandler/ErrorPage.php:220-223 | `array_merge` of integer-keyed arrays is the list of the first array's values followed by the second's |
| PhpValues.ArrayMergeLists | src/Whoops/Handler/PrettyPageHandler/ErrorPage.php:220-223 | merging two lists concatenates them |
| PrettyPage.ErrorPage.constructor | src/Whoops/Handler/PrettyPageHandler/ErrorPage.php:49-84 | keeps the handler and the optional engine and dumper; the attributes are the four defaults |
| PrettyPage.ErrorPage.Render | src/Whoops/Handler/PrettyPageHandler/ErrorPage.php:89-92 | always raises "not implemented" |
| PrettyPage.ErrorPage.GetTemplateEngine | src/Whoops/Handler/PrettyPageHandler/ErrorPage.php:99-108 | the first call without an engine creates a fresh, empty one; every later call returns that same engine |
| PrettyPage.ErrorPage.SetupDefaultVariableDumpers | src/Whoops/Handler/PrettyPageHandler/ErrorPage.php:113-146 | appends the four default rules after the dumper's existing rules, in the order listed: generic (`MATCH_ALL`), array, object, handler (see Findings) |
| PrettyPage.ErrorPage.SetAttribute | src/Whoops/Handler/PrettyPageHandler/ErrorPage.php:152-161 | an invalid name raises and leaves the table unchanged; otherwise the name is bound to the value |
| PrettyPage.ErrorPage.HasAttribute | src/Whoops/Handler/PrettyPageHandler/ErrorPage.php:167-176 | an invalid name raises; otherwise the answer is whether the name is present with a non-null value |
| PrettyPage.ErrorPage.GetAttribute | src/Whoops/Handler/PrettyPageHandler/ErrorPage.php:183-194 | an invalid name raises; otherwise the stored value if set, else the default |
| PrettyPage.ErrorPage.MergeWithAttribute | src/Whoops/Handler/PrettyPageHandler/ErrorPage.php:201-229 | an invalid name or a set non-array raises, leaving the table unchanged; an unset name gets the given array; an array is `array_merge`d; returns the stored result |
| PrettyPage.InvalidNamesAreRejected | src/Whoops/Handler/PrettyPageHandler/ErrorPage.php:154-158 | a non-string name, `""` and `"0"` are rejected by all four attribute operations |
| PrettyPage.GetAfterSet | src/Whoops/Handler/PrettyPageHandler/ErrorPage.php:152-194 | after setting a non-null value it reads back and is reported set; every other name reads and reports as before |
| PrettyPage.UnsetReadsAsDefault | src/Whoops/Handler/PrettyPageHandler/ErrorPage.php:175-192 | `hasAttribute` is false exactly for absent or null names, and those read as the default; set names read as stored |
| PrettyPage.MergeCreatesOrAppends | src/Whoops/Handler/PrettyPageHandler/ErrorPage.php:215-225 | merging into an unset name stores the given list; merging a list into a list appends it |
| PrettyPage.MergeRefusesScalars | src/Whoops/Handler/PrettyPageHandler/ErrorPage.php:208-213 | merging into a set attribute that is not an array raises, naming it |
| PrettyPage.MergeIntoDefaults | src/Whoops/Handler/PrettyPageHandler/ErrorPage.php:55-61 | on a fresh page a merged stylesheet comes after `css/whoops.base.css`; merging into the title raises |
| PrettyPage.DefaultDumpersAlwaysGeneric | src/Whoops/Handler/PrettyPageHandler/ErrorPage.php:115-141 | the rule list as written sends every value to the generic template; the array, object and handler rules are never chosen |
| PrettyPage.DefaultDumpersRenderAllGeneric | src/Whoops/Handler/PrettyPageHandler/ErrorPage.php:115-141 | with the list as written, a dump renders every variable, in order, with the generic template |
| PrettyPage.IntendedDefaultDumpersDispatchByKind | src/Whoops/Handler/PrettyPageHandler/ErrorPage.php:115-141 | with the catch-all last, handlers go to the handler template, other objects to the object template, arrays to the array template, all else to the generic one |
| AssetCompiler.Loaded | src/Whoops/Util/ShallowAssetCompiler.php:25-27 | one content per resource, in input order; a missing file gives `""` |
| AssetCompiler.SplitJoinLines | src/Whoops/Util/ShallowAssetCompiler.php:25 | splitting the newline join gives the parts back when no part holds a newline |
| AssetCompiler.JoinLinesAppend | src/Whoops/Util/ShallowAssetCompiler.php:25 | joining two non-empty lists puts exactly one newline between their joins |
| AssetCompiler.CompileResourceContentsInOrder | src/Whoops/Util/ShallowAssetCompiler.php:23-28 | no resources give `""`, one gives its contents, and another resource is appended after a newline |
| AssetCompiler.JsIsPlainConcatenation | src/Whoops/Util/ShallowAssetCompiler.php:66-69 | when none of the files read holds a newline, splitting the JavaScript at newlines gives every file's contents, in order (the output is the plain concatenation) |
| AssetCompiler.TrimLeftSkipsSpace | src/Whoops/Util/ShallowAssetCompiler.php:48 | the leading `\s*` run: what is skipped is all whitespace, and what follows is a non-whitespace character or the end |
| AssetCompiler.MinifyNeverLengthens | src/Whoops/Util/ShallowAssetCompiler.php:46-51 | the substitution never lengthens the text |
| AssetCompiler.MinifyKeepsNonSpace | src/Whoops/Util/ShallowAssetCompiler.php:46-51 | minification only deletes whitespace: the non-whitespace characters are the same, in the same order |
| AssetCompiler.MinifyIsClean | src/Whoops/Util/ShallowAssetCompiler.php:46-51 | no whitespace character stays right before or right after `; { } : ,` |
| AssetCompiler.MinifyFixesCleanText | src/Whoops/Util/ShallowAssetCompiler.php:46-51 | text with no whitespace next to that punctuation is left unchanged |
| AssetCompiler.MinifyIdempotent | src/Whoops/Util/ShallowAssetCompiler.php:46-51 | minifying twice is minifying once |
| AssetCompiler.MinifyKeepsSpaceBetweenWords | src/Whoops/Util/ShallowAssetCompiler.php:46-51 | `a b` is kept as it is |
| AssetCompiler.MinifySplitsAfterPlain | src/Whoops/Util/ShallowAssetCompiler.php:46-51 | no match reaches across a character that is neither whitespace nor punctuation: text split after such a character minifies piece by piece |
| AssetCompiler.MinifyKeepsSpaceBeforePlain | src/Whoops/Util/ShallowAssetCompiler.php:46-51 | a whitespace run followed by such a character is kept in full, even in text that has punctuation elsewhere |
| AssetCompiler.MinifyKeepsFarSpace | src/Whoops/Util/ShallowAssetCompiler.php:46-51 | `a b ;` becomes `a b;`: only the space next to `;` goes |
| AssetCompiler.MinifyCopiesPlainChar | src/Whoops/Util/ShallowAssetCompiler.php:46-51 | a character that is neither whitespace nor punctuation is copied, and the scan moves on |
| AssetCompiler.MinifyDropsSpacesAround | src/Whoops/Util/ShallowAssetCompiler.php:46-51 | ` ; ` (one space each side of any of the five characters) becomes `;` |
| AssetCompiler.CssIsMinifiedConcatenation | src/Whoops/Util/ShallowAssetCompiler.php:39-53 | the CSS output equals the plain concatenation up to whitespace, has no whitespace next to the punctuation, and is no longer |

## Left out

- Running a template: the `require` of the resolved file, `extract` of the variables and the
  `$tpl` binding are PHP file inclusion. A render is recorded as a request instead.
- The filesystem: `is_readable` and `file_get_contents` are parameters, as described above.
- `escapeButPreserveUris`: its URI regular expression is not modelled.
- `htmlspecialchars` on invalid UTF-8, which returns `""`. Strings are sequences of characters.
- `escape` and `slug` take strings. PHP's `(string)` conversion of other values is not modelled.
- Floats are reals: NaN and infinities are not modelled.
- `strtolower` folds ASCII letters only, as the model does. Locale-dependent folding is not modelled.
- Dumping.TestIfDumperMatches: `MATCH_EQUAL` compares the test with the type name by loose `==`. The model takes the test to be a string, so a non-string test value is not modelled.
- Dumping.VariableDumper.AddDumper: the separate `$testType` and `$test` arguments are combined into one `Test` value. An unknown test kind keeps its integer code.
- Dumping.VariableDumper.Dump: a render request is recorded, not passed to the engine. The engine's own resolution errors while dumping are therefore not modelled.
- Templates.TemplateEngine.HasResource: the source calls `getResourcePath`, which the class does not define, so the call would fail. The model follows the documented intent: the name is resolved with caching, and a miss gives false.
- PrettyPage.ErrorPage.SetupDefaultVariableDumpers: the source asks the engine for `getVariableDumper()->addDumpers(…)`, and neither method exists. The model takes the target dumper as a parameter and adds the rules one by one with `addDumper`.
- The attribute errors are `InvalidArgumentException`s, which `ErrorPage.php` does not import. The model keeps the intended error; the class-resolution failure is not modelled.
- `getTemplateEngine` passes the asset compiler and the dumper to `TemplateEngine`, which has no constructor. The new engine therefore starts empty, and those arguments are dropped.
- The `whoops` field of `ErrorPage` is never read by the modelled operations, and `assetCompiler` is read only to be passed to the engine constructor that ignores it (see above). Both are left out.
- Templates.TemplateEngine.SetSearchPaths: only arrays keyed `0..n-1` are modelled, as a sequence of roots. `findResource` reads the roots by position `count-1` down to `0`, so an array with other keys (say `["app" => "/a"]`) would read null there and search `"/name"` instead; that case is not modelled.
- The view templates under `Resources/views` are not part of this model.
- A literal example of a whole CSS rule, such as `a { b : c ; }`, is not stated. The two step lemmas `MinifyCopiesPlainChar` and `MinifyDropsSpacesAround` cover the same behaviour for arbitrary text.

## Findings

| source | as written | input that shows it | evidently intended | confidence | as-written member | corrected member |
|---|---|---|---|---|---|---|
| src/Whoops/Handler/PrettyPageHandler/ErrorPage.php:115-141 | the catch-all `MATCH_ALL` rule is listed first (the list `SetupDefaultVariableDumpers` installs), and `dump` uses the first rule that accepts | dumping the array `[]` renders `views/dumper/generic.html.php` and not `views/dumper/array.html.php`; objects and handlers likewise | the specific rules take precedence and the generic rule catches only the rest (catch-all last) | medium, not executed | PrettyPage.DefaultDumpersAlwaysGeneric | PrettyPage.IntendedDefaultDumpersDispatchByKind |
