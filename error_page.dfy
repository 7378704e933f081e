/**
 * The error page: a string-keyed attribute table with validated names,
 * isset-based lookups and array merging, a lazily created template engine,
 * and the default list of variable-dumper rules.
 */
module PrettyPage {
  import opened Wrappers
  import opened PhpValues
  import Templates
  import opened Dumping

  /** The errors of the attribute table (InvalidArgumentException) and of `render`. */
  datatype PageError =
    | InvalidAttributeName
    | NotAnArray(attributeName: string)
    | NotImplemented

  const PAGE_TITLE: string := "Whoops! There was an error!"

  /** The attributes every page starts with. */
  function DefaultAttributes(): map<string, Value>
  {
    map[
      "template.resource" := VString("views/error.html.php"),
      "template.stylesheets" := VArray(List([VString("css/whoops.base.css")])),
      "template.javascripts" := VArray(List([])),
      "page.title" := VString(PAGE_TITLE)
    ]
  }

  /** An attribute name must be a string and not PHP-empty (so neither "" nor "0"). */
  predicate ValidName(name: Value)
  {
    name.VString? && Truthy(name)
  }

  /** `isset($attributes[k])`: present and not null. */
  predicate IsSet(attributes: map<string, Value>, k: string)
  {
    k in attributes && attributes[k] != VNull
  }

  /** The table after `setAttribute`, or its error. */
  function SetAttr(attributes: map<string, Value>, name: Value, value: Value): Result<map<string, Value>, PageError>
  {
    if !ValidName(name) then Failure(InvalidAttributeName) else Success(attributes[name.s := value])
  }

  /** The answer of `hasAttribute`, or its error. */
  function HasAttr(attributes: map<string, Value>, name: Value): Result<bool, PageError>
  {
    if !ValidName(name) then Failure(InvalidAttributeName) else Success(IsSet(attributes, name.s))
  }

  /** The answer of `getAttribute`, or its error. */
  function GetAttr(attributes: map<string, Value>, name: Value, defaultValue: Value): Result<Value, PageError>
  {
    if !ValidName(name) then Failure(InvalidAttributeName)
    else if IsSet(attributes, name.s) then Success(attributes[name.s])
    else Success(defaultValue)
  }

  /** The table after `mergeWithAttribute`, or its error. */
  function MergeAttr(attributes: map<string, Value>, name: Value, value: seq<Entry>): Result<map<string, Value>, PageError>
  {
    if !ValidName(name) then Failure(InvalidAttributeName)
    else if IsSet(attributes, name.s) && !attributes[name.s].VArray? then Failure(NotAnArray(name.s))
    else if !IsSet(attributes, name.s) then Success(attributes[name.s := VArray(value)])
    else Success(attributes[name.s := VArray(ArrayMerge(attributes[name.s].entries, value))])
  }

  /** Every operation rejects a non-string or empty name before looking at the table. */
  lemma InvalidNamesAreRejected(attributes: map<string, Value>, name: Value, value: Value, defaultValue: Value, entries: seq<Entry>)
    requires !name.VString? || name.s == "" || name.s == "0"
    ensures SetAttr(attributes, name, value) == Failure(InvalidAttributeName)
    ensures HasAttr(attributes, name) == Failure(InvalidAttributeName)
    ensures GetAttr(attributes, name, defaultValue) == Failure(InvalidAttributeName)
    ensures MergeAttr(attributes, name, entries) == Failure(InvalidAttributeName)
  {
  }

  /**
   * After `setAttribute(k, v)` with a non-null `v`, `k` is set and reads back
   * as `v`; every other name reads as before.
   */
  lemma GetAfterSet(attributes: map<string, Value>, name: Value, value: Value, other: Value, defaultValue: Value)
    requires ValidName(name) && value != VNull
    requires !other.VString? || other.s != name.s
    ensures var attributes' := SetAttr(attributes, name, value).value;
      GetAttr(attributes', name, defaultValue) == Success(value) &&
      HasAttr(attributes', name) == Success(true) &&
      GetAttr(attributes', other, defaultValue) == GetAttr(attributes, other, defaultValue) &&
      HasAttr(attributes', other) == HasAttr(attributes, other)
  {
  }

  /**
   * A name that is absent or holds null reads as the default, and those are
   * exactly the names `hasAttribute` denies.
   */
  lemma UnsetReadsAsDefault(attributes: map<string, Value>, name: Value, defaultValue: Value)
    requires ValidName(name)
    ensures HasAttr(attributes, name) == Success(false) <==> name.s !in attributes || attributes[name.s] == VNull
    ensures HasAttr(attributes, name) == Success(false) ==> GetAttr(attributes, name, defaultValue) == Success(defaultValue)
    ensures HasAttr(attributes, name) == Success(true) ==> GetAttr(attributes, name, defaultValue) == Success(attributes[name.s])
  {
  }

  /**
   * Merging into an absent attribute stores the given array; merging a list
   * into a list-valued attribute appends it.
   */
  lemma MergeCreatesOrAppends(attributes: map<string, Value>, name: Value, xs: seq<Value>, ys: seq<Value>)
    requires ValidName(name)
    ensures !IsSet(attributes, name.s) ==>
      MergeAttr(attributes, name, List(ys)) == Success(attributes[name.s := VArray(List(ys))])
    ensures IsSet(attributes, name.s) && attributes[name.s] == VArray(List(xs)) ==>
      MergeAttr(attributes, name, List(ys)) == Success(attributes[name.s := VArray(List(xs + ys))])
  {
    ArrayMergeLists(xs, ys);
  }

  /** Merging into a set attribute that is not an array is refused. */
  lemma MergeRefusesScalars(attributes: map<string, Value>, name: Value, entries: seq<Entry>)
    requires ValidName(name) && IsSet(attributes, name.s) && !attributes[name.s].VArray?
    ensures MergeAttr(attributes, name, entries) == Failure(NotAnArray(name.s))
  {
  }

  /** On a fresh page, adding a stylesheet keeps the base stylesheet first; the title cannot be merged into. */
  lemma MergeIntoDefaults(sheet: string)
    ensures MergeAttr(DefaultAttributes(), VString("template.stylesheets"), List([VString(sheet)])) ==
      Success(DefaultAttributes()["template.stylesheets" := VArray(List([VString("css/whoops.base.css"), VString(sheet)]))])
    ensures MergeAttr(DefaultAttributes(), VString("page.title"), List([VString(sheet)])) == Failure(NotAnArray("page.title"))
  {
    MergeCreatesOrAppends(DefaultAttributes(), VString("template.stylesheets"), [VString("css/whoops.base.css")], [VString(sheet)]);
    assert [VString("css/whoops.base.css")] + [VString(sheet)] == [VString("css/whoops.base.css"), VString(sheet)];
  }

  // ---------------------------------------------------------------------
  // The default variable-dumper rules
  // ---------------------------------------------------------------------

  const GENERIC_TEMPLATE: string := "views/dumper/generic.html.php"
  const ARRAY_TEMPLATE: string := "views/dumper/array.html.php"
  const OBJECT_TEMPLATE: string := "views/dumper/object.html.php"
  const HANDLER_TEMPLATE: string := "views/dumper/whoops_handler.html.php"

  /** The handler rule's closure: `is_subclass_of($variable, HandlerInterface)`, given as `isHandler`. */
  function HandlerTest(isHandler: Value -> bool): Test
  {
    MatchClosure(v => VBool(isHandler(v)))
  }

  /** The default rules in the order the source lists them: the catch-all first. */
  function DefaultDumpers(isHandler: Value -> bool): seq<Dumper>
  {
    [
      Dumper("whoops.generic", GENERIC_TEMPLATE, MatchAll),
      Dumper("whoops.array", ARRAY_TEMPLATE, MatchEqual("array")),
      Dumper("whoops.object", OBJECT_TEMPLATE, MatchEqual("object")),
      Dumper("whoops.handler", HANDLER_TEMPLATE, HandlerTest(isHandler))
    ]
  }

  /**
   * With the catch-all first, every value goes to the generic template: the
   * array, object and handler rules can never be reached.
   */
  lemma DefaultDumpersAlwaysGeneric(isHandler: Value -> bool, v: Value)
    ensures DumpOne(DefaultDumpers(isHandler), v) == DumpRun([TemplateCall(GENERIC_TEMPLATE, v, GetType(v))], None)
    ensures forall i | 1 <= i < 4 :: FirstMatch(DefaultDumpers(isHandler), v, 0) != Matched(i)
  {
    CatchAllFirstShadowsTheRest(DefaultDumpers(isHandler), v);
  }

  /** Dumping any variables with the default rules renders each one with the generic template, in order. */
  lemma {:induction false} DefaultDumpersRenderAllGeneric(isHandler: Value -> bool, vars: seq<Value>)
    ensures DumpVars(DefaultDumpers(isHandler), vars) ==
      DumpRun(seq(|vars|, i requires 0 <= i < |vars| => TemplateCall(GENERIC_TEMPLATE, vars[i], GetType(vars[i]))), None)
    decreases |vars|
  {
    if |vars| > 0 {
      DefaultDumpersAlwaysGeneric(isHandler, vars[0]);
      DefaultDumpersRenderAllGeneric(isHandler, vars[1..]);
    }
  }

  /**
   * The evidently intended order: the same rules with the catch-all last, so
   * that the more specific rules take precedence.
   */
  function IntendedDefaultDumpers(isHandler: Value -> bool): seq<Dumper>
  {
    var d := DefaultDumpers(isHandler);
    [d[3], d[2], d[1], d[0]]
  }

  /**
   * With the catch-all last, handlers go to the handler template, other
   * objects to the object template, arrays to the array template and
   * everything else to the generic one.
   */
  lemma IntendedDefaultDumpersDispatchByKind(isHandler: Value -> bool, v: Value)
    ensures DumpOne(IntendedDefaultDumpers(isHandler), v) ==
      DumpRun([TemplateCall(
        if isHandler(v) then HANDLER_TEMPLATE
        else if v.VObject? then OBJECT_TEMPLATE
        else if v.VArray? then ARRAY_TEMPLATE
        else GENERIC_TEMPLATE, v, GetType(v))], None)
  {
    var rules := IntendedDefaultDumpers(isHandler);
    assert TestIfDumperMatches(rules[0], v) == Success(isHandler(v));
    if isHandler(v) {
      FirstMatchingRuleWins(rules, v, 0);
    } else if v.VObject? {
      FirstMatchingRuleWins(rules, v, 1);
    } else if v.VArray? {
      FirstMatchingRuleWins(rules, v, 2);
    } else {
      FirstMatchingRuleWins(rules, v, 3);
    }
  }

  class ErrorPage {
    /** The handler the page belongs to. */
    const handler: Value
    var templateEngine: Templates.TemplateEngine?
    var variableDumper: VariableDumper?
    var attributes: map<string, Value>

    constructor (handler: Value, templateEngine: Templates.TemplateEngine?, variableDumper: VariableDumper?)
      ensures this.handler == handler
      ensures this.templateEngine == templateEngine && this.variableDumper == variableDumper
      ensures attributes == DefaultAttributes()
    {
      this.handler := handler;
      this.templateEngine := templateEngine;
      this.variableDumper := variableDumper;
      attributes := DefaultAttributes();
    }

    /** Rendering is not implemented: it always throws. */
    method Render() returns (r: Outcome<PageError>)
      ensures r == Fail(NotImplemented)
    {
      r := Fail(NotImplemented);
    }

    /** Creates an engine the first time it is asked for; later calls return that same engine. */
    method GetTemplateEngine() returns (engine: Templates.TemplateEngine)
      modifies this`templateEngine
      ensures old(templateEngine) != null ==> engine == old(templateEngine)
      ensures old(templateEngine) == null ==>
        fresh(engine) && engine.searchPaths == [] && engine.resourceCache == map[] && engine.rendered == []
      ensures templateEngine == engine
    {
      if templateEngine == null {
        templateEngine := new Templates.TemplateEngine();
      }
      engine := templateEngine;
    }

    /**
     * Installs the default rules in the order listed, catch-all first, after
     * whatever rules `dumper` already has (DefaultDumpersAlwaysGeneric states
     * what that order does).
     */
    method SetupDefaultVariableDumpers(dumper: VariableDumper, isHandler: Value -> bool)
      modifies dumper`dumpers
      ensures dumper.dumpers == old(dumper.dumpers) + DefaultDumpers(isHandler)
    {
      var rules := DefaultDumpers(isHandler);
      for i := 0 to |rules|
        invariant dumper.dumpers == old(dumper.dumpers) + rules[..i]
      {
        dumper.AddDumper(rules[i].name, rules[i].template, rules[i].test);
        assert rules[..i + 1] == rules[..i] + [rules[i]];
      }
      assert rules[..|rules|] == rules;
    }

    method SetAttribute(name: Value, value: Value) returns (r: Outcome<PageError>)
      modifies this`attributes
      ensures match SetAttr(old(attributes), name, value)
        case Success(attributes') => r == Pass && attributes == attributes'
        case Failure(e) => r == Fail(e) && attributes == old(attributes)
    {
      if !ValidName(name) {
        return Fail(InvalidAttributeName);
      }
      attributes := attributes[name.s := value];
      r := Pass;
    }

    method HasAttribute(name: Value) returns (r: Result<bool, PageError>)
      ensures r == HasAttr(attributes, name)
    {
      if !ValidName(name) {
        return Failure(InvalidAttributeName);
      }
      r := Success(name.s in attributes && attributes[name.s] != VNull);
    }

    method GetAttribute(name: Value, defaultValue: Value) returns (r: Result<Value, PageError>)
      ensures r == GetAttr(attributes, name, defaultValue)
    {
      if !ValidName(name) {
        return Failure(InvalidAttributeName);
      }
      if name.s in attributes && attributes[name.s] != VNull {
        r := Success(attributes[name.s]);
      } else {
        r := Success(defaultValue);
      }
    }

    /**
     * Creates the attribute from `value` if it is not set, merges into it if it
     * is an array, and refuses otherwise; returns what is stored afterwards.
     */
    method MergeWithAttribute(name: Value, value: seq<Entry>) returns (r: Result<Value, PageError>)
      modifies this`attributes
      ensures match MergeAttr(old(attributes), name, value)
        case Success(attributes') => attributes == attributes' && r == Success(attributes'[name.s])
        case Failure(e) => r == Failure(e) && attributes == old(attributes)
    {
      if !ValidName(name) {
        return Failure(InvalidAttributeName);
      }
      var k := name.s;
      if k in attributes && attributes[k] != VNull && !attributes[k].VArray? {
        return Failure(NotAnArray(k));
      }
      if !(k in attributes && attributes[k] != VNull) {
        attributes := attributes[k := VArray(value)];
      } else {
        attributes := attributes[k := VArray(ArrayMerge(attributes[k].entries, value))];
      }
      r := Success(attributes[k]);
    }
  }
}
