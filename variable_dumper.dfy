/**
 * The variable dumper: an ordered list of rules (name, template, test), and
 * `dump`, which sends each variable to the template of the first rule whose
 * test accepts it. A template execution is recorded as a request in the
 * dumper's output trace.
 */
module Dumping {
  import opened Wrappers
  import opened PhpValues
  import Templates

  /** The test-type constants of the source. */
  const MATCH_REGEX: int := 0x10
  const MATCH_CLOSURE: int := 0x20
  const MATCH_EQUAL: int := 0x30
  const MATCH_ALL: int := 0x40

  /** A test-type code that is none of the four constants. */
  type UnknownTestType = c: int | c != 0x10 && c != 0x20 && c != 0x30 && c != 0x40 witness 0

  /**
   * A rule's test type together with its test. A regular expression is known
   * only through the set of type names it accepts, and a closure through what
   * it returns for each value.
   */
  datatype Test =
    | MatchRegex(pattern: string, accepts: string -> bool)
    | MatchClosure(callback: Value -> Value)
    | MatchEqual(typeName: string)
    | MatchAll
    | MatchUnknown(testType: UnknownTestType)

  /** The numeric test type a rule was registered with. */
  function TestType(t: Test): int
  {
    match t
    case MatchRegex(_, _) => MATCH_REGEX
    case MatchClosure(_) => MATCH_CLOSURE
    case MatchEqual(_) => MATCH_EQUAL
    case MatchAll => MATCH_ALL
    case MatchUnknown(c) => c
  }

  /** One registered rule. */
  datatype Dumper = Dumper(name: string, template: string, test: Test)

  datatype DumpError =
    | NoArguments                       // InvalidArgumentException
    | InvalidTestType(dumperName: string) // RuntimeException

  /** An `executeTemplate(template, {variable, type})` request. */
  datatype TemplateCall = TemplateCall(template: string, variable: Value, varType: string)

  /**
   * `testIfDumperMatches`: whether `dumper` accepts `v`. Only an unknown test
   * type fails, and every test other than a closure looks at `gettype(v)` only.
   */
  function TestIfDumperMatches(dumper: Dumper, v: Value): (r: Result<bool, DumpError>)
    ensures r.Failure? <==> dumper.test.MatchUnknown?
    ensures r.Failure? <==>
      var code := TestType(dumper.test);
      code != MATCH_REGEX && code != MATCH_CLOSURE && code != MATCH_EQUAL && code != MATCH_ALL
    ensures r.Failure? ==> r.error == InvalidTestType(dumper.name)
    ensures dumper.test.MatchAll? ==> r == Success(true)
  {
    match dumper.test
    case MatchAll => Success(true)
    case MatchEqual(typeName) => Success(typeName == GetType(v))
    case MatchRegex(_, accepts) => Success(accepts(GetType(v)))
    case MatchClosure(callback) => Success(Truthy(callback(v)))
    case MatchUnknown(_) => Failure(InvalidTestType(dumper.name))
  }

  /** Tests other than closures cannot tell apart two values of the same type. */
  lemma TestsSeeOnlyTheType(dumper: Dumper, v: Value, w: Value)
    requires !dumper.test.MatchClosure? && GetType(v) == GetType(w)
    ensures TestIfDumperMatches(dumper, v) == TestIfDumperMatches(dumper, w)
  {
  }

  /** The outcome of walking the rules for one variable. */
  datatype Dispatch = Matched(index: nat) | Unmatched | Invalid(index: nat)

  /**
   * Walks `rules[k..]` in insertion order and stops at the first rule that
   * accepts `v`, or at the first rule whose test type is unknown.
   */
  function FirstMatch(rules: seq<Dumper>, v: Value, k: nat): (r: Dispatch)
    requires k <= |rules|
    ensures r.Matched? ==> k <= r.index < |rules| && TestIfDumperMatches(rules[r.index], v) == Success(true)
    ensures r.Invalid? ==> k <= r.index < |rules| && rules[r.index].test.MatchUnknown?
    ensures r.Matched? || r.Invalid? ==>
      forall j | k <= j < r.index :: TestIfDumperMatches(rules[j], v) == Success(false)
    ensures r.Unmatched? ==> forall j | k <= j < |rules| :: TestIfDumperMatches(rules[j], v) == Success(false)
    decreases |rules| - k
  {
    if k == |rules| then Unmatched
    else
      match TestIfDumperMatches(rules[k], v)
      case Failure(_) => Invalid(k)
      case Success(true) => Matched(k)
      case Success(false) => FirstMatch(rules, v, k + 1)
  }

  /** The requests and the error, if any, of a `dump` run. */
  datatype DumpRun = DumpRun(calls: seq<TemplateCall>, error: Option<DumpError>)

  /** What dumping one variable does: at most one request, for the first matching rule. */
  function DumpOne(rules: seq<Dumper>, v: Value): DumpRun
  {
    match FirstMatch(rules, v, 0)
    case Matched(i) => DumpRun([TemplateCall(rules[i].template, v, GetType(v))], None)
    case Unmatched => DumpRun([], None)
    case Invalid(i) => DumpRun([], Some(InvalidTestType(rules[i].name)))
  }

  /** What dumping the variables in argument order does; an error stops the run. */
  function DumpVars(rules: seq<Dumper>, vars: seq<Value>): DumpRun
    decreases |vars|
  {
    if |vars| == 0 then DumpRun([], None)
    else
      var first := DumpOne(rules, vars[0]);
      if first.error.Some? then first
      else
        var rest := DumpVars(rules, vars[1..]);
        DumpRun(first.calls + rest.calls, rest.error)
  }

  /**
   * Dumping `a + b` renders what dumping `a` renders followed by what dumping
   * `b` renders, as long as `a` raised nothing.
   */
  lemma {:induction false} DumpVarsAppend(rules: seq<Dumper>, a: seq<Value>, b: seq<Value>)
    requires DumpVars(rules, a).error.None?
    ensures DumpVars(rules, a + b) ==
      DumpRun(DumpVars(rules, a).calls + DumpVars(rules, b).calls, DumpVars(rules, b).error)
    decreases |a|
  {
    if |a| == 0 {
      assert a + b == b;
    } else {
      assert (a + b)[0] == a[0];
      assert (a + b)[1..] == a[1..] + b;
      DumpVarsAppend(rules, a[1..], b);
    }
  }

  /** A variable that raises ends the run: what came before, then its own requests and its error. */
  lemma DumpVarsStopsAt(rules: seq<Dumper>, vars: seq<Value>, i: nat)
    requires i < |vars| && DumpVars(rules, vars[..i]).error.None?
    requires DumpOne(rules, vars[i]).error.Some?
    ensures DumpVars(rules, vars) ==
      DumpRun(DumpVars(rules, vars[..i]).calls + DumpOne(rules, vars[i]).calls, DumpOne(rules, vars[i]).error)
  {
    assert vars[..i] + vars[i..] == vars;
    DumpVarsAppend(rules, vars[..i], vars[i..]);
    assert vars[i..][0] == vars[i];
  }

  /** A variable that raises nothing extends the run by its own requests. */
  lemma DumpVarsExtend(rules: seq<Dumper>, vars: seq<Value>, i: nat)
    requires i < |vars| && DumpVars(rules, vars[..i]).error.None?
    requires DumpOne(rules, vars[i]).error.None?
    ensures DumpVars(rules, vars[..i + 1]) ==
      DumpRun(DumpVars(rules, vars[..i]).calls + DumpOne(rules, vars[i]).calls, None)
  {
    assert vars[..i + 1] == vars[..i] + [vars[i]];
    DumpVarsAppend(rules, vars[..i], [vars[i]]);
    assert [vars[i]][1..] == [];
  }

  /** The variables of a sequence of requests, in order. */
  function CalledVariables(calls: seq<TemplateCall>): seq<Value>
    decreases |calls|
  {
    if |calls| == 0 then [] else [calls[0].variable] + CalledVariables(calls[1..])
  }

  lemma {:induction false} CalledVariablesAppend(a: seq<TemplateCall>, b: seq<TemplateCall>)
    ensures CalledVariables(a + b) == CalledVariables(a) + CalledVariables(b)
    decreases |a|
  {
    if |a| == 0 {
      assert a + b == b;
    } else {
      assert (a + b)[0] == a[0] && (a + b)[1..] == a[1..] + b;
      CalledVariablesAppend(a[1..], b);
    }
  }

  /** Dumping one variable issues at most one request, and only for that variable, with its own type. */
  lemma DumpOneCallsOnlyItself(rules: seq<Dumper>, v: Value)
    ensures CalledVariables(DumpOne(rules, v).calls) == [] || CalledVariables(DumpOne(rules, v).calls) == [v]
    ensures forall c | c in DumpOne(rules, v).calls :: c.varType == GetType(v)
  {
    var calls := DumpOne(rules, v).calls;
    if |calls| > 0 {
      assert calls[1..] == [];
    }
  }

  /**
   * Each variable is rendered at most as many times as it occurs among the
   * arguments, and every request names the variable's own type.
   */
  lemma {:induction false} AtMostOneCallPerVariable(rules: seq<Dumper>, vars: seq<Value>)
    ensures multiset(CalledVariables(DumpVars(rules, vars).calls)) <= multiset(vars)
    ensures forall c | c in DumpVars(rules, vars).calls :: c.varType == GetType(c.variable)
    decreases |vars|
  {
    if |vars| > 0 {
      var first := DumpOne(rules, vars[0]);
      DumpOneCallsOnlyItself(rules, vars[0]);
      AtMostOneCallPerVariable(rules, vars[1..]);
      assert vars == [vars[0]] + vars[1..];
      if first.error.None? {
        var rest := DumpVars(rules, vars[1..]);
        CalledVariablesAppend(first.calls, rest.calls);
        PrependAtMostItself(CalledVariables(first.calls), vars[0], CalledVariables(rest.calls), vars[1..]);
      } else {
        PrependAtMostItself(CalledVariables(first.calls), vars[0], [], vars[1..]);
      }
    }
  }

  lemma PrependAtMostItself(first: seq<Value>, v: Value, called: seq<Value>, rest: seq<Value>)
    requires first == [] || first == [v]
    requires multiset(called) <= multiset(rest)
    ensures multiset(first + called) <= multiset([v] + rest)
  {
  }

  /**
   * The request for a variable uses the template of the first rule that
   * accepts it: no earlier rule accepts it, and later rules are not consulted.
   */
  lemma FirstMatchingRuleWins(rules: seq<Dumper>, v: Value, i: nat)
    requires i < |rules| && TestIfDumperMatches(rules[i], v) == Success(true)
    requires forall j | 0 <= j < i :: TestIfDumperMatches(rules[j], v) == Success(false)
    ensures DumpOne(rules, v) == DumpRun([TemplateCall(rules[i].template, v, GetType(v))], None)
  {
  }

  /** Reaching a rule with an unknown test type raises, naming that rule, and renders nothing. */
  lemma FirstUnknownTestRaises(rules: seq<Dumper>, v: Value, i: nat)
    requires i < |rules| && rules[i].test.MatchUnknown?
    requires forall j | 0 <= j < i :: TestIfDumperMatches(rules[j], v) == Success(false)
    ensures DumpOne(rules, v) == DumpRun([], Some(InvalidTestType(rules[i].name)))
  {
  }

  /**
   * A rule with an unknown test type raises only when it is reached: once an
   * earlier rule accepts the variable, it is never evaluated.
   */
  lemma UnknownTestRaisesOnlyWhenReached(rules: seq<Dumper>, v: Value, i: nat)
    requires i < |rules| && TestIfDumperMatches(rules[i], v) == Success(true)
    requires forall j | 0 <= j < i :: !rules[j].test.MatchUnknown?
    ensures DumpOne(rules, v).error.None?
  {
  }

  /** A variable that no rule accepts renders nothing and raises nothing. */
  lemma NoAcceptingRuleRendersNothing(rules: seq<Dumper>, v: Value)
    requires forall j | 0 <= j < |rules| :: TestIfDumperMatches(rules[j], v) == Success(false)
    ensures DumpOne(rules, v) == DumpRun([], None)
  {
  }

  /**
   * A variable that renders nothing is skipped silently: the run over the
   * other variables is exactly what it would be without it.
   */
  lemma UnmatchedVariableIsSkipped(rules: seq<Dumper>, a: seq<Value>, v: Value, b: seq<Value>)
    requires DumpVars(rules, a).error.None?
    requires DumpOne(rules, v) == DumpRun([], None)
    ensures DumpVars(rules, a + [v] + b) == DumpVars(rules, a + b)
  {
    DumpVarsAppend(rules, a, [v] + b);
    assert a + [v] + b == a + ([v] + b);
    assert ([v] + b)[1..] == b;
    DumpVarsAppend(rules, a, b);
  }

  /**
   * Appending a rule leaves the dispatch of every variable that an earlier
   * rule already decided unchanged; only variables that fell through all the
   * old rules can reach the new one.
   */
  lemma {:induction false} AppendedRuleOnlyCatchesFallThrough(rules: seq<Dumper>, d: Dumper, v: Value, k: nat)
    requires k <= |rules|
    ensures !FirstMatch(rules, v, k).Unmatched? ==> FirstMatch(rules + [d], v, k) == FirstMatch(rules, v, k)
    ensures FirstMatch(rules, v, k).Unmatched? ==>
      FirstMatch(rules + [d], v, k) ==
        match TestIfDumperMatches(d, v)
        case Failure(_) => Invalid(|rules|)
        case Success(true) => Matched(|rules|)
        case Success(false) => Unmatched
    decreases |rules| - k
  {
    var extended := rules + [d];
    if k < |rules| {
      assert extended[k] == rules[k];
      match TestIfDumperMatches(rules[k], v)
      case Failure(_) =>
      case Success(true) =>
      case Success(false) =>
        assert FirstMatch(rules, v, k) == FirstMatch(rules, v, k + 1);
        assert FirstMatch(extended, v, k) == FirstMatch(extended, v, k + 1);
        AppendedRuleOnlyCatchesFallThrough(rules, d, v, k + 1);
    } else {
      assert extended[k] == d;
      assert FirstMatch(extended, v, k + 1) == Unmatched;
    }
  }

  /** When the first rule is a catch-all, every variable goes to its template. */
  lemma CatchAllFirstShadowsTheRest(rules: seq<Dumper>, v: Value)
    requires |rules| > 0 && rules[0].test.MatchAll?
    ensures DumpOne(rules, v) == DumpRun([TemplateCall(rules[0].template, v, GetType(v))], None)
  {
  }

  class VariableDumper {
    /** The engine the dumper's templates are resolved by (shared, not owned). */
    const templateEngine: Templates.TemplateEngine
    /** The rules in order of addition: first added, first tried. */
    var dumpers: seq<Dumper>
    /** The template requests issued so far, in order. */
    var rendered: seq<TemplateCall>

    constructor (templateEngine: Templates.TemplateEngine)
      ensures this.templateEngine == templateEngine && dumpers == [] && rendered == []
    {
      this.templateEngine := templateEngine;
      dumpers := [];
      rendered := [];
    }

    method GetTemplateEngine() returns (e: Templates.TemplateEngine)
      ensures e == templateEngine
    {
      e := templateEngine;
    }

    /** Appends one rule at the end; the earlier rules and their order are kept. */
    method AddDumper(name: string, templateResource: string, test: Test)
      modifies this`dumpers
      ensures dumpers == old(dumpers) + [Dumper(name, templateResource, test)]
    {
      dumpers := dumpers + [Dumper(name, templateResource, test)];
    }

    /**
     * Dumps the variables in argument order: each goes to the first rule that
     * accepts it, or nowhere. No arguments at all is an error; so is reaching a
     * rule with an unknown test type, after the requests already issued.
     */
    method Dump(vars: seq<Value>) returns (r: Outcome<DumpError>)
      modifies this`rendered
      ensures |vars| == 0 ==> r == Fail(NoArguments) && rendered == old(rendered)
      ensures |vars| > 0 ==>
        var run := DumpVars(dumpers, vars);
        rendered == old(rendered) + run.calls &&
        r == (if run.error.Some? then Fail(run.error.value) else Pass)
    {
      if |vars| == 0 {
        return Fail(NoArguments);
      }
      var i := 0;
      while i < |vars|
        invariant 0 <= i <= |vars|
        invariant DumpVars(dumpers, vars[..i]).error.None?
        invariant rendered == old(rendered) + DumpVars(dumpers, vars[..i]).calls
      {
        var error := DumpVariable(vars[i]);
        if error.Some? {
          DumpVarsStopsAt(dumpers, vars, i);
          return Fail(error.value);
        }
        DumpVarsExtend(dumpers, vars, i);
        i := i + 1;
      }
      assert vars[..i] == vars;
      r := Pass;
    }

    /**
     * The inner loop of `dump`: tries the rules in insertion order and issues
     * the request of the first that accepts `variable`.
     */
    method DumpVariable(variable: Value) returns (error: Option<DumpError>)
      modifies this`rendered
      ensures rendered == old(rendered) + DumpOne(dumpers, variable).calls
      ensures error == DumpOne(dumpers, variable).error
    {
      var j := 0;
      while j < |dumpers|
        invariant 0 <= j <= |dumpers|
        invariant forall k | 0 <= k < j :: TestIfDumperMatches(dumpers[k], variable) == Success(false)
        invariant rendered == old(rendered)
      {
        var matches := TestIfDumperMatches(dumpers[j], variable);
        if matches.Failure? {
          FirstUnknownTestRaises(dumpers, variable, j);
          return Some(matches.error);
        }
        if matches.value {
          FirstMatchingRuleWins(dumpers, variable, j);
          rendered := rendered + [TemplateCall(dumpers[j].template, variable, GetType(variable))];
          return None;
        }
        j := j + 1;
      }
      NoAcceptingRuleRendersNothing(dumpers, variable);
      return None;
    }
  }
}
