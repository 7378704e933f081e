/**
 * PHP runtime values as far as the pretty-page renderer looks at them:
 * the type tag that `gettype` reports, truthiness (PHP's conversion to
 * boolean, whose negation is `empty`), and `array_merge`.
 */
module PhpValues {

  /** An array key: an integer or a (non-numeric) string. */
  datatype Key = IntKey(index: int) | StrKey(name: string)

  /**
   * A PHP value. Objects (closures included) and resources are known only by
   * their class and handle; floats are modelled as reals.
   */
  datatype Value =
    | VNull
    | VBool(b: bool)
    | VInt(i: int)
    | VFloat(f: real)
    | VString(s: string)
    | VArray(entries: seq<Entry>)
    | VObject(className: string, handle: nat)
    | VResource(handle: nat)

  /** One key/value slot of an ordered PHP array. */
  datatype Entry = Entry(key: Key, val: Value)

  /** The type names `gettype` returns. */
  function GetType(v: Value): string
  {
    match v
    case VNull => "NULL"
    case VBool(_) => "boolean"
    case VInt(_) => "integer"
    case VFloat(_) => "double"
    case VString(_) => "string"
    case VArray(_) => "array"
    case VObject(_, _) => "object"
    case VResource(_) => "resource"
  }

  /** Two values get the same `gettype` name exactly when they are of the same kind. */
  lemma GetTypeNamesKinds(v: Value, w: Value)
    ensures GetType(v) == GetType(w) <==>
      (v.VNull? && w.VNull?) || (v.VBool? && w.VBool?) || (v.VInt? && w.VInt?) ||
      (v.VFloat? && w.VFloat?) || (v.VString? && w.VString?) || (v.VArray? && w.VArray?) ||
      (v.VObject? && w.VObject?) || (v.VResource? && w.VResource?)
  {
  }

  /** PHP's boolean conversion; `empty($v)` is `!Truthy(v)`. */
  predicate Truthy(v: Value)
  {
    match v
    case VNull => false
    case VBool(b) => b
    case VInt(i) => i != 0
    case VFloat(f) => f != 0.0
    case VString(s) => s != "" && s != "0"
    case VArray(es) => |es| > 0
    case VObject(_, _) => true
    case VResource(_) => true
  }

  /** The values of an array, in order. */
  function Values(es: seq<Entry>): seq<Value>
  {
    seq(|es|, i requires 0 <= i < |es| => es[i].val)
  }

  /** The PHP list holding `vs` under the keys 0, 1, 2, ... */
  function List(vs: seq<Value>): seq<Entry>
  {
    seq(|vs|, i requires 0 <= i < |vs| => Entry(IntKey(i), vs[i]))
  }

  predicate AllIntKeys(es: seq<Entry>)
  {
    forall i | 0 <= i < |es| :: es[i].key.IntKey?
  }

  /** `$a[k] = v` for a string key: overwrite in place if present, else append. */
  function Put(es: seq<Entry>, k: string, v: Value): seq<Entry>
  {
    if |es| == 0 then [Entry(StrKey(k), v)]
    else if es[0].key == StrKey(k) then [Entry(StrKey(k), v)] + es[1..]
    else [es[0]] + Put(es[1..], k, v)
  }

  /**
   * The loop inside `array_merge`: integer-keyed entries are appended and
   * renumbered from `next`, string-keyed entries overwrite an equal key.
   */
  function MergeInto(acc: seq<Entry>, next: int, es: seq<Entry>): seq<Entry>
    decreases |es|
  {
    if |es| == 0 then acc
    else
      match es[0].key
      case IntKey(_) => MergeInto(acc + [Entry(IntKey(next), es[0].val)], next + 1, es[1..])
      case StrKey(k) => MergeInto(Put(acc, k, es[0].val), next, es[1..])
  }

  /** `array_merge($a, $b)`. */
  function ArrayMerge(a: seq<Entry>, b: seq<Entry>): seq<Entry>
  {
    MergeInto([], 0, a + b)
  }

  lemma {:induction false} MergeIntoIntKeys(vs: seq<Value>, es: seq<Entry>)
    requires AllIntKeys(es)
    ensures MergeInto(List(vs), |vs|, es) == List(vs + Values(es))
    decreases |es|
  {
    if |es| == 0 {
      assert vs + Values(es) == vs;
    } else {
      var x := es[0].val;
      assert List(vs) + [Entry(IntKey(|vs|), x)] == List(vs + [x]);
      MergeIntoIntKeys(vs + [x], es[1..]);
      assert vs + [x] + Values(es[1..]) == vs + Values(es);
    }
  }

  /**
   * On arrays with integer keys only, `array_merge` renumbers: the result is
   * the list of the values of `a` followed by the values of `b`.
   */
  lemma ArrayMergeIntKeys(a: seq<Entry>, b: seq<Entry>)
    requires AllIntKeys(a) && AllIntKeys(b)
    ensures ArrayMerge(a, b) == List(Values(a) + Values(b))
  {
    assert AllIntKeys(a + b);
    assert List([]) == [];
    MergeIntoIntKeys([], a + b);
    assert Values(a + b) == Values(a) + Values(b);
    assert [] + Values(a + b) == Values(a + b);
  }

  /** The list case used by attribute merging: two lists concatenate. */
  lemma ArrayMergeLists(xs: seq<Value>, ys: seq<Value>)
    ensures ArrayMerge(List(xs), List(ys)) == List(xs + ys)
  {
    ArrayMergeIntKeys(List(xs), List(ys));
    assert Values(List(xs)) == xs;
    assert Values(List(ys)) == ys;
  }
}
