/**
 * The Python values the helpers receive as `Any`: `None`, booleans, integers,
 * strings, lists, and the other containers (tuples, dicts, sets) of which only
 * the size and the printed form matter here.
 */
module PyValues {
  import opened PyText

  datatype CollectionKind = TupleKind | DictKind | SetKind

  datatype Value =
    | PyNone
    | PyBool(b: bool)
    | PyInt(i: int)
    | PyStr(s: string)
    | PyList(items: seq<Value>)
      /** A tuple, dict or set with `size` elements whose `repr` is `text`. */
    | PyCollection(kind: CollectionKind, size: nat, text: string)

  /** Python's `bool(v)`. */
  predicate Truthy(v: Value) {
    match v
    case PyNone => false
    case PyBool(b) => b
    case PyInt(i) => i != 0
    case PyStr(s) => s != ""
    case PyList(items) => |items| > 0
    case PyCollection(_, size, _) => size > 0
  }

  /** Python's `isinstance(v, int)`, which holds of booleans too. */
  predicate IsIntInstance(v: Value) {
    v.PyBool? || v.PyInt?
  }

  /** Python's `isinstance(v, (list, dict, tuple, set))`. */
  predicate IsContainer(v: Value) {
    v.PyList? || v.PyCollection?
  }

  function NumericValue(v: Value): int
    requires IsIntInstance(v)
  {
    if v.PyBool? then (if v.b then 1 else 0) else v.i
  }

  /** Python's `repr(v)`. */
  function Repr(v: Value): string
    decreases v
  {
    match v
    case PyNone => "None"
    case PyBool(b) => if b then "True" else "False"
    case PyInt(i) => IntToString(i)
    case PyStr(s) => StrRepr(s)
    case PyList(items) =>
      "[" + Join(", ", seq(|items|, k requires 0 <= k < |items| => Repr(items[k]))) + "]"
    case PyCollection(_, _, text) => text
  }

  /** Python's `str(v)`, which is `repr(v)` for everything but strings. */
  function Str(v: Value): string {
    if v.PyStr? then v.s else Repr(v)
  }

  /**
   * Python's `==` between two values: `1 == True`, lists compare element-wise.
   * Tuples, dicts and sets are compared by their stored kind, size and `repr`,
   * which approximates Python: two equal dicts or sets printed in different
   * orders compare unequal here.
   */
  predicate PyEq(a: Value, b: Value)
    decreases a
  {
    if IsIntInstance(a) && IsIntInstance(b) then NumericValue(a) == NumericValue(b)
    else if a.PyList? && b.PyList? then
      |a.items| == |b.items| && forall k :: 0 <= k < |a.items| ==> PyEq(a.items[k], b.items[k])
    else a == b
  }

  /** Every value equals itself, element by element through nested lists. */
  lemma {:induction false} PyEqReflexive(v: Value)
    ensures PyEq(v, v)
    decreases v
  {
    if v.PyList? {
      forall k | 0 <= k < |v.items|
        ensures PyEq(v.items[k], v.items[k])
      {
        PyEqReflexive(v.items[k]);
      }
    }
  }

  /** `==` does not depend on the order of its operands. */
  lemma {:induction false} PyEqSymmetric(a: Value, b: Value)
    ensures PyEq(a, b) <==> PyEq(b, a)
    decreases a
  {
    if a.PyList? && b.PyList? && |a.items| == |b.items| {
      forall k | 0 <= k < |a.items|
        ensures PyEq(a.items[k], b.items[k]) <==> PyEq(b.items[k], a.items[k])
      {
        PyEqSymmetric(a.items[k], b.items[k]);
      }
    }
  }

  /** Python's `v in vs` for a list `vs`. */
  predicate PyIn(v: Value, vs: seq<Value>) {
    exists k :: 0 <= k < |vs| && PyEq(v, vs[k])
  }
}
