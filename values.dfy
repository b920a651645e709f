/** Python values as the command registry sees them: the argument maps that
    callers pass, the allowed values in a parameter's `choices`, and the
    payload a handler returns. Only the value kinds that the validator can
    tell apart are modelled. */
module Values {

  datatype Option<+T> = None | Some(value: T)

  /** A Python value: `None`, `str`, `int`, `float`, `bool`, a `dict` with
      string keys, or a `list`. */
  datatype Value =
    | VNone
    | VStr(s: string)
    | VInt(i: int)
    | VFloat(f: real)
    | VBool(b: bool)
    | VDict(entries: map<string, Value>)
    | VList(items: seq<Value>)

  /** The Python classes that a parameter's type tag can name. */
  datatype PyClass = StrClass | IntClass | FloatClass | BoolClass | DictClass | ListClass

  /** `params.get(name)`: the value under `name`, or `None` when the key is
      absent. An explicit `None` argument reads the same as an absent one. */
  function Lookup(args: map<string, Value>, name: string): (v: Value)
    ensures v.VNone? <==> name !in args || args[name].VNone?
    ensures name in args ==> v == args[name]
  {
    if name in args then args[name] else VNone
  }

  /** `isinstance(v, cls)`. `bool` is a subclass of `int` in Python, so a
      boolean is an instance of `int`; an `int` is not an instance of
      `float`. */
  predicate IsInstance(v: Value, cls: PyClass)
  {
    match cls
    case StrClass => v.VStr?
    case IntClass => v.VInt? || v.VBool?
    case FloatClass => v.VFloat?
    case BoolClass => v.VBool?
    case DictClass => v.VDict?
    case ListClass => v.VList?
  }

  /** `type(v).__name__`. */
  function TypeName(v: Value): string
  {
    match v
    case VNone => "NoneType"
    case VStr(_) => "str"
    case VInt(_) => "int"
    case VFloat(_) => "float"
    case VBool(_) => "bool"
    case VDict(_) => "dict"
    case VList(_) => "list"
  }

  /** True for the values Python compares as numbers. */
  predicate IsNumber(v: Value)
  {
    v.VInt? || v.VFloat? || v.VBool?
  }

  /** The numeric value of a number, with `True == 1` and `False == 0`. */
  function NumberOf(v: Value): real
    requires IsNumber(v)
  {
    match v
    case VInt(i) => i as real
    case VFloat(f) => f
    case VBool(b) => if b then 1.0 else 0.0
  }

  /** Python's `==`: numbers compare by value across `int`, `float` and
      `bool`; lists compare element-wise and dicts key-wise with the same
      equality; anything else compares structurally. */
  predicate PyEq(a: Value, b: Value)
  {
    match (a, b)
    case (VNone, VNone) => true
    case (VStr(x), VStr(y)) => x == y
    case (VList(xs), VList(ys)) =>
      |xs| == |ys| && forall i :: 0 <= i < |xs| ==> PyEq(xs[i], ys[i])
    case (VDict(m), VDict(n)) =>
      m.Keys == n.Keys && forall k :: k in m ==> PyEq(m[k], n[k])
    case _ => IsNumber(a) && IsNumber(b) && NumberOf(a) == NumberOf(b)
  }

  /** `v in choices`: some element of `choices` equals `v` under Python's `==`. */
  predicate PyIn(v: Value, choices: seq<Value>)
  {
    exists i :: 0 <= i < |choices| && PyEq(v, choices[i])
  }

  /** Python's `==` is reflexive on every value the model admits (no NaN). */
  lemma {:induction false} PyEqReflexive(v: Value)
    ensures PyEq(v, v)
  {
    match v
    case VList(xs) =>
      forall i | 0 <= i < |xs| ensures PyEq(xs[i], xs[i]) {
        PyEqReflexive(xs[i]);
      }
    case VDict(m) =>
      forall k | k in m ensures PyEq(m[k], m[k]) {
        PyEqReflexive(m[k]);
      }
    case _ =>
  }

  /** Membership under Python's `==` includes plain membership, and an
      integer equal to a float choice is a member too. */
  lemma PyInContains(v: Value, choices: seq<Value>)
    ensures v in choices ==> PyIn(v, choices)
    ensures PyIn(VInt(1), [VFloat(1.0)]) && PyIn(VBool(true), [VInt(1)])
    ensures !PyIn(VStr("1"), [VInt(1)])
  {
    if v in choices {
      var i :| 0 <= i < |choices| && choices[i] == v;
      PyEqReflexive(v);
    }
    assert PyEq(VInt(1), [VFloat(1.0)][0]);
    assert PyEq(VBool(true), [VInt(1)][0]);
  }
}
