/**
 * The Python values the framework passes around as result items and sort
 * keys (None, bool, int, str, list, tuple and str-keyed dict), with Python's
 * `<`, truthiness, `str()` and `type(v).__name__` on them.
 */
module Values {
  import opened Wrappers
  import opened Text

  datatype Value =
    | VNone
    | VBool(b: bool)
    | VInt(i: int)
    | VStr(s: string)
    | VList(items: seq<Value>)
    | VTuple(items: seq<Value>)
    | VMap(fields: map<string, Value>)

  type Row = map<string, Value>

  predicate IsNumber(v: Value) { v.VBool? || v.VInt? }

  function NumOf(v: Value): int
    requires IsNumber(v)
  {
    if v.VInt? then v.i else if v.b then 1 else 0
  }

  /**
   * Python's `a < b`: numbers by value (bool counts as 0 or 1), str
   * lexicographically, lists and tuples lexicographically by element;
   * any other pairing raises TypeError (None).
   */
  function PyLess(a: Value, b: Value): Option<bool>
    decreases a, 1
  {
    if IsNumber(a) && IsNumber(b) then Some(NumOf(a) < NumOf(b))
    else if a.VStr? && b.VStr? then Some(LexLess(a.s, b.s))
    else if (a.VList? && b.VList?) || (a.VTuple? && b.VTuple?) then SeqLessFrom(a, b, 0)
    else None
  }

  /** Element-wise comparison of two lists from index `i` on. */
  function SeqLessFrom(a: Value, b: Value, i: nat): Option<bool>
    requires (a.VList? && b.VList?) || (a.VTuple? && b.VTuple?)
    decreases a, 0, |a.items| - i
  {
    if i >= |a.items| || i >= |b.items| then Some(|a.items| < |b.items|)
    else if a.items[i] == b.items[i] then SeqLessFrom(a, b, i + 1)
    else PyLess(a.items[i], b.items[i])
  }

  /** No value is less than itself. */
  lemma {:induction false} PyLessIrreflexive(a: Value)
    ensures PyLess(a, a) != Some(true)
  {
    if a.VStr? {
      LexLessIrreflexive(a.s);
    } else if a.VList? || a.VTuple? {
      SeqLessFromIrreflexive(a, 0);
    }
  }

  lemma {:induction false} SeqLessFromIrreflexive(a: Value, i: nat)
    requires a.VList? || a.VTuple?
    ensures SeqLessFrom(a, a, i) != Some(true)
    decreases |a.items| - i
  {
    if i < |a.items| {
      SeqLessFromIrreflexive(a, i + 1);
    }
  }

  /** `a < b` and `b < a` never both hold. */
  lemma {:induction false} PyLessAsymmetric(a: Value, b: Value)
    ensures PyLess(a, b) == Some(true) ==> PyLess(b, a) == Some(false)
    decreases a, 1
  {
    if IsNumber(a) && IsNumber(b) {
    } else if a.VStr? && b.VStr? {
      LexLessAsymmetric(a.s, b.s);
    } else if (a.VList? && b.VList?) || (a.VTuple? && b.VTuple?) {
      SeqLessFromAsymmetric(a, b, 0);
    }
  }

  lemma {:induction false} SeqLessFromAsymmetric(a: Value, b: Value, i: nat)
    requires (a.VList? && b.VList?) || (a.VTuple? && b.VTuple?)
    ensures SeqLessFrom(a, b, i) == Some(true) ==> SeqLessFrom(b, a, i) == Some(false)
    decreases a, 0, |a.items| - i
  {
    if i < |a.items| && i < |b.items| {
      if a.items[i] == b.items[i] {
        SeqLessFromAsymmetric(a, b, i + 1);
      } else {
        PyLessAsymmetric(a.items[i], b.items[i]);
      }
    }
  }

  /** Python's `bool(v)`. */
  predicate Truthy(v: Value)
  {
    match v
    case VNone => false
    case VBool(b) => b
    case VInt(i) => i != 0
    case VStr(s) => s != ""
    case VList(items) => items != []
    case VTuple(items) => items != []
    case VMap(fields) => fields != map[]
  }

  /** Python's `str(v)` for scalars; the repr of a container is not modelled (None). */
  function PyStr(v: Value): Option<string>
  {
    match v
    case VNone => Some("None")
    case VBool(b) => Some(if b then "True" else "False")
    case VInt(i) => Some(Decimal(i))
    case VStr(s) => Some(s)
    case _ => None
  }

  /** `type(v).__name__` */
  function TypeName(v: Value): string
  {
    match v
    case VNone => "NoneType"
    case VBool(_) => "bool"
    case VInt(_) => "int"
    case VStr(_) => "str"
    case VList(_) => "list"
    case VTuple(_) => "tuple"
    case VMap(_) => "dict"
  }
}
