/**
 * Sorting support of the results module: field paths (`nested_itemgetter`),
 * the pairwise sort-key comparison (`_goes_before_than`) and the merge of
 * already-sorted partitions (`merge`).
 */
module Ordering {
  import opened Wrappers
  import opened Text
  import opened Values

  // ---------------------------------------------------------------- paths

  /**
   * The position of the first '.' in `s` that is not preceded by a backslash,
   * or `|s|` when there is none.
   */
  function FirstSeparator(s: string): (i: nat)
    ensures i <= |s|
    ensures i < |s| ==> s[i] == '.' && (i == 0 || s[i - 1] != '\\')
    ensures forall j :: 0 <= j < i && s[j] == '.' ==> j > 0 && s[j - 1] == '\\'
  {
    if |s| == 0 then 0
    else if s[0] == '.' then 0
    else FirstSeparatorFrom(s, 1)
  }

  function FirstSeparatorFrom(s: string, k: nat): (i: nat)
    requires 1 <= k <= |s|
    requires forall j :: 0 <= j < k && s[j] == '.' ==> j > 0 && s[j - 1] == '\\'
    ensures k <= i <= |s|
    ensures i < |s| ==> s[i] == '.' && s[i - 1] != '\\'
    ensures forall j :: 0 <= j < i && s[j] == '.' ==> j > 0 && s[j - 1] == '\\'
    decreases |s| - k
  {
    if k == |s| then k
    else if s[k] == '.' && s[k - 1] != '\\' then k
    else FirstSeparatorFrom(s, k + 1)
  }

  /** Turn every `\.` of a path segment into `.`, scanning left to right. */
  function Unescape(seg: string): string
  {
    if |seg| == 0 then ""
    else if |seg| >= 2 && seg[0] == '\\' && seg[1] == '.' then "." + Unescape(seg[2..])
    else [seg[0]] + Unescape(seg[1..])
  }

  /** A field path: split on unescaped dots, then unescape each segment. */
  function SplitPath(expr: string): (path: seq<string>)
    ensures |path| >= 1
    decreases |expr|
  {
    var i := FirstSeparator(expr);
    if i == |expr| then [Unescape(expr)]
    else [Unescape(expr[..i])] + SplitPath(expr[i + 1..])
  }

  /** Escape the dots of one segment. */
  function Escape(seg: string): string
  {
    ReplaceChar(seg, '.', "\\.")
  }

  /** The expression naming a path: its escaped segments joined by dots. */
  function PathExpression(path: seq<string>): string
  {
    Join(".", seq(|path|, i requires 0 <= i < |path| => Escape(path[i])))
  }

  /** Reading back the expression of a path gives the path, for segments without backslashes. */
  lemma {:induction false} SplitPathExpression(path: seq<string>)
    requires |path| >= 1
    requires forall i :: 0 <= i < |path| ==> '\\' !in path[i]
    ensures SplitPath(PathExpression(path)) == path
    decreases |path|
  {
    var e0 := Escape(path[0]);
    EscapeNoSeparator(path[0]);
    UnescapeEscape(path[0]);
    if |path| == 1 {
      assert PathExpression(path) == e0;
      assert SplitPath(e0) == [Unescape(e0)];
    } else {
      var rest := path[1..];
      PathExpressionCons(path);
      SplitPathCons(e0, PathExpression(rest));
      SplitPathExpression(rest);
      assert [path[0]] + rest == path;
    }
  }

  /** The expression of a path of several segments: the first, a dot, the expression of the rest. */
  lemma PathExpressionCons(path: seq<string>)
    requires |path| >= 2
    ensures PathExpression(path) == Escape(path[0]) + "." + PathExpression(path[1..])
  {
    var esc := seq(|path|, i requires 0 <= i < |path| => Escape(path[i]));
    var rest := path[1..];
    var escRest := seq(|rest|, i requires 0 <= i < |rest| => Escape(rest[i]));
    assert esc[1..] == escRest;
    assert esc == [Escape(path[0])] + esc[1..];
    JoinCons(".", Escape(path[0]), esc[1..]);
  }

  /** An escaped segment, a dot and more: the path starts with the unescaped segment. */
  lemma SplitPathCons(e: string, tail: string)
    requires EscapedSegment(e)
    ensures SplitPath(e + "." + tail) == [Unescape(e)] + SplitPath(tail)
  {
    var s := e + "." + tail;
    SeparatorAfterEscaped(e, tail);
    assert s[..|e|] == e && s[|e| + 1..] == tail;
  }

  /** In an escaped segment every dot follows a backslash, and it does not end in a backslash. */
  predicate EscapedSegment(e: string)
  {
    (forall j :: 0 <= j < |e| && e[j] == '.' ==> j > 0 && e[j - 1] == '\\') &&
    (|e| > 0 ==> e[|e| - 1] != '\\')
  }

  lemma {:induction false} EscapeNoSeparator(seg: string)
    requires '\\' !in seg
    ensures EscapedSegment(Escape(seg))
    ensures FirstSeparator(Escape(seg)) == |Escape(seg)|
    decreases |seg|
  {
    var e := Escape(seg);
    if |seg| > 0 {
      EscapeNoSeparator(seg[1..]);
      var h := if seg[0] == '.' then "\\." else [seg[0]];
      assert e == h + Escape(seg[1..]);
      var r := Escape(seg[1..]);
      forall j | 0 <= j < |e| && e[j] == '.'
        ensures j > 0 && e[j - 1] == '\\'
      {
        if j >= |h| {
          assert e[j] == r[j - |h|];
          assert j - |h| > 0;
          assert e[j - 1] == r[j - |h| - 1];
        }
      }
      if |r| > 0 {
        assert e[|e| - 1] == r[|r| - 1];
      }
    }
    NoSeparatorInEscaped(e);
  }

  lemma NoSeparatorInEscaped(e: string)
    requires forall j :: 0 <= j < |e| && e[j] == '.' ==> j > 0 && e[j - 1] == '\\'
    ensures FirstSeparator(e) == |e|
  {
  }

  lemma SeparatorAfterEscaped(e: string, tail: string)
    requires EscapedSegment(e)
    ensures FirstSeparator(e + "." + tail) == |e|
  {
    var s := e + "." + tail;
    assert s[|e|] == '.';
    assert forall j :: 0 <= j < |e| ==> s[j] == e[j];
    if |e| == 0 {
      assert FirstSeparator(s) == 0;
    } else {
      assert s[|e| - 1] != '\\';
    }
  }

  lemma {:induction false} UnescapeEscape(seg: string)
    requires '\\' !in seg
    ensures Unescape(Escape(seg)) == seg
    decreases |seg|
  {
    if |seg| > 0 {
      UnescapeEscape(seg[1..]);
      var r := Escape(seg[1..]);
      if seg[0] == '.' {
        assert Escape(seg) == "\\." + r;
        assert Unescape("\\." + r) == "." + Unescape(r) by { assert ("\\." + r)[2..] == r; }
      } else {
        assert Escape(seg) == [seg[0]] + r;
        assert Unescape([seg[0]] + r) == [seg[0]] + Unescape(r) by {
          assert ([seg[0]] + r)[1..] == r;
          assert seg[0] != '\\';
        }
      }
      assert seg == [seg[0]] + seg[1..];
    }
  }

  // ------------------------------------------------------- nested lookups

  datatype Lookup = Found(v: Value) | NoKey | NotMapping

  /** Indexing along a path: a missing key is KeyError, indexing a non-dict TypeError. */
  function Walk(v: Value, path: seq<string>): Lookup
  {
    if |path| == 0 then Found(v)
    else if !v.VMap? then NotMapping
    else if path[0] !in v.fields then NoKey
    else Walk(v.fields[path[0]], path[1..])
  }

  /**
   * `nested_itemgetter(*exprs)(item)`: each expression's value (None for a
   * missing key), a single value for one expression and a tuple otherwise;
   * the item itself, unchanged, as soon as some path cannot be indexed.
   */
  function NestedItemGetter(exprs: seq<string>, item: Value): (r: Value)
    ensures (exists i :: 0 <= i < |exprs| && Walk(item, SplitPath(exprs[i])).NotMapping?) ==> r == item
    ensures (forall i :: 0 <= i < |exprs| ==> !Walk(item, SplitPath(exprs[i])).NotMapping?) ==>
              r == if |exprs| == 1 then Resolved(item, exprs[0]) else VTuple(seq(|exprs|, i requires 0 <= i < |exprs| => Resolved(item, exprs[i])))
  {
    if exists i :: 0 <= i < |exprs| && Walk(item, SplitPath(exprs[i])).NotMapping? then item
    else if |exprs| == 1 then Resolved(item, exprs[0])
    else VTuple(seq(|exprs|, i requires 0 <= i < |exprs| => Resolved(item, exprs[i])))
  }

  function Resolved(item: Value, expr: string): Value
  {
    match Walk(item, SplitPath(expr))
    case Found(v) => v
    case _ => VNone
  }

  // ------------------------------------------------------------- casting

  /** The builtins a sort type name can name. */
  datatype Caster = NoCast | IntCast | StrCast | BoolCast | ListCast | TupleCast | DictCast | Unsupported(name: string)

  function CasterOf(name: string): Caster
  {
    if name == "int" then IntCast
    else if name == "str" then StrCast
    else if name == "bool" then BoolCast
    else if name == "list" then ListCast
    else if name == "tuple" then TupleCast
    else if name == "dict" then DictCast
    else Unsupported(name)
  }

  function Chars(s: string): seq<Value>
  {
    seq(|s|, i requires 0 <= i < |s| => VStr([s[i]]))
  }

  /** Applying a caster; None when the builtin raises or is not modelled. */
  function Cast(c: Caster, v: Value): Option<Value>
  {
    match c
    case NoCast => Some(v)
    case IntCast =>
      if IsNumber(v) then Some(VInt(NumOf(v)))
      else if v.VStr? then (match ParseInt(v.s) case Some(n) => Some(VInt(n)) case None => None)
      else None
    case StrCast => (match PyStr(v) case Some(s) => Some(VStr(s)) case None => None)
    case BoolCast => Some(VBool(Truthy(v)))
    case ListCast =>
      if v.VStr? then Some(VList(Chars(v.s)))
      else if v.VList? || v.VTuple? then Some(VList(v.items))
      else None
    case TupleCast =>
      if v.VStr? then Some(VTuple(Chars(v.s)))
      else if v.VList? || v.VTuple? then Some(VTuple(v.items))
      else None
    case DictCast => if v.VMap? then Some(v) else None
    case Unsupported(_) => None
  }

  // ----------------------------------------------------------- comparison

  function Min4(a: nat, b: nat, c: nat, d: nat): nat
  {
    var ab := if a < b then a else b;
    var cd := if c < d then c else d;
    if ab < cd then ab else cd
  }

  /**
   * `_goes_before_than(a, b, ascending, casters)`: walk the keys pairwise (as
   * `zip` does, up to the shortest of the four); None sorts first; cast both
   * values, skip equal pairs, and decide by `<` (ascending) or `>` on the
   * first pair that differs; False when all pairs are equal. None as the
   * result: a cast or a comparison raised.
   */
  function GoesBefore(a: seq<Value>, b: seq<Value>, ascending: Option<seq<Value>>, casters: Option<seq<Caster>>): (r: Option<bool>)
    ensures a == b ==> r != Some(true)
    ensures |a| == 0 || |b| == 0 ==> r == Some(false)
  {
    var asc := if ascending.Some? then ascending.value else seq(|a|, _ => VBool(true));
    var cs := if casters.Some? then casters.value else seq(|a|, _ => NoCast);
    GoesBeforeIrreflexive(a, asc, cs, 0);
    GoesBeforeFrom(a, b, asc, cs, 0)
  }

  function GoesBeforeFrom(a: seq<Value>, b: seq<Value>, asc: seq<Value>, cs: seq<Caster>, i: nat): Option<bool>
    decreases Min4(|a|, |b|, |asc|, |cs|) - i
  {
    if i >= Min4(|a|, |b|, |asc|, |cs|) then Some(false)
    else if a[i].VNone? && b[i].VNone? then GoesBeforeFrom(a, b, asc, cs, i + 1)
    else if a[i].VNone? then Some(true)
    else if b[i].VNone? then Some(false)
    else
      var x := Cast(cs[i], a[i]);
      var y := Cast(cs[i], b[i]);
      if x.None? || y.None? then None
      else if x.value == y.value then GoesBeforeFrom(a, b, asc, cs, i + 1)
      else if Truthy(asc[i]) then PyLess(x.value, y.value)
      else PyLess(y.value, x.value)
  }

  /** Equal keys never go before each other. */
  lemma {:induction false} GoesBeforeIrreflexive(a: seq<Value>, asc: seq<Value>, cs: seq<Caster>, i: nat)
    ensures GoesBeforeFrom(a, a, asc, cs, i) != Some(true)
    decreases Min4(|a|, |a|, |asc|, |cs|) - i
  {
    if i < Min4(|a|, |a|, |asc|, |cs|) && !a[i].VNone? {
      if Cast(cs[i], a[i]).Some? {
        GoesBeforeIrreflexive(a, asc, cs, i + 1);
      }
    } else if i < Min4(|a|, |a|, |asc|, |cs|) {
      GoesBeforeIrreflexive(a, asc, cs, i + 1);
    }
  }

  /** Under ascending order a None key goes before any other value and no value before it. */
  lemma NoneGoesFirst(v: Value, c: Caster)
    requires !v.VNone?
    ensures GoesBefore([VNone], [v], Some([VBool(true)]), Some([c])) == Some(true)
    ensures GoesBefore([v], [VNone], Some([VBool(true)]), Some([c])) == Some(false)
    ensures GoesBefore([VNone], [VNone], Some([VBool(true)]), Some([c])) == Some(false)
  {
    assert GoesBeforeFrom([VNone], [VNone], [VBool(true)], [c], 1) == Some(false);
  }

  /** If `a` goes before `b` then `b` does not go before `a`. */
  lemma {:induction false} GoesBeforeAsymmetric(a: seq<Value>, b: seq<Value>, asc: seq<Value>, cs: seq<Caster>, i: nat)
    ensures GoesBeforeFrom(a, b, asc, cs, i) == Some(true) ==> GoesBeforeFrom(b, a, asc, cs, i) == Some(false)
    decreases Min4(|a|, |b|, |asc|, |cs|) - i
  {
    var n := Min4(|a|, |b|, |asc|, |cs|);
    assert n == Min4(|b|, |a|, |asc|, |cs|);
    if i >= n {
    } else if a[i].VNone? && b[i].VNone? {
      GoesBeforeAsymmetric(a, b, asc, cs, i + 1);
    } else if a[i].VNone? || b[i].VNone? {
    } else {
      var ca, cb := Cast(cs[i], a[i]), Cast(cs[i], b[i]);
      if ca.None? || cb.None? {
        assert GoesBeforeFrom(a, b, asc, cs, i) == None;
      } else if ca.value == cb.value {
        GoesBeforeAsymmetric(a, b, asc, cs, i + 1);
        assert GoesBeforeFrom(a, b, asc, cs, i) == GoesBeforeFrom(a, b, asc, cs, i + 1);
        assert GoesBeforeFrom(b, a, asc, cs, i) == GoesBeforeFrom(b, a, asc, cs, i + 1);
      } else {
        PyLessAsymmetric(ca.value, cb.value);
        PyLessAsymmetric(cb.value, ca.value);
        if Truthy(asc[i]) {
          assert GoesBeforeFrom(a, b, asc, cs, i) == PyLess(ca.value, cb.value);
          assert GoesBeforeFrom(b, a, asc, cs, i) == PyLess(cb.value, ca.value);
        } else {
          assert GoesBeforeFrom(a, b, asc, cs, i) == PyLess(cb.value, ca.value);
          assert GoesBeforeFrom(b, a, asc, cs, i) == PyLess(ca.value, cb.value);
        }
      }
    }
  }

  // ---------------------------------------------------------------- merge

  function Flatten(parts: seq<seq<Value>>): seq<Value>
  {
    if |parts| == 0 then [] else parts[0] + Flatten(parts[1..])
  }

  function TotalLength(parts: seq<seq<Value>>): nat
  {
    if |parts| == 0 then 0 else |parts[0]| + TotalLength(parts[1..])
  }

  /** The sort key of an item: the item itself without criteria, else its nested lookups. */
  function SortKey(item: Value, criteria: seq<string>): seq<Value>
  {
    if |criteria| == 0 then [item]
    else
      var k := NestedItemGetter(criteria, item);
      if k.VTuple? then k.items else [k]
  }

  /**
   * How `merge` compares two items: `_goes_before_than` on their sort keys.
   * None: the comparison raised.
   */
  function ItemOrder(criteria: seq<string>, ascending: Option<seq<Value>>, casters: Option<seq<Caster>>): (Value, Value) -> Option<bool>
  {
    (x, y) => GoesBefore(SortKey(x, criteria), SortKey(y, criteria), ascending, casters)
  }

  /**
   * The partition whose head comes next: the first non-empty one, replaced by
   * a later head only when that head strictly goes before it under `cmp`.
   */
  function NextPartition(parts: seq<seq<Value>>, cmp: (Value, Value) -> Option<bool>, best: nat, j: nat): (r: Option<nat>)
    requires best < |parts| && |parts[best]| > 0 && best < j <= |parts|
    ensures r.Some? ==> r.value < |parts| && |parts[r.value]| > 0
    decreases |parts| - j
  {
    if j == |parts| then Some(best)
    else if |parts[j]| == 0 then NextPartition(parts, cmp, best, j + 1)
    else
      match cmp(parts[j][0], parts[best][0])
      case None => None
      case Some(true) => NextPartition(parts, cmp, j, j + 1)
      case Some(false) => NextPartition(parts, cmp, best, j + 1)
  }

  function FirstNonEmpty(parts: seq<seq<Value>>): (i: nat)
    ensures i <= |parts|
    ensures i < |parts| ==> |parts[i]| > 0
    ensures forall j :: 0 <= j < i ==> |parts[j]| == 0
  {
    if |parts| == 0 then 0
    else if |parts[0]| > 0 then 0
    else 1 + FirstNonEmpty(parts[1..])
  }

  /** The types of the sort keys, as builtin names, turned into casters. */
  function CastersOf(types: Option<seq<string>>): Option<seq<Caster>>
  {
    match types
    case None => None
    case Some(ts) => Some(seq(|ts|, i requires 0 <= i < |ts| => CasterOf(ts[i])))
  }

  /**
   * `merge(*parts, criteria, ascending, types)`: repeatedly take the head of
   * the partition that comes next. None: some comparison raised. What comes
   * out is the partitions' items rearranged (`MergePermutation`), in order
   * when the partitions are (`MergeSorted`).
   */
  function Merge(parts: seq<seq<Value>>, criteria: seq<string>, ascending: Option<seq<Value>>, types: Option<seq<string>>): (r: Option<seq<Value>>)
    ensures r.Some? ==> multiset(r.value) == multiset(Flatten(parts))
    ensures (forall i :: 0 <= i < |parts| ==> |parts[i]| == 0) ==> r == Some([])
  {
    var cmp := ItemOrder(criteria, ascending, CastersOf(types));
    MergePermutation(parts, cmp);
    MergeWith(parts, cmp)
  }

  function MergeWith(parts: seq<seq<Value>>, cmp: (Value, Value) -> Option<bool>): Option<seq<Value>>
    decreases TotalLength(parts)
  {
    var first := FirstNonEmpty(parts);
    if first == |parts| then Some([])
    else
      match NextPartition(parts, cmp, first, first + 1)
      case None => None
      case Some(k) =>
        TotalLengthUpdate(parts, k);
        match MergeWith(parts[k := parts[k][1..]], cmp)
        case None => None
        case Some(rest) => Some([parts[k][0]] + rest)
  }

  lemma {:induction false} TotalLengthUpdate(parts: seq<seq<Value>>, k: nat)
    requires k < |parts| && |parts[k]| > 0
    ensures TotalLength(parts[k := parts[k][1..]]) == TotalLength(parts) - 1
    ensures multiset(Flatten(parts[k := parts[k][1..]])) + multiset{parts[k][0]} == multiset(Flatten(parts))
  {
    var upd := parts[k := parts[k][1..]];
    if k == 0 {
      assert upd[1..] == parts[1..];
      assert parts[0] == [parts[0][0]] + parts[0][1..];
    } else {
      assert upd[1..] == parts[1..][k - 1 := parts[1..][k - 1][1..]];
      TotalLengthUpdate(parts[1..], k - 1);
    }
  }

  /** A merge outputs exactly the items of its partitions. */
  lemma {:induction false} MergePermutation(parts: seq<seq<Value>>, cmp: (Value, Value) -> Option<bool>)
    ensures MergeWith(parts, cmp).Some? ==> multiset(MergeWith(parts, cmp).value) == multiset(Flatten(parts))
    decreases TotalLength(parts)
  {
    var m := MergeWith(parts, cmp);
    var first := FirstNonEmpty(parts);
    if first == |parts| {
      assert m == Some([]);
      AllEmptyFlatten(parts);
    } else if m.Some? {
      var next := NextPartition(parts, cmp, first, first + 1);
      assert next.Some?;
      var k := next.value;
      var upd := parts[k := parts[k][1..]];
      var r := MergeWith(upd, cmp);
      assert r.Some? && m.value == [parts[k][0]] + r.value by {
        MergeStep(parts, cmp, k);
      }
      TotalLengthUpdate(parts, k);
      MergePermutation(upd, cmp);
      TakeHeadMultiset(parts[k][0], r.value, Flatten(upd), Flatten(parts));
    }
  }

  lemma TakeHeadMultiset(h: Value, r: seq<Value>, left: seq<Value>, all: seq<Value>)
    requires multiset(r) == multiset(left) && multiset(left) + multiset{h} == multiset(all)
    ensures multiset([h] + r) == multiset(all)
  {
    assert multiset([h] + r) == multiset{h} + multiset(r);
  }

  /** One step of merge, with the rest of the merge already known. */
  lemma MergeTake(parts: seq<seq<Value>>, cmp: (Value, Value) -> Option<bool>, k: nat, rest: seq<Value>)
    requires FirstNonEmpty(parts) < |parts|
    requires NextPartition(parts, cmp, FirstNonEmpty(parts), FirstNonEmpty(parts) + 1) == Some(k)
    requires MergeWith(parts[k := parts[k][1..]], cmp) == Some(rest)
    ensures MergeWith(parts, cmp) == Some([parts[k][0]] + rest)
  {
    MergeStep(parts, cmp, k);
  }

  /** With a single non-empty partition left, merge returns it unchanged. */
  lemma {:induction false} MergeAlone(parts: seq<seq<Value>>, cmp: (Value, Value) -> Option<bool>, k: nat)
    requires k < |parts|
    requires forall i :: 0 <= i < |parts| && i != k ==> |parts[i]| == 0
    ensures MergeWith(parts, cmp) == Some(parts[k])
    decreases |parts[k]|
  {
    if |parts[k]| == 0 {
      assert FirstNonEmpty(parts) == |parts|;
    } else {
      var upd := parts[k := parts[k][1..]];
      assert FirstNonEmpty(parts) == k;
      NextPartitionAlone(parts, cmp, k, k + 1);
      MergeAlone(upd, cmp, k);
      MergeTake(parts, cmp, k, parts[k][1..]);
      assert parts[k] == [parts[k][0]] + parts[k][1..];
    }
  }

  lemma {:induction false} NextPartitionAlone(parts: seq<seq<Value>>, cmp: (Value, Value) -> Option<bool>, best: nat, j: nat)
    requires best < |parts| && |parts[best]| > 0 && best < j <= |parts|
    requires forall i :: j <= i < |parts| ==> |parts[i]| == 0
    ensures NextPartition(parts, cmp, best, j) == Some(best)
    decreases |parts| - j
  {
    if j < |parts| {
      NextPartitionAlone(parts, cmp, best, j + 1);
    }
  }

  lemma MergeStep(parts: seq<seq<Value>>, cmp: (Value, Value) -> Option<bool>, k: nat)
    requires FirstNonEmpty(parts) < |parts|
    requires NextPartition(parts, cmp, FirstNonEmpty(parts), FirstNonEmpty(parts) + 1) == Some(k)
    ensures MergeWith(parts, cmp) ==
            match MergeWith(parts[k := parts[k][1..]], cmp)
            case None => None
            case Some(rest) => Some([parts[k][0]] + rest)
  {
  }

  lemma {:induction false} AllEmptyFlatten(parts: seq<seq<Value>>)
    requires forall j :: 0 <= j < |parts| ==> |parts[j]| == 0
    ensures Flatten(parts) == []
  {
    if |parts| > 0 {
      AllEmptyFlatten(parts[1..]);
    }
  }

  // ------------------------------------------------------- merged order

  /** Item `x` goes strictly before item `y` under `cmp`. */
  ghost predicate Before(cmp: (Value, Value) -> Option<bool>, x: Value, y: Value)
  {
    cmp(x, y) == Some(true)
  }

  /**
   * On the items in `items`, `cmp` is a strict weak order: nothing goes
   * before itself, going before chains, and when `a` goes before `c` every
   * `b` goes after `a` or before `c`.
   */
  ghost predicate OrderedOn(items: set<Value>, cmp: (Value, Value) -> Option<bool>)
  {
    (forall a :: a in items ==> !Before(cmp, a, a)) &&
    (forall a, b, c ::
       (a in items && b in items && c in items && Before(cmp, a, b) && Before(cmp, b, c)) ==> Before(cmp, a, c)) &&
    (forall a, b, c ::
       (a in items && b in items && c in items && Before(cmp, a, c)) ==> Before(cmp, a, b) || Before(cmp, b, c))
  }

  /** No later item goes strictly before an earlier one. */
  ghost predicate SortedUnder(xs: seq<Value>, cmp: (Value, Value) -> Option<bool>)
  {
    forall p, q :: 0 <= p < q < |xs| ==> !Before(cmp, xs[q], xs[p])
  }

  /** Every item of every partition lies in `items`. */
  ghost predicate AllIn(parts: seq<seq<Value>>, items: set<Value>)
  {
    forall i, p :: 0 <= i < |parts| && 0 <= p < |parts[i]| ==> parts[i][p] in items
  }

  /** Under `_goes_before_than` no item goes before itself. */
  lemma ItemOrderIrreflexive(criteria: seq<string>, ascending: Option<seq<Value>>, casters: Option<seq<Caster>>, x: Value)
    ensures !Before(ItemOrder(criteria, ascending, casters), x, x)
  {
    var key := SortKey(x, criteria);
    var asc := if ascending.Some? then ascending.value else seq(|key|, _ => VBool(true));
    var cs := if casters.Some? then casters.value else seq(|key|, _ => NoCast);
    GoesBeforeIrreflexive(key, asc, cs, 0);
  }

  /** Every item of a flattened list sits at some position of some partition. */
  lemma {:induction false} FlattenMember(parts: seq<seq<Value>>, z: Value)
    requires z in Flatten(parts)
    ensures exists i, p :: 0 <= i < |parts| && 0 <= p < |parts[i]| && parts[i][p] == z
  {
    if z in parts[0] {
      var p :| 0 <= p < |parts[0]| && parts[0][p] == z;
    } else {
      FlattenMember(parts[1..], z);
      var i, p :| 0 <= i < |parts[1..]| && 0 <= p < |parts[1..][i]| && parts[1..][i][p] == z;
      assert parts[i + 1][p] == z;
    }
  }

  /** No non-empty partition from `j` on has a head that goes strictly before `h`. */
  ghost predicate NoHeadBefore(parts: seq<seq<Value>>, cmp: (Value, Value) -> Option<bool>, j: nat, h: Value)
  {
    forall i :: j <= i < |parts| && |parts[i]| > 0 ==> !Before(cmp, parts[i][0], h)
  }

  /**
   * The partition chosen next has a head that no other non-empty partition's
   * head goes strictly before: not the best one's so far, nor any from `j` on.
   */
  lemma {:induction false} NextPartitionLeast(parts: seq<seq<Value>>, cmp: (Value, Value) -> Option<bool>, items: set<Value>,
                                              best: nat, j: nat, k: nat)
    requires best < |parts| && |parts[best]| > 0 && best < j <= |parts|
    requires OrderedOn(items, cmp) && AllIn(parts, items)
    requires NextPartition(parts, cmp, best, j) == Some(k)
    ensures !Before(cmp, parts[best][0], parts[k][0])
    ensures NoHeadBefore(parts, cmp, j, parts[k][0])
    decreases |parts| - j
  {
    var hb, hk := parts[best][0], parts[k][0];
    if j == |parts| {
      assert hb in items;
    } else if |parts[j]| == 0 {
      NextPartitionLeast(parts, cmp, items, best, j + 1, k);
    } else {
      var hj := parts[j][0];
      assert hj in items && hb in items && hk in items;
      if Before(cmp, hj, hb) {
        NextPartitionLeast(parts, cmp, items, j, j + 1, k);
      } else {
        NextPartitionLeast(parts, cmp, items, best, j + 1, k);
      }
    }
  }

  /**
   * Once the head `h` of partition `k` is taken, nothing left goes strictly
   * before it: a later item of its own partition is sorted after it, and an
   * item of another partition is sorted after that partition's head, which
   * does not go before `h`.
   */
  lemma HeadLeast(parts: seq<seq<Value>>, cmp: (Value, Value) -> Option<bool>, items: set<Value>, k: nat, z: Value)
    requires OrderedOn(items, cmp) && AllIn(parts, items)
    requires forall i :: 0 <= i < |parts| ==> SortedUnder(parts[i], cmp)
    requires k < |parts| && |parts[k]| > 0 && NoHeadBefore(parts, cmp, 0, parts[k][0])
    requires z in Flatten(parts[k := parts[k][1..]])
    ensures !Before(cmp, z, parts[k][0])
  {
    var upd := parts[k := parts[k][1..]];
    var h := parts[k][0];
    FlattenMember(upd, z);
    var i, p :| 0 <= i < |upd| && 0 <= p < |upd[i]| && upd[i][p] == z;
    assert SortedUnder(parts[i], cmp);
    if i == k {
      assert z == parts[k][p + 1];
    } else {
      var hi := parts[i][0];
      assert z == parts[i][p];
      assert hi in items && z in items && h in items;
      assert !Before(cmp, hi, h);
      if p > 0 {
        assert !Before(cmp, z, hi);
      }
    }
  }

  /** A sorted list stays sorted with an item in front that nothing in it goes before. */
  lemma SortedCons(h: Value, rest: seq<Value>, cmp: (Value, Value) -> Option<bool>)
    requires SortedUnder(rest, cmp)
    requires forall z :: z in rest ==> !Before(cmp, z, h)
    ensures SortedUnder([h] + rest, cmp)
  {
    var out := [h] + rest;
    forall p, q | 0 <= p < q < |out| ensures !Before(cmp, out[q], out[p]) {
      assert out[q] == rest[q - 1];
      if p > 0 {
        assert out[p] == rest[p - 1];
      }
    }
  }

  /** Taking one head leaves every partition sorted and inside `items`. */
  lemma TakeKeepsSorted(parts: seq<seq<Value>>, cmp: (Value, Value) -> Option<bool>, items: set<Value>, k: nat,
                        upd: seq<seq<Value>>)
    requires AllIn(parts, items) && k < |parts| && |parts[k]| > 0
    requires forall i :: 0 <= i < |parts| ==> SortedUnder(parts[i], cmp)
    requires upd == parts[k := parts[k][1..]]
    ensures AllIn(upd, items)
    ensures forall i :: 0 <= i < |upd| ==> SortedUnder(upd[i], cmp)
  {
    forall i, p | 0 <= i < |upd| && 0 <= p < |upd[i]| ensures upd[i][p] in items {
      if i == k { assert upd[i][p] == parts[k][p + 1]; }
    }
    forall i | 0 <= i < |upd| ensures SortedUnder(upd[i], cmp) {
      assert SortedUnder(parts[i], cmp);
    }
  }

  /**
   * `merge` keeps the order: when `cmp` orders the items strictly and weakly
   * and every partition is sorted, the merged list is sorted too.
   */
  lemma {:induction false} MergeSorted(parts: seq<seq<Value>>, cmp: (Value, Value) -> Option<bool>, items: set<Value>)
    requires OrderedOn(items, cmp) && AllIn(parts, items)
    requires forall i :: 0 <= i < |parts| ==> SortedUnder(parts[i], cmp)
    ensures MergeWith(parts, cmp).Some? ==> SortedUnder(MergeWith(parts, cmp).value, cmp)
    decreases TotalLength(parts)
  {
    var m := MergeWith(parts, cmp);
    var first := FirstNonEmpty(parts);
    if first < |parts| && m.Some? {
      var k := NextPartition(parts, cmp, first, first + 1).value;
      var upd := parts[k := parts[k][1..]];
      var rest := MergeWith(upd, cmp);
      MergeStep(parts, cmp, k);
      TotalLengthUpdate(parts, k);
      TakeKeepsSorted(parts, cmp, items, k, upd);
      MergeSorted(upd, cmp, items);
      MergePermutation(upd, cmp);
      ChosenLeast(parts, cmp, items, k);
      TakeHeadSorted(parts, cmp, items, k, rest.value);
    }
  }

  /** No non-empty partition's head goes strictly before the head of the partition merge picks. */
  lemma ChosenLeast(parts: seq<seq<Value>>, cmp: (Value, Value) -> Option<bool>, items: set<Value>, k: nat)
    requires OrderedOn(items, cmp) && AllIn(parts, items)
    requires FirstNonEmpty(parts) < |parts|
    requires NextPartition(parts, cmp, FirstNonEmpty(parts), FirstNonEmpty(parts) + 1) == Some(k)
    ensures k < |parts| && |parts[k]| > 0
    ensures NoHeadBefore(parts, cmp, 0, parts[k][0])
  {
    var first := FirstNonEmpty(parts);
    NextPartitionLeast(parts, cmp, items, first, first + 1, k);
  }

  /**
   * Putting the picked head in front of a sorted merge of what is left keeps
   * the list sorted.
   */
  lemma TakeHeadSorted(parts: seq<seq<Value>>, cmp: (Value, Value) -> Option<bool>, items: set<Value>, k: nat,
                       rest: seq<Value>)
    requires OrderedOn(items, cmp) && AllIn(parts, items)
    requires forall i :: 0 <= i < |parts| ==> SortedUnder(parts[i], cmp)
    requires k < |parts| && |parts[k]| > 0 && NoHeadBefore(parts, cmp, 0, parts[k][0])
    requires SortedUnder(rest, cmp) && multiset(rest) == multiset(Flatten(parts[k := parts[k][1..]]))
    ensures SortedUnder([parts[k][0]] + rest, cmp)
  {
    forall z | z in rest ensures !Before(cmp, z, parts[k][0]) {
      assert z in multiset(Flatten(parts[k := parts[k][1..]]));
      HeadLeast(parts, cmp, items, k, z);
    }
    SortedCons(parts[k][0], rest, cmp);
  }
}

/** The cases of the sorting helpers' test tables. */
module OrderingExamples {
  import opened Wrappers
  import opened Text
  import opened Values
  import opened Ordering

  lemma GoesBeforeExamples()
    ensures GoesBefore([VStr("sample")], [VStr("elpmas")], None, None) == Some(false)
    ensures GoesBefore([VStr("sample")], [VStr("elpmas")], Some([VBool(false)]), Some([ListCast])) == Some(true)
    ensures GoesBefore([VStr("sample")], [VStr("elpmas")], Some([VBool(true)]), Some([StrCast])) == Some(false)
    ensures GoesBefore([VStr("elpmas")], [VStr("sample")], Some([VBool(true)]), Some([NoCast])) == Some(true)
    ensures GoesBefore([VNone], [VNone], Some([VBool(true)]), Some([NoCast])) == Some(false)
    ensures GoesBefore([VNone], [VStr("sample")], Some([VBool(true)]), Some([NoCast])) == Some(true)
    ensures GoesBefore([VStr("sample")], [VNone], Some([VBool(true)]), Some([NoCast])) == Some(false)
    ensures GoesBefore([VStr("equal")], [VStr("equal")], None, Some([StrCast])) == Some(false)
  {
    NoneGoesFirst(VStr("sample"), NoCast);
    assert !LexLess("sample", "elpmas");
    assert LexLess("elpmas", "sample");
    var l1, l2 := Chars("sample"), Chars("elpmas");
    assert l1[0] == VStr("s") && l2[0] == VStr("e");
    assert SeqLessFrom(VList(l2), VList(l1), 0) == PyLess(VStr("e"), VStr("s"));
    var asc: seq<Value> := seq(1, _ => VBool(true));
    assert GoesBeforeFrom([VStr("equal")], [VStr("equal")], asc, [StrCast], 1) == Some(false);
    assert Cast(StrCast, VStr("equal")) == Some(VStr("equal"));
  }

  /** `{'a': {'b': 3}, 'c.1': 5}` */
  function SampleItem(): Value
  {
    VMap(map["a" := VMap(map["b" := VInt(3)]), "c.1" := VInt(5)])
  }

  lemma NestedPairExample()
    ensures NestedItemGetter(["a.b", "c\\.1"], SampleItem()) == VTuple([VInt(3), VInt(5)])
  {
    SplitPathExamples();
    SampleWalks();
  }

  lemma NestedMissingExample()
    ensures NestedItemGetter(["a.b", "f"], SampleItem()) == VTuple([VInt(3), VNone])
  {
    SplitPathExamples();
    SampleWalks();
  }

  lemma NestedListExample()
    ensures NestedItemGetter(["c\\.1"], VList([SampleItem()])) == VList([SampleItem()])
  {
    SplitPathExamples();
    assert Walk(VList([SampleItem()]), ["c.1"]) == NotMapping;
  }

  lemma SampleWalks()
    ensures Walk(SampleItem(), ["a", "b"]) == Found(VInt(3))
    ensures Walk(SampleItem(), ["c.1"]) == Found(VInt(5))
    ensures Walk(SampleItem(), ["f"]) == NoKey
  {
    var item := SampleItem();
    assert Walk(item, ["a", "b"]) == Walk(VMap(map["b" := VInt(3)]), ["b"]) by {
      assert ["a", "b"][1..] == ["b"];
    }
    assert Walk(VMap(map["b" := VInt(3)]), ["b"]) == Walk(VInt(3), []) by {
      assert ["b"][1..] == [];
    }
    assert Walk(item, ["c.1"]) == Walk(VInt(5), []) by {
      assert ["c.1"][1..] == [];
    }
  }

  lemma SplitPathExamples()
    ensures SplitPath("a.b") == ["a", "b"]
    ensures SplitPath("c\\.1") == ["c.1"]
    ensures SplitPath("f") == ["f"]
  {
    SplitDotted();
    SplitEscaped();
    assert FirstSeparator("f") == 1 && Unescape("f") == "f";
  }

  lemma SplitDotted()
    ensures SplitPath("a.b") == ["a", "b"]
  {
    assert FirstSeparator("a.b") == 1;
    assert "a.b"[..1] == "a" && "a.b"[2..] == "b";
    assert FirstSeparator("b") == 1;
    assert Unescape("a") == "a" && Unescape("b") == "b";
  }

  lemma SplitEscaped()
    ensures SplitPath("c\\.1") == ["c.1"]
  {
    assert FirstSeparatorFrom("c\\.1", 1) == FirstSeparatorFrom("c\\.1", 2);
    assert FirstSeparatorFrom("c\\.1", 2) == FirstSeparatorFrom("c\\.1", 3);
    assert FirstSeparatorFrom("c\\.1", 3) == FirstSeparatorFrom("c\\.1", 4) == 4;
    assert FirstSeparator("c\\.1") == 4;
    assert "c\\.1"[1..] == "\\.1" && "\\.1"[2..] == "1";
    assert Unescape("1") == "1";
    assert Unescape("\\.1") == "." + Unescape("1") == ".1";
    assert Unescape("c\\.1") == "c" + Unescape("\\.1") == "c.1";
  }

  lemma ParseExamples()
    ensures ParseInt("001") == Some(1) && ParseInt("002") == Some(2)
    ensures ParseInt("003") == Some(3) && ParseInt("004") == Some(4)
  {
    assert "001"[..2] == "00" && "00"[..1] == "0" && "0"[..0] == "";
    assert "002"[..2] == "00" && "003"[..2] == "00" && "004"[..2] == "00";
  }

  function Ids(a: string, b: string): seq<Value> { [VStr(a), VStr(b)] }

  /** Digit strings compared as `int`, ascending or descending. */
  lemma IntKeyOrder(x: string, y: string, n: int, m: int, up: bool)
    requires ParseInt(x) == Some(n) && ParseInt(y) == Some(m)
    ensures GoesBefore([VStr(x)], [VStr(y)], Some([VBool(up)]), Some([IntCast])) == Some(if up then n < m else m < n)
  {
    assert Cast(IntCast, VStr(x)) == Some(VInt(n));
    assert Cast(IntCast, VStr(y)) == Some(VInt(m));
    assert GoesBeforeFrom([VStr(x)], [VStr(y)], [VBool(up)], [IntCast], 1) == Some(false);
  }

  /** Strings that parse as integers, the keys of the merge tests. */
  ghost predicate IntStrings(items: set<Value>)
  {
    forall v :: v in items ==> v.VStr? && ParseInt(v.s).Some?
  }

  /** Compared ascending as `int`, such strings go before each other exactly as their values do. */
  lemma IntStringBefore(x: Value, y: Value)
    requires x.VStr? && ParseInt(x.s).Some? && y.VStr? && ParseInt(y.s).Some?
    ensures Before(ItemOrder([], Some([VBool(true)]), Some([IntCast])), x, y) <==> ParseInt(x.s).value < ParseInt(y.s).value
  {
    IntKeyOrder(x.s, y.s, ParseInt(x.s).value, ParseInt(y.s).value, true);
  }

  /** So the order of the merge tests is a strict weak order, and `MergeSorted` applies to them. */
  lemma IntStringsOrdered(items: set<Value>)
    requires IntStrings(items)
    ensures OrderedOn(items, ItemOrder([], Some([VBool(true)]), Some([IntCast])))
  {
    var cmp := ItemOrder([], Some([VBool(true)]), Some([IntCast]));
    forall a, b | a in items && b in items
      ensures Before(cmp, a, b) <==> ParseInt(a.s).value < ParseInt(b.s).value
    {
      IntStringBefore(a, b);
    }
  }

  lemma CastersExample()
    ensures CastersOf(Some(["int"])) == Some([IntCast])
  {
    var ts := ["int"];
    var c := seq(|ts|, i requires 0 <= i < |ts| => CasterOf(ts[i]));
    assert c[0] == CasterOf("int") == IntCast;
    assert c == [IntCast];
  }

  /** `merge(['001', '002'], ['003', '004'], ascending=[True], types=['int'])`, with no criteria and with `['1']` */
  lemma MergeAscendingExample()
    ensures Merge([Ids("001", "002"), Ids("003", "004")], [], Some([VBool(true)]), Some(["int"])) ==
            Some([VStr("001"), VStr("002"), VStr("003"), VStr("004")])
    ensures Merge([Ids("001", "002"), Ids("003", "004")], ["1"], Some([VBool(true)]), Some(["int"])) ==
            Some([VStr("001"), VStr("002"), VStr("003"), VStr("004")])
  {
    ParseExamples();
    MergeAscendingInts("001", "002", "003", "004", []);
    MergeAscendingInts("001", "002", "003", "004", ["1"]);
  }

  /**
   * Two partitions of strings that parse as 1, 2 and 3, 4, merged ascending
   * as `int`: the first partition comes out whole, then the second. A path
   * criterion cannot index a string, so `['1']` sorts by the item itself.
   */
  lemma {:induction false} MergeAscendingInts(x1: string, x2: string, x3: string, x4: string, criteria: seq<string>)
    requires ParseInt(x1) == Some(1) && ParseInt(x2) == Some(2) && ParseInt(x3) == Some(3) && ParseInt(x4) == Some(4)
    requires criteria == [] || criteria == ["1"]
    ensures Merge([Ids(x1, x2), Ids(x3, x4)], criteria, Some([VBool(true)]), Some(["int"])) ==
            Some([VStr(x1), VStr(x2), VStr(x3), VStr(x4)])
  {
    CastersExample();
    var asc, cs := Some([VBool(true)]), Some([IntCast]);
    var p0: seq<seq<Value>> := [Ids(x1, x2), Ids(x3, x4)];
    AscendingHead(criteria, p0, x1, x3, 1);
    AscendingTail(x2, x3, x4, criteria);
    DropHeadOfFirst(VStr(x1), VStr(x2), Ids(x3, x4));
    MergeTake(p0, ItemOrder(criteria, asc, cs), 0, [VStr(x2)] + Ids(x3, x4));
    Cons4(VStr(x1), VStr(x2), VStr(x3), VStr(x4));
  }

  /** The ascending merge once the head parsed as 1 has been taken. */
  lemma {:induction false} AscendingTail(x2: string, x3: string, x4: string, criteria: seq<string>)
    requires ParseInt(x2) == Some(2) && ParseInt(x3) == Some(3)
    requires criteria == [] || criteria == ["1"]
    ensures MergeWith([[VStr(x2)], Ids(x3, x4)], ItemOrder(criteria, Some([VBool(true)]), Some([IntCast]))) ==
            Some([VStr(x2)] + Ids(x3, x4))
  {
    var asc, cs := Some([VBool(true)]), Some([IntCast]);
    var p1: seq<seq<Value>> := [[VStr(x2)], Ids(x3, x4)];
    var p2: seq<seq<Value>> := [[], Ids(x3, x4)];
    AscendingHead(criteria, p1, x2, x3, 2);
    MergeAlone(p2, ItemOrder(criteria, asc, cs), 1);
    DropOnlyOfFirst(VStr(x2), Ids(x3, x4));
    MergeTake(p1, ItemOrder(criteria, asc, cs), 0, Ids(x3, x4));
  }

  /** Taking the head of the first of two partitions. */
  lemma DropHeadOfFirst(a: Value, b: Value, q: seq<Value>)
    ensures var p: seq<seq<Value>> := [[a, b], q]; p[0 := p[0][1..]] == [[b], q]
  {
    assert [a, b][1..] == [b];
  }

  /** Taking the only element of the first of two partitions. */
  lemma DropOnlyOfFirst(b: Value, q: seq<Value>)
    ensures var p: seq<seq<Value>> := [[b], q]; p[0 := p[0][1..]] == [[], q]
  {
    assert [b][1..] == [];
  }

  /** Taking the head of the second of two partitions. */
  lemma DropHeadOfSecond(q: seq<Value>, c: Value, d: Value)
    ensures var p: seq<seq<Value>> := [q, [c, d]]; p[1 := p[1][1..]] == [q, [d]]
  {
    assert [c, d][1..] == [d];
  }

  /** Taking the only element of the second of two partitions. */
  lemma DropOnlyOfSecond(q: seq<Value>, d: Value)
    ensures var p: seq<seq<Value>> := [q, [d]]; p[1 := p[1][1..]] == [q, []]
  {
    assert [d][1..] == [];
  }

  lemma Cons4(a: Value, b: Value, c: Value, d: Value)
    ensures [a] + ([b] + [c, d]) == [a, b, c, d]
  {
  }

  /** The head `x` (parsed as `n`, below 3) stays ahead of the partition headed by `y`, parsed as 3. */
  lemma AscendingHead(criteria: seq<string>, p: seq<seq<Value>>, x: string, y: string, n: int)
    requires criteria == [] || criteria == ["1"]
    requires ParseInt(x) == Some(n) && ParseInt(y) == Some(3) && n < 3
    requires |p| == 2 && |p[0]| > 0 && |p[1]| > 0 && p[0][0] == VStr(x) && p[1][0] == VStr(y)
    ensures FirstNonEmpty(p) == 0
    ensures NextPartition(p, ItemOrder(criteria, Some([VBool(true)]), Some([IntCast])), 0, 1) == Some(0)
  {
    SortKeyOfString(VStr(x), criteria);
    SortKeyOfString(VStr(y), criteria);
    IntKeyOrder(y, x, 3, n, true);
  }

  /** The head `z` (parsed as `n`, above 1) goes before the partition headed by `x`, parsed as 1. */
  lemma DescendingHead(p: seq<seq<Value>>, x: string, z: string, n: int)
    requires ParseInt(x) == Some(1) && ParseInt(z) == Some(n) && n > 1
    requires |p| == 2 && |p[0]| > 0 && |p[1]| > 0 && p[0][0] == VStr(x) && p[1][0] == VStr(z)
    ensures FirstNonEmpty(p) == 0
    ensures NextPartition(p, ItemOrder([], Some([VBool(false)]), Some([IntCast])), 0, 1) == Some(1)
  {
    IntKeyOrder(z, x, n, 1, false);
  }

  /** `merge(['001', '002'], ['003', '004'], ascending=[False], types=['int'])` */
  lemma MergeDescendingExample()
    ensures Merge([Ids("001", "002"), Ids("003", "004")], [], Some([VBool(false)]), Some(["int"])) ==
            Some([VStr("003"), VStr("004"), VStr("001"), VStr("002")])
  {
    ParseExamples();
    MergeDescendingInts("001", "002", "003", "004");
  }

  /**
   * The same partitions merged descending as `int`: the second partition
   * comes out whole, then the first.
   */
  lemma {:induction false} MergeDescendingInts(x1: string, x2: string, x3: string, x4: string)
    requires ParseInt(x1) == Some(1) && ParseInt(x2) == Some(2) && ParseInt(x3) == Some(3) && ParseInt(x4) == Some(4)
    ensures Merge([Ids(x1, x2), Ids(x3, x4)], [], Some([VBool(false)]), Some(["int"])) ==
            Some([VStr(x3), VStr(x4), VStr(x1), VStr(x2)])
  {
    CastersExample();
    var asc, cs := Some([VBool(false)]), Some([IntCast]);
    var p0: seq<seq<Value>> := [Ids(x1, x2), Ids(x3, x4)];
    DescendingHead(p0, x1, x3, 3);
    DescendingTail(x1, x2, x4);
    DropHeadOfSecond(Ids(x1, x2), VStr(x3), VStr(x4));
    MergeTake(p0, ItemOrder([], asc, cs), 1, [VStr(x4)] + Ids(x1, x2));
    Cons4(VStr(x3), VStr(x4), VStr(x1), VStr(x2));
  }

  /** The descending merge once the head parsed as 3 has been taken. */
  lemma {:induction false} DescendingTail(x1: string, x2: string, x4: string)
    requires ParseInt(x1) == Some(1) && ParseInt(x4) == Some(4)
    ensures MergeWith([Ids(x1, x2), [VStr(x4)]], ItemOrder([], Some([VBool(false)]), Some([IntCast]))) ==
            Some([VStr(x4)] + Ids(x1, x2))
  {
    var asc, cs := Some([VBool(false)]), Some([IntCast]);
    var p1: seq<seq<Value>> := [Ids(x1, x2), [VStr(x4)]];
    var p2: seq<seq<Value>> := [Ids(x1, x2), []];
    DescendingHead(p1, x1, x4, 4);
    MergeAlone(p2, ItemOrder([], asc, cs), 0);
    DropOnlyOfSecond(Ids(x1, x2), VStr(x4));
    MergeTake(p1, ItemOrder([], asc, cs), 1, Ids(x1, x2));
  }

  /** A string item: no path can index it, so its sort key is the item alone. */
  lemma SortKeyOfString(v: Value, criteria: seq<string>)
    requires v.VStr?
    requires criteria == [] || criteria == ["1"]
    ensures SortKey(v, criteria) == [v]
  {
    if criteria == ["1"] {
      assert Walk(v, SplitPath(criteria[0])).NotMapping?;
    }
  }
}
