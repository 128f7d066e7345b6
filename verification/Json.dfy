/** JSON values, together with the Python operators the rule evaluator applies to them. */
module Json {
  import opened Common

  datatype Json =
    | Null
    | Bool(b: bool)
    | Num(n: real)
    | Str(s: string)
    | Arr(items: seq<Json>)
    | Obj(fields: map<string, Json>)

  type Dict = map<string, Json>

  datatype Order = Less | Same | Greater | Unorderable

  /** The value stored under a key, or null when there is none, like dict.get. */
  function Get(d: Dict, key: string): Json {
    if key in d then d[key] else Null
  }

  predicate Truthy(v: Json) {
    match v
    case Null => false
    case Bool(b) => b
    case Num(n) => n != 0.0
    case Str(s) => s != ""
    case Arr(items) => items != []
    case Obj(fields) => fields != map[]
  }

  /** Python's booleans are the numbers one and zero. */
  predicate IsNumber(v: Json) {
    v.Bool? || v.Num?
  }

  function Number(v: Json): real
    requires IsNumber(v)
  {
    match v
    case Bool(b) => if b then 1.0 else 0.0
    case Num(n) => n
  }

  /** Python's == on JSON values. */
  predicate PyEq(a: Json, b: Json)
    decreases a
  {
    match a
    case Null => b.Null?
    case Bool(_) => IsNumber(b) && Number(a) == Number(b)
    case Num(_) => IsNumber(b) && Number(a) == Number(b)
    case Str(s) => b.Str? && s == b.s
    case Arr(items) =>
      b.Arr? && |items| == |b.items| && forall i | 0 <= i < |items| :: PyEq(items[i], b.items[i])
    case Obj(fields) =>
      b.Obj? && fields.Keys == b.fields.Keys && forall k | k in fields :: PyEq(fields[k], b.fields[k])
  }

  function TextOrder(a: string, b: string): Order {
    if a == "" && b == "" then Same
    else if a == "" then Less
    else if b == "" then Greater
    else if a[0] < b[0] then Less
    else if b[0] < a[0] then Greater
    else TextOrder(a[1..], b[1..])
  }

  /** Python's ordering: numbers with numbers, strings with strings, lists with lists. */
  function Compare(a: Json, b: Json): Order
    decreases a, 1
  {
    if IsNumber(a) && IsNumber(b) then
      if Number(a) < Number(b) then Less else if Number(a) == Number(b) then Same else Greater
    else if a.Str? && b.Str? then TextOrder(a.s, b.s)
    else if a.Arr? && b.Arr? then CompareItems(a.items, b.items)
    else Unorderable
  }

  /** Lists are ordered by their first elements that differ, then by length. */
  function CompareItems(a: seq<Json>, b: seq<Json>): Order
    decreases a, 0
  {
    if a == [] || b == [] then
      if |a| < |b| then Less else if |a| == |b| then Same else Greater
    else if PyEq(a[0], b[0]) then CompareItems(a[1..], b[1..])
    else Compare(a[0], b[0])
  }

  predicate IsSubstring(needle: string, hay: string) {
    exists i | 0 <= i <= |hay| :: needle <= hay[i..]
  }

  /** Python's `x in container`; None stands for the TypeError it raises otherwise. */
  function Contains(container: Json, x: Json): Option<bool> {
    match container
    case Arr(items) => Some(exists i | 0 <= i < |items| :: PyEq(items[i], x))
    case Str(s) => if x.Str? then Some(IsSubstring(x.s, s)) else None
    case Obj(fields) => if x.Arr? || x.Obj? then None else Some(x.Str? && x.s in fields)
    case _ => None
  }

  /** Swapping the operands of a comparison swaps its answer. */
  lemma {:induction false} CompareMirrors(a: Json, b: Json)
    ensures Compare(b, a) == Mirror(Compare(a, b))
    decreases a, 1
  {
    if a.Str? && b.Str? {
      TextOrderMirrors(a.s, b.s);
    } else if a.Arr? && b.Arr? {
      CompareItemsMirrors(a.items, b.items);
    }
  }

  function Mirror(o: Order): Order {
    match o
    case Less => Greater
    case Greater => Less
    case _ => o
  }

  lemma {:induction false} TextOrderMirrors(a: string, b: string)
    ensures TextOrder(b, a) == Mirror(TextOrder(a, b))
  {
    if a != "" && b != "" {
      TextOrderMirrors(a[1..], b[1..]);
    }
  }

  lemma {:induction false} CompareItemsMirrors(a: seq<Json>, b: seq<Json>)
    ensures CompareItems(b, a) == Mirror(CompareItems(a, b))
    decreases a, 0
  {
    if a != [] && b != [] {
      PyEqSymmetric(a[0], b[0]);
      CompareItemsMirrors(a[1..], b[1..]);
      CompareMirrors(a[0], b[0]);
    }
  }

  lemma {:induction false} PyEqSymmetric(a: Json, b: Json)
    ensures PyEq(a, b) == PyEq(b, a)
    decreases a
  {
    if a.Arr? && b.Arr? && |a.items| == |b.items| {
      forall i | 0 <= i < |a.items| ensures PyEq(a.items[i], b.items[i]) == PyEq(b.items[i], a.items[i]) {
        PyEqSymmetric(a.items[i], b.items[i]);
      }
    } else if a.Obj? && b.Obj? && a.fields.Keys == b.fields.Keys {
      forall k | k in a.fields ensures PyEq(a.fields[k], b.fields[k]) == PyEq(b.fields[k], a.fields[k]) {
        PyEqSymmetric(a.fields[k], b.fields[k]);
      }
    }
  }

  lemma {:induction false} TextOrderSame(a: string, b: string)
    ensures TextOrder(a, b) == Same <==> a == b
  {
    if a != "" && b != "" {
      TextOrderSame(a[1..], b[1..]);
      assert a == [a[0]] + a[1..] && b == [b[0]] + b[1..];
    }
  }

  predicate PyEqItems(a: seq<Json>, b: seq<Json>) {
    |a| == |b| && forall i | 0 <= i < |a| :: PyEq(a[i], b[i])
  }

  lemma {:induction false} CompareItemsSame(a: seq<Json>, b: seq<Json>)
    ensures CompareItems(a, b) == Same <==> PyEqItems(a, b)
    decreases a, 0
  {
    if a != [] && b != [] {
      CompareSame(a[0], b[0]);
      CompareItemsSame(a[1..], b[1..]);
      assert forall i | 0 < i < |a| :: a[i] == a[1..][i - 1];
      assert forall i | 0 < i < |b| :: b[i] == b[1..][i - 1];
      assert forall i | 0 <= i < |a| - 1 :: a[1..][i] == a[i + 1];
      assert forall i | 0 <= i < |b| - 1 :: b[1..][i] == b[i + 1];
    }
  }

  /** What can be ordered compares as the same exactly when it is equal. */
  lemma {:induction false} CompareSame(a: Json, b: Json)
    ensures Compare(a, b) != Unorderable ==> (Compare(a, b) == Same <==> PyEq(a, b))
    ensures Compare(a, b) == Same ==> PyEq(a, b)
    decreases a, 1
  {
    if a.Str? && b.Str? {
      TextOrderSame(a.s, b.s);
    } else if a.Arr? && b.Arr? {
      CompareItemsSame(a.items, b.items);
    }
  }
}
