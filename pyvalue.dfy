/**
 * The loosely typed values that arrive in a webhook request's slot
 * parameters (decoded JSON), with Python's truthiness, `or`, `dict.get`,
 * `str()` and the `str.join` of a list that may hold non-strings.
 */
module PyValue {
  import opened Wrappers
  import PyStr

  /** A decoded JSON value as the handlers see it. `Null` is Python's None. */
  datatype Value = Null | Str(s: string) | Int(n: int) | List(items: seq<Value>)

  /** Python truthiness: None, the empty string, 0 and the empty list are
      falsy; everything else is truthy. */
  predicate Truthy(v: Value)
    ensures !Truthy(v) <==> v in {Null, Str(""), Int(0), List([])}
  {
    match v
    case Null => false
    case Str(s) => s != ""
    case Int(n) => n != 0
    case List(xs) => xs != []
  }

  /** Python's `a or b`: `a` when it is truthy, `b` otherwise. */
  function Or(a: Value, b: Value): (r: Value)
    ensures Truthy(r) <==> Truthy(a) || Truthy(b)
    ensures Truthy(a) ==> r == a
    ensures !Truthy(a) ==> r == b
  {
    if Truthy(a) then a else b
  }

  /** Python's `d.get(k)`: the value stored under `k`, or None. */
  function Get(d: map<string, Value>, k: string): (r: Value)
    ensures k !in d ==> r == Null
    ensures k in d ==> r == d[k]
  {
    if k in d then d[k] else Null
  }

  /** Python's `repr(v)`, which `str()` uses for the elements of a list. */
  function Repr(v: Value): (r: string)
    ensures |r| >= 1
    ensures v == Null ==> r == "None"
    ensures v.Str? ==> r == ['\''] + v.s + ['\'']
    ensures v.Int? ==> r == PyStr.IntToString(v.n)
    ensures v.List? ==> r[0] == '[' && r[|r| - 1] == ']'
    ensures v.List? ==> r[1..|r| - 1] == ReprItems(v.items)
  {
    match v
    case Null => "None"
    case Str(s) => "'" + s + "'"
    case Int(n) => PyStr.IntToString(n)
    case List(xs) =>
      var r := "[" + ReprItems(xs) + "]";
      assert r[1..|r| - 1] == ReprItems(xs);
      r
  }

  /** The reprs of `xs` joined with ", ", as inside the brackets of a list. */
  function ReprItems(xs: seq<Value>): (r: string)
    ensures r == "" <==> |xs| == 0
    ensures |xs| >= 1 ==> |r| >= |Repr(xs[0])| && r[..|Repr(xs[0])|] == Repr(xs[0])
  {
    if |xs| == 0 then ""
    else if |xs| == 1 then Repr(xs[0])
    else
      var r := Repr(xs[0]) + ", " + ReprItems(xs[1..]);
      assert r[..|Repr(xs[0])|] == Repr(xs[0]);
      r
  }

  /** The repr of each element of `xs`, in order. */
  function Reprs(xs: seq<Value>): (r: seq<string>)
    ensures |r| == |xs|
  {
    seq(|xs|, i requires 0 <= i < |xs| => Repr(xs[i]))
  }

  /** Inside the brackets, `str()` of a list is `", ".join` of the reprs of
      its elements. */
  lemma {:induction false} ReprItemsJoin(xs: seq<Value>)
    ensures ReprItems(xs) == PyStr.Join(", ", Reprs(xs))
  {
    if |xs| >= 2 {
      ReprItemsJoin(xs[1..]);
      assert Reprs(xs)[1..] == Reprs(xs[1..]);
    }
  }

  /** Python's `str(v)`, i.e. what an f-string inserts for `{v}`: a string
      is inserted as it is, anything else as its repr. */
  function Show(v: Value): (r: string)
    ensures v.Str? ==> r == v.s
    ensures !v.Str? ==> r == Repr(v)
  {
    match v
    case Str(s) => s
    case _ => Repr(v)
  }

  /** The strings held by a list all of whose elements are strings. */
  function Strings(xs: seq<Value>): (r: seq<string>)
    requires forall i :: 0 <= i < |xs| ==> xs[i].Str?
    ensures |r| == |xs|
    ensures forall i :: 0 <= i < |xs| ==> xs[i] == Str(r[i])
  {
    seq(|xs|, i requires 0 <= i < |xs| => xs[i].s)
  }

  /** Python's `sep.join(xs)` on a list of arbitrary values: the joined
      string, or None where Python raises TypeError because some element is
      not a string. */
  function JoinValues(sep: string, xs: seq<Value>): (r: Option<string>)
    ensures r.Some? <==> forall i :: 0 <= i < |xs| ==> xs[i].Str?
    ensures r.Some? ==> r.value == PyStr.Join(sep, Strings(xs))
  {
    if |xs| == 0 then Some("")
    else if !xs[0].Str? then None
    else if |xs| == 1 then Some(xs[0].s)
    else match JoinValues(sep, xs[1..])
      case None => None
      case Some(tail) =>
        assert Strings(xs)[1..] == Strings(xs[1..]);
        Some(xs[0].s + sep + tail)
  }
}
