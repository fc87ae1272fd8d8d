/** Decoded JSON payloads and the handful of Python operations the extractor
    applies to them: truthiness, `dict.get`, `d[k]`, `k in x`, iteration,
    `.values()`, arithmetic operands and `int()`. Every operation that Python
    would answer with an exception returns `Raised`. */
module PyValues {
  import opened Numeric
  import opened Text

  datatype Option<+T> = None | Some(value: T)

  /** The outcome of Python code that may raise. */
  datatype Result<+T> = Ok(value: T) | Raised {
    predicate IsFailure() { Raised? }
    function PropagateFailure<U>(): Result<U> requires Raised? { Raised }
    function Extract(): T requires Ok? { value }
  }

  /** A decoded JSON value; an object keeps its members in insertion order,
      as a Python dict does. Python `None` is `JNull`. */
  datatype Json =
    | JNull
    | JNum(n: real)
    | JStr(s: string)
    | JArr(items: seq<Json>)
    | JObj(members: Dict)

  datatype Member = Member(key: string, value: Json)

  /** A Python dict: an ordered list of key/value members. */
  type Dict = seq<Member>

  /** Python's `bool(v)`. */
  predicate Truthy(v: Json)
  {
    match v
    case JNull => false
    case JNum(n) => n != 0.0
    case JStr(s) => s != ""
    case JArr(xs) => xs != []
    case JObj(ms) => ms != []
  }

  /** Python's `a or b`. */
  function Or(a: Json, b: Json): Json
  {
    if Truthy(a) then a else b
  }

  function Keys(d: Dict): (ks: seq<string>)
    ensures |ks| == |d|
    ensures forall i :: 0 <= i < |d| ==> ks[i] == d[i].key
  {
    seq(|d|, i requires 0 <= i < |d| => d[i].key)
  }

  function Values(d: Dict): (vs: seq<Json>)
    ensures |vs| == |d|
    ensures forall i :: 0 <= i < |d| ==> vs[i] == d[i].value
  {
    seq(|d|, i requires 0 <= i < |d| => d[i].value)
  }

  /** The value bound to `k`; when a key repeats, the last binding wins, as a
      JSON decoder building a dict does. */
  function Lookup(d: Dict, k: string): (r: Option<Json>)
    ensures r.None? <==> k !in Keys(d)
    ensures r.Some? ==> exists i :: 0 <= i < |d| && d[i] == Member(k, r.value)
  {
    if d == [] then None
    else if d[|d| - 1].key == k then Some(d[|d| - 1].value)
    else
      assert Keys(d) == Keys(d[..|d| - 1]) + [d[|d| - 1].key];
      Lookup(d[..|d| - 1], k)
  }

  function Replace(d: Dict, k: string, v: Json): (r: Dict)
  {
    seq(|d|, i requires 0 <= i < |d| => if d[i].key == k then Member(k, v) else d[i])
  }

  lemma {:induction false} LookupReplace(d: Dict, k: string, v: Json, k': string)
    ensures Keys(Replace(d, k, v)) == Keys(d)
    ensures Lookup(Replace(d, k, v), k') == if k' == k && k in Keys(d) then Some(v) else Lookup(d, k')
  {
    if d != [] {
      var n := |d|;
      assert Replace(d, k, v)[..n - 1] == Replace(d[..n - 1], k, v);
      assert Keys(d) == Keys(d[..n - 1]) + [d[n - 1].key];
      LookupReplace(d[..n - 1], k, v, k');
    }
  }

  /** `d[k] = v`: an existing key keeps its place and takes the new value; a new
      key goes to the end. */
  function Set(d: Dict, k: string, v: Json): (r: Dict)
    ensures Lookup(r, k) == Some(v)
    ensures forall k' :: k' != k ==> Lookup(r, k') == Lookup(d, k')
    ensures Keys(r) == if k in Keys(d) then Keys(d) else Keys(d) + [k]
  {
    if k in Keys(d) then
      LookupReplace(d, k, v, k);
      forall k' | k' != k ensures Lookup(Replace(d, k, v), k') == Lookup(d, k') {
        LookupReplace(d, k, v, k');
      }
      Replace(d, k, v)
    else
      assert Keys(d + [Member(k, v)]) == Keys(d) + [k];
      assert (d + [Member(k, v)])[..|d|] == d;
      d + [Member(k, v)]
  }

  /** `d.update(e)`: the members of `e` assigned one by one, in order. */
  function Update(d: Dict, e: Dict): (r: Dict)
    decreases |e|
  {
    if e == [] then d else Update(Set(d, e[0].key, e[0].value), e[1..])
  }

  /** `d.update(e)`: keys of `e` take `e`'s value, the others keep `d`'s. */
  lemma {:induction false} LookupUpdate(d: Dict, e: Dict, k: string)
    ensures Lookup(Update(d, e), k) == if k in Keys(e) then Lookup(e, k) else Lookup(d, k)
    decreases |e|
  {
    if e != [] {
      LookupUpdate(Set(d, e[0].key, e[0].value), e[1..], k);
      LookupCons(e, k);
    }
  }

  lemma {:induction false} LookupCons(e: Dict, k: string)
    requires e != []
    ensures Lookup(e, k) == if k in Keys(e[1..]) then Lookup(e[1..], k) else if e[0].key == k then Some(e[0].value) else None
  {
    var n, t := |e|, e[1..];
    if n == 1 {
      assert e[..0] == [] && Keys(t) == [];
    } else {
      var init := e[..n - 1];
      assert t[..n - 2] == init[1..] && t[n - 2] == e[n - 1] && init[0] == e[0];
      assert Keys(t) == Keys(t[..n - 2]) + [e[n - 1].key];
      if e[n - 1].key != k {
        LookupCons(init, k);
        assert Lookup(e, k) == Lookup(init, k);
        assert Lookup(t, k) == Lookup(t[..n - 2], k);
      } else {
        assert k in Keys(t);
      }
    }
  }

  /** Looking a key up in `a + b`: `b`'s binding wins. */
  lemma {:induction false} LookupAppend(a: Dict, b: Dict, k: string)
    ensures Lookup(a + b, k) == if k in Keys(b) then Lookup(b, k) else Lookup(a, k)
    decreases |b|
  {
    if b != [] {
      var n := |b|;
      assert (a + b)[..|a + b| - 1] == a + b[..n - 1];
      assert Keys(b) == Keys(b[..n - 1]) + [b[n - 1].key];
      LookupAppend(a, b[..n - 1], k);
    } else {
      assert a + b == a;
    }
  }

  /** `dict.get(k, default)` on the receiver `v`; a receiver that is not a dict
      has no `get` (AttributeError). */
  function GetOr(v: Json, k: string, default: Json): (r: Result<Json>)
    ensures r.Ok? <==> v.JObj?
  {
    match v
    case JObj(ms) => Ok(match Lookup(ms, k) case Some(x) => x case None => default)
    case _ => Raised
  }

  /** `dict.get(k)`. */
  function Get(v: Json, k: string): Result<Json>
  {
    GetOr(v, k, JNull)
  }

  /** `v.get(k)` where `v` is known to be a dict. */
  function Field(v: Json, k: string): Json
    requires v.JObj?
  {
    Get(v, k).value
  }

  /** `v[k]` with a string key: KeyError for a missing key, TypeError for a
      list, a string or a number, and None is not subscriptable. */
  function Index(v: Json, k: string): (r: Result<Json>)
    ensures r.Ok? <==> v.JObj? && k in Keys(v.members)
  {
    match v
    case JObj(ms) => (match Lookup(ms, k) case Some(x) => Ok(x) case None => Raised)
    case _ => Raised
  }

  /** `k in v`: key membership for a dict, element membership for a list, a
      substring test for a string; None and numbers are not containers. */
  function In(k: string, v: Json): Result<bool>
  {
    match v
    case JObj(ms) => Ok(k in Keys(ms))
    case JArr(xs) => Ok(JStr(k) in xs)
    case JStr(s) => Ok(IsSubstring(k, s))
    case _ => Raised
  }

  /** What `for x in v` yields: the items of a list, the keys of a dict, the
      characters of a string; None and numbers are not iterable. */
  function Iter(v: Json): (r: Result<seq<Json>>)
    ensures v.JArr? ==> r == Ok(v.items)
  {
    match v
    case JArr(xs) => Ok(xs)
    case JObj(ms) => Ok(seq(|ms|, i requires 0 <= i < |ms| => JStr(ms[i].key)))
    case JStr(s) => Ok(seq(|s|, i requires 0 <= i < |s| => JStr([s[i]])))
    case _ => Raised
  }

  /** `d.values()`, in insertion order. */
  function ValuesOf(v: Json): (r: Result<seq<Json>>)
    ensures r.Ok? ==> v.JObj? && |r.value| == |v.members|
  {
    match v
    case JObj(ms) => Ok(seq(|ms|, i requires 0 <= i < |ms| => ms[i].value))
    case _ => Raised
  }

  /** An operand of `/`, `+`, `*` or `round`: anything but a number raises. */
  function Num(v: Json): (r: Result<real>)
    ensures r.Ok? <==> v.JNum?
  {
    match v
    case JNum(n) => Ok(n)
    case _ => Raised
  }

  /** `int(v)` on a number. */
  function IntOf(v: Json): (r: Result<Json>)
    ensures v.JNum? ==> r == Ok(JNum(Trunc(v.n) as real))
  {
    match v
    case JNum(n) => Ok(JNum(Trunc(n) as real))
    case _ => Raised
  }

  /** How `str()` renders a value: a string is itself and `None` is "None";
      numbers and containers are rendered by the host's formatter. */
  datatype Format = Format(number: real -> string, container: Json -> string)

  function Show(v: Json, fmt: Format): string
  {
    match v
    case JNull => "None"
    case JStr(s) => s
    case JNum(n) => fmt.number(n)
    case _ => fmt.container(v)
  }
}
