/** JSON-like values held by records, payloads, filters and rule rows. */
module Values {

  datatype Option<T> = None | Some(value: T)

  datatype Value =
    | Null
    | Bool(b: bool)
    | Int(n: int)
    | Str(s: string)
    | List(items: seq<Value>)
    | Dict(entries: Record)

  type Record = map<string, Value>

  /** `dict.get(key)`: a missing key reads as None. */
  function Get(r: Record, key: string): Value {
    if key in r then r[key] else Null
  }

  /** Python truthiness, which decides every `x or default` and `if x`. */
  predicate Truthy(v: Value) {
    match v
    case Null => false
    case Bool(b) => b
    case Int(n) => n != 0
    case Str(s) => s != ""
    case List(items) => items != []
    case Dict(entries) => entries != map[]
  }

  /** Python `==`: True equals 1 and False equals 0, at every depth. */
  predicate PyEq(a: Value, b: Value) {
    match (a, b)
    case (Bool(x), Int(n)) => n == if x then 1 else 0
    case (Int(n), Bool(x)) => n == if x then 1 else 0
    case (List(x), List(y)) =>
      |x| == |y| && forall i :: 0 <= i < |x| ==> PyEq(x[i], y[i])
    case (Dict(x), Dict(y)) =>
      x.Keys == y.Keys && forall k :: k in x ==> PyEq(x[k], y[k])
    case _ => a == b
  }

  /** What Python counts as false. */
  lemma FalsyValues(v: Value)
    ensures !Truthy(v) <==> v in {Null, Bool(false), Int(0), Str(""), List([]), Dict(map[])}
  {}

  /** The value with booleans written as the numbers they equal, at every depth. */
  function Numeric(v: Value): Value {
    match v
    case Bool(b) => Int(if b then 1 else 0)
    case List(items) => List(seq(|items|, i requires 0 <= i < |items| => Numeric(items[i])))
    case Dict(m) => Dict(map k | k in m :: Numeric(m[k]))
    case _ => v
  }

  /** Python equality is equality once booleans are numbers: so it is reflexive, symmetric and transitive. */
  lemma {:induction false} EqualAsNumbers(a: Value, b: Value)
    ensures PyEq(a, b) <==> Numeric(a) == Numeric(b)
    decreases a, 1
  {
    if a.List? && b.List? { ItemsEqualAsNumbers(a, b); }
    if a.Dict? && b.Dict? { EntriesEqualAsNumbers(a, b); }
  }

  lemma {:induction false} ItemsEqualAsNumbers(a: Value, b: Value)
    requires a.List? && b.List?
    ensures PyEq(a, b) <==> Numeric(a) == Numeric(b)
    decreases a, 0
  {
    var x, y, p, q := a.items, b.items, Numeric(a).items, Numeric(b).items;
    if |x| == |y| {
      forall i | 0 <= i < |x| ensures PyEq(x[i], y[i]) <==> p[i] == q[i] { EqualAsNumbers(x[i], y[i]); }
      assert p == q <==> forall i :: 0 <= i < |x| ==> p[i] == q[i];
    }
  }

  lemma {:induction false} EntriesEqualAsNumbers(a: Value, b: Value)
    requires a.Dict? && b.Dict?
    ensures PyEq(a, b) <==> Numeric(a) == Numeric(b)
    decreases a, 0
  {
    var x, y, p, q := a.entries, b.entries, Numeric(a).entries, Numeric(b).entries;
    assert p.Keys == x.Keys && q.Keys == y.Keys;
    if x.Keys == y.Keys {
      forall k | k in x ensures PyEq(x[k], y[k]) <==> p[k] == q[k] { EqualAsNumbers(x[k], y[k]); }
      assert p == q <==> forall k :: k in x ==> p[k] == q[k];
    }
  }

  /** The value with every null dictionary entry dropped: the normal form of "null equals absent". */
  function Clean(v: Value): Value {
    match v
    case Dict(m) => Dict(map k | k in m && m[k] != Null :: Clean(m[k]))
    case _ => v
  }

  /** Equal once null entries count as absent. */
  predicate Same(a: Value, b: Value) {
    Clean(a) == Clean(b)
  }

  /** Two records are the same exactly when every key reads the same in both. */
  lemma SameRecords(a: Record, b: Record)
    ensures Same(Dict(a), Dict(b)) <==> forall k :: Same(Get(a, k), Get(b, k))
  {
    var ca, cb := Clean(Dict(a)).entries, Clean(Dict(b)).entries;
    assert forall k :: k in ca <==> Get(a, k) != Null;
    assert forall k :: k in cb <==> Get(b, k) != Null;
    assert forall k :: k in ca ==> ca[k] == Clean(Get(a, k));
    assert forall k :: k in cb ==> cb[k] == Clean(Get(b, k));
    if forall k :: Same(Get(a, k), Get(b, k)) {
      forall k ensures k in ca <==> k in cb ensures k in ca && k in cb ==> ca[k] == cb[k] {
        assert Same(Get(a, k), Get(b, k));
      }
      assert ca == cb;
    } else {
      var k :| !Same(Get(a, k), Get(b, k));
      assert k in ca || k in cb;
      assert ca != cb;
    }
  }
}
