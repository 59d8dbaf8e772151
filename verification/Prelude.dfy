/** Shared vocabulary: optional values, results, and sums over tables. */
module Prelude {

  /** UUIDs and names. They are only compared, so each is represented by a number. */
  type Id = nat

  /** A decimal amount that the records declare as `ge=0`. */
  type Money = x: real | 0.0 <= x

  datatype Option<+T> = None | Some(value: T)

  /** A returned value, or the exception that ended the call. */
  datatype Result<+T, +E> = Ok(value: T) | Err(error: E) {
    predicate IsFailure() {
      Err?
    }

    function PropagateFailure<U>(): Result<U, E>
      requires Err?
    {
      Err(error)
    }

    function Extract(): T
      requires Ok?
    {
      value
    }
  }

  /** Dollars per million tokens, as a model profile states them. */
  datatype Pricing = Pricing(input: Option<Money>, output: Option<Money>, cached: Option<Money>)

  function Min(a: real, b: real): real {
    if a <= b then a else b
  }

  function Max(a: real, b: real): real {
    if a >= b then a else b
  }

  predicate IsLeast(k: Id, s: set<Id>) {
    k in s && forall j :: j in s ==> k <= j
  }

  lemma {:induction false} LeastOf(s: set<Id>) returns (k: Id)
    requires s != {}
    ensures IsLeast(k, s)
  {
    k :| k in s;
    if s != {k} {
      var m := LeastOf(s - {k});
      assert forall j :: j in s ==> j == k || j in s - {k};
      k := if m <= k then m else k;
    }
  }

  lemma {:induction false} LeastExists(s: set<Id>)
    requires s != {}
    ensures exists k :: IsLeast(k, s)
  {
    var _ := LeastOf(s);
  }

  function Least(s: set<Id>): (k: Id)
    requires s != {}
    ensures IsLeast(k, s)
  {
    LeastExists(s);
    var k :| IsLeast(k, s);
    k
  }

  /** A set of names in ascending order. */
  function Sorted(s: set<Id>): (order: seq<Id>)
    ensures forall k :: k in order <==> k in s
    decreases s
  {
    if s == {} then [] else
      var k := Least(s);
      [k] + Sorted(s - {k})
  }

  predicate Distinct<T(==)>(s: seq<T>) {
    forall i, j :: 0 <= i < j < |s| ==> s[i] != s[j]
  }

  /** The sum a `SELECT amount ... WHERE ...` followed by `sum(...)` computes: `weight` is the
      amount of a row that the clause keeps, and zero for a row that it drops. */
  function Sum<V>(table: map<Id, V>, weight: V -> real): real
    decreases |table|
  {
    if |table.Keys| == 0 then 0.0
    else
      var k := Least(table.Keys);
      weight(table[k]) + Sum(table - {k}, weight)
  }

  /** Any row can be taken out of a sum, not just the first one. */
  lemma {:induction false} SumWithout<V>(table: map<Id, V>, weight: V -> real, k: Id)
    requires k in table
    ensures Sum(table, weight) == weight(table[k]) + Sum(table - {k}, weight)
    decreases |table|
  {
    var first := Least(table.Keys);
    if first != k {
      SumWithout(table - {first}, weight, k);
      SumWithout(table - {k}, weight, first);
      assert table - {first} - {k} == table - {k} - {first};
    }
  }

  /** Writing one row changes a sum by exactly the difference of that row's weights. */
  lemma {:induction false} SumPut<V>(table: map<Id, V>, weight: V -> real, k: Id, row: V)
    ensures Sum(table[k := row], weight) ==
            Sum(table, weight) - (if k in table then weight(table[k]) else 0.0) + weight(row)
  {
    SumWithout(table[k := row], weight, k);
    assert table[k := row] - {k} == table - {k};
    if k in table {
      SumWithout(table, weight, k);
    } else {
      assert table - {k} == table;
    }
  }

  /** Sums compare row by row. */
  lemma {:induction false} SumMonotone<U, V>(a: map<Id, U>, f: U -> real, b: map<Id, V>, g: V -> real)
    requires a.Keys == b.Keys
    requires forall k :: k in a ==> f(a[k]) <= g(b[k])
    ensures Sum(a, f) <= Sum(b, g)
    decreases |a|
  {
    if |a.Keys| != 0 {
      var k := Least(a.Keys);
      assert (a - {k}).Keys == (b - {k}).Keys;
      SumMonotone(a - {k}, f, b - {k}, g);
    }
  }

  // ----- Totals of amounts -----

  function Total(amounts: map<Id, real>): real {
    Sum(amounts, (x: real) => x)
  }

  function Plus(a: map<Id, real>, b: map<Id, real>): map<Id, real> {
    map k | k in a :: a[k] + if k in b then b[k] else 0.0
  }

  lemma {:induction false} PlusWithout(a: map<Id, real>, b: map<Id, real>, k: Id)
    ensures Plus(a, b) - {k} == Plus(a - {k}, b - {k}) && Plus(a, b).Keys == a.Keys
  {
  }

  lemma {:induction false} TotalPlus(a: map<Id, real>, b: map<Id, real>)
    requires b.Keys <= a.Keys
    ensures Total(Plus(a, b)) == Total(a) + Total(b)
    decreases |a|
  {
    if |a.Keys| == 0 {
      assert b.Keys == {};
    } else {
      var k := Least(a.Keys);
      PlusWithout(a, b, k);
      TotalPlus(a - {k}, b - {k});
      SumWithout(Plus(a, b), (x: real) => x, k);
      if k in b {
        SumWithout(b, (x: real) => x, k);
      } else {
        assert b - {k} == b;
      }
    }
  }
}
