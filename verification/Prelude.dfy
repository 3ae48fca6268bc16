/** Small vocabulary shared by the models: optional values and finite sums. */
module Prelude {

  datatype Option<+T> = None | Some(value: T)

  function Min(a: int, b: int): int {
    if a < b then a else b
  }

  function Abs(x: int): nat {
    if x < 0 then -x else x
  }

  /** What a quantity is worth at a unit price; the product of the two units is exact. */
  function Worth(quantity: int, unitPrice: int): int {
    quantity * unitPrice
  }

  // ---------------------------------------------------------------------------------------
  // Columns with four decimals

  const COLUMN_STEP: int := 1_000_000  // 0.0001 in units of 0.0000000001
  const QUANTITY_STEP: int := 100      // 0.0001 in units of 0.000001

  /** What an amount column can hold. */
  type Money = x: int | x % COLUMN_STEP == 0

  /** What a quantity column can hold. */
  type Quantity = q: int | q % QUANTITY_STEP == 0

  /** An amount as its column stores it: nearest, ties away from zero. */
  function Stored(amount: int): Money {
    var rest := amount % COLUMN_STEP;
    var down := if amount >= 0 then 2 * rest < COLUMN_STEP else 2 * rest <= COLUMN_STEP;
    if down then amount - rest else amount - rest + COLUMN_STEP
  }

  /** A quantity as its column stores it. */
  function StoredQuantity(q: int): Quantity {
    var rest := q % QUANTITY_STEP;
    var down := if q >= 0 then 2 * rest < QUANTITY_STEP else 2 * rest <= QUANTITY_STEP;
    if down then q - rest else q - rest + QUANTITY_STEP
  }

  lemma StoredIsNear(amount: int)
    ensures 2 * Abs(Stored(amount) - amount) <= COLUMN_STEP
    ensures Stored(amount) > 0 <==> 2 * amount >= COLUMN_STEP
    ensures amount >= 0 ==> Stored(amount) >= 0
    ensures amount % COLUMN_STEP == 0 <==> Stored(amount) == amount
  {
  }

  lemma StoredQuantityIsNear(q: int)
    ensures 2 * Abs(StoredQuantity(q) - q) <= QUANTITY_STEP
    ensures StoredQuantity(q) > 0 <==> 2 * q >= QUANTITY_STEP
    ensures q >= 0 ==> StoredQuantity(q) >= 0
    ensures q % QUANTITY_STEP == 0 <==> StoredQuantity(q) == q
  {
  }

  /** A stored amount reaches a column value as soon as the amount comes within half a step of it. */
  lemma StoredReachesIff(amount: int, bound: Money)
    requires amount >= 0 && bound > 0
    ensures Stored(amount) >= bound <==> 2 * amount >= 2 * bound - COLUMN_STEP
  {
  }

  lemma StoredQuantityReachesIff(q: int, bound: Quantity)
    requires q >= 0 && bound > 0
    ensures StoredQuantity(q) >= bound <==> 2 * q >= 2 * bound - QUANTITY_STEP
  {
  }

  ghost predicate Distinct<T>(s: seq<T>) {
    forall i, j :: 0 <= i < j < |s| ==> s[i] != s[j]
  }

  lemma DistinctExtend<T>(s: seq<T>, x: T)
    requires Distinct(s) && x !in s
    ensures Distinct(s + [x])
  {
    forall i, j | 0 <= i < j < |s + [x]|
      ensures (s + [x])[i] != (s + [x])[j]
    {
      assert (s + [x])[i] == s[i];
    }
  }

  // ---------------------------------------------------------------------------------------
  // Sums

  /** The sum of `f` over the rows of `s`, accumulated from left to right. */
  function SumBy<T>(s: seq<T>, f: T -> int): int {
    if |s| == 0 then 0 else SumBy(s[..|s| - 1], f) + f(s[|s| - 1])
  }

  lemma SumByAppend<T>(s: seq<T>, x: T, f: T -> int)
    ensures SumBy(s + [x], f) == SumBy(s, f) + f(x)
  {
    assert (s + [x])[..|s|] == s;
  }

  lemma {:induction false} SumByConcat<T>(s: seq<T>, t: seq<T>, f: T -> int)
    ensures SumBy(s + t, f) == SumBy(s, f) + SumBy(t, f)
  {
    if |t| == 0 {
      assert s + t == s;
    } else {
      var t0 := t[..|t| - 1];
      SumByConcat(s, t0, f);
      assert (s + t)[..|s + t| - 1] == s + t0;
    }
  }

  lemma SumByHead<T>(s: seq<T>, f: T -> int)
    requires |s| > 0
    ensures SumBy(s, f) == f(s[0]) + SumBy(s[1..], f)
  {
    SumByConcat([s[0]], s[1..], f);
    assert [s[0]] + s[1..] == s;
    assert [s[0]][..0] == [];
  }

  lemma SumByCons<T>(x: T, t: seq<T>, f: T -> int)
    ensures SumBy([x] + t, f) == f(x) + SumBy(t, f)
  {
    assert ([x] + t)[1..] == t;
    SumByHead([x] + t, f);
  }

  lemma SumByPair<T>(x: T, y: T, f: T -> int)
    ensures SumBy([x, y], f) == f(x) + f(y)
  {
    assert [x, y] == ([] + [x]) + [y];
    SumByAppend([], x, f);
    SumByAppend([] + [x], y, f);
  }

  /** Replacing one row changes the sum by the change of that row. */
  lemma SumByUpdate<T>(s: seq<T>, i: nat, x: T, f: T -> int)
    requires i < |s|
    ensures SumBy(s[i := x], f) == SumBy(s, f) - f(s[i]) + f(x)
  {
    assert s == s[..i] + [s[i]] + s[i + 1..];
    assert s[i := x] == s[..i] + [x] + s[i + 1..];
    SumByConcat(s[..i] + [s[i]], s[i + 1..], f);
    SumByConcat(s[..i] + [x], s[i + 1..], f);
    SumByAppend(s[..i], s[i], f);
    SumByAppend(s[..i], x, f);
  }

  /** Two row functions that agree on every row have the same sum. */
  lemma {:induction false} SumByAgree<T>(s: seq<T>, f: T -> int, g: T -> int)
    requires forall x :: x in s ==> f(x) == g(x)
    ensures SumBy(s, f) == SumBy(s, g)
  {
    if |s| > 0 {
      SumByAgree(s[..|s| - 1], f, g);
    }
  }

  /** A sum with one row that may differ from zero is that row. */
  lemma {:induction false} SumBySingle<T>(s: seq<T>, k: nat, f: T -> int)
    requires k < |s| && forall i :: 0 <= i < |s| && i != k ==> f(s[i]) == 0
    ensures SumBy(s, f) == f(s[k])
  {
    var front := s[..|s| - 1];
    if k < |front| {
      SumBySingle(front, k, f);
    } else {
      SumByZero(front, f);
    }
  }

  lemma {:induction false} SumByZero<T>(s: seq<T>, f: T -> int)
    requires forall i :: 0 <= i < |s| ==> f(s[i]) == 0
    ensures SumBy(s, f) == 0
  {
    if |s| > 0 {
      SumByZero(s[..|s| - 1], f);
    }
  }

  lemma {:induction false} SumByNonNegative<T>(s: seq<T>, f: T -> int)
    requires forall x :: x in s ==> f(x) >= 0
    ensures SumBy(s, f) >= 0
  {
    if |s| > 0 {
      SumByNonNegative(s[..|s| - 1], f);
    }
  }

  /** The sum of `f` over a finite set; the order of the elements does not matter (SumOverAdd). */
  ghost function SumOver<T(!new)>(s: set<T>, f: T -> int): int {
    if s == {} then 0 else
    var x :| x in s;
    f(x) + SumOver(s - {x}, f)
  }

  lemma {:induction false} SumOverRemove<T(!new)>(s: set<T>, x: T, f: T -> int)
    requires x in s
    ensures SumOver(s, f) == f(x) + SumOver(s - {x}, f)
    decreases |s|
  {
    var y :| y in s && SumOver(s, f) == f(y) + SumOver(s - {y}, f);
    if y != x {
      SumOverRemove(s - {y}, x, f);
      SumOverRemove(s - {x}, y, f);
      assert s - {y} - {x} == s - {x} - {y};
    }
  }

  lemma SumOverAdd<T(!new)>(s: set<T>, x: T, f: T -> int)
    requires x !in s
    ensures SumOver(s + {x}, f) == SumOver(s, f) + f(x)
  {
    SumOverRemove(s + {x}, x, f);
    assert s + {x} - {x} == s;
  }

  lemma {:induction false} SumOverAgree<T(!new)>(s: set<T>, f: T -> int, g: T -> int)
    requires forall x :: x in s ==> f(x) == g(x)
    ensures SumOver(s, f) == SumOver(s, g)
    decreases |s|
  {
    if s != {} {
      var x :| x in s;
      SumOverRemove(s, x, f);
      SumOverRemove(s, x, g);
      SumOverAgree(s - {x}, f, g);
    }
  }

  /** A sum over a union of disjoint sets splits. */
  lemma {:induction false} SumOverUnion<T(!new)>(s: set<T>, t: set<T>, f: T -> int)
    requires s !! t
    ensures SumOver(s + t, f) == SumOver(s, f) + SumOver(t, f)
    decreases |t|
  {
    if t == {} {
      assert s + t == s;
    } else {
      var x :| x in t;
      SumOverUnion(s, t - {x}, f);
      assert s + t - {x} == s + (t - {x});
      SumOverRemove(s + t, x, f);
      SumOverRemove(t, x, f);
    }
  }

  /** A sum of column values is one. */
  lemma {:induction false} SumByStored<T>(s: seq<T>, f: T -> int)
    requires forall x :: x in s ==> f(x) % COLUMN_STEP == 0
    ensures SumBy(s, f) % COLUMN_STEP == 0
  {
    if |s| > 0 {
      assert s[|s| - 1] in s;
      SumByStored(s[..|s| - 1], f);
    }
  }

  lemma {:induction false} SumByStoredQuantity<T>(s: seq<T>, f: T -> int)
    requires forall x :: x in s ==> f(x) % QUANTITY_STEP == 0
    ensures SumBy(s, f) % QUANTITY_STEP == 0
  {
    if |s| > 0 {
      assert s[|s| - 1] in s;
      SumByStoredQuantity(s[..|s| - 1], f);
    }
  }

  /** Column values never differ by a quantity that no column can hold. */
  lemma StoredQuantitiesDiffer(a: int, b: int, q: int)
    requires a % QUANTITY_STEP == 0 && b % QUANTITY_STEP == 0 && q % QUANTITY_STEP != 0
    ensures a != b - q
  {
  }

  // ---------------------------------------------------------------------------------------
  // The status test of a payment and the rows that it leaves behind

  /**
   * The test that settles an invoice sees the payment as it was given, the table what its column
   * makes of it. A payment falls short when only the table has it reach the total.
   */
  predicate FallsShort(total: int, prior: int, amount: int) {
    2 * total - COLUMN_STEP <= 2 * (prior + amount) < 2 * total
  }

  /** The two agree on whether the total is reached exactly when the payment does not fall short. */
  lemma SettlementTestsAgreeIff(total: Money, prior: Money, amount: int)
    requires prior >= 0 && amount > 0
    ensures prior + amount >= total ==> prior + Stored(amount) >= total
    ensures (prior + amount >= total <==> prior + Stored(amount) >= total) <==> !FallsShort(total, prior, amount)
  {
    StoredIsNear(amount);
    if total - prior > 0 {
      StoredReachesIff(amount, total - prior);
    }
  }

  /** An unsettled payment never brings its row beyond the total. */
  lemma UnsettledStaysWithin(total: Money, prior: Money, amount: int)
    requires amount > 0 && prior + amount < total
    ensures prior + Stored(amount) <= total
  {
    NeverBeyond(amount, total - prior);
  }

  lemma NeverBeyond(amount: int, bound: Money)
    requires 0 < amount < bound
    ensures Stored(amount) <= bound
  {
  }
}
