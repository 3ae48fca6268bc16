/**
 * Stock movements, stock levels and FIFO cost layers. Quantities are integers in units of
 * 0.000001 and unit costs integers in units of 0.0001; a product of the two is exact. Requests may
 * have finer quantities than the tables, whose columns hold four decimals.
 */
module Inventory {
  import opened Prelude

  datatype Key = Key(product: string, warehouse: string)

  datatype MovementType = Receipt | Issue | Transfer | Adjustment

  /** `layered` marks the movements written by a goods receipt, which also write a cost layer. */
  datatype Movement = Movement(key: Key, kind: MovementType, quantity: Quantity, layered: bool)

  datatype Layer = Layer(key: Key, quantity: Quantity, remaining: Quantity, unitCost: int)

  datatype Consumed = Consumed(layer: nat, quantity: int, unitCost: int)

  datatype Consumption = Consumption(
    requested: int, consumed: int, unmatched: int, totalCost: int, layers: seq<Consumed>)

  /** What one outbound movement was charged. */
  datatype Issuance = Issuance(key: Key, result: Consumption)

  datatype Outcome = Recorded | ProductNotFound | WarehouseNotFound | InsufficientStock

  /** The stock tables; `issuances` collects the consumption results handed back to callers. */
  datatype Books = Books(
    levels: map<Key, Quantity>, movements: seq<Movement>, layers: seq<Layer>, issuances: seq<Issuance>)

  predicate IsOutbound(kind: MovementType) {
    kind == Issue || kind == Transfer
  }

  function LevelOf(levels: map<Key, Quantity>, k: Key): Quantity {
    if k in levels then levels[k] else 0
  }

  // ---------------------------------------------------------------------------------------
  // Draining layers, and the plain queue of costed units that it refines

  /** What one layer contributes to an issue of `q` units of `k`. */
  function TakeFrom(l: Layer, k: Key, q: int): int {
    if l.key == k && l.remaining > 0 then Min(l.remaining, q) else 0
  }

  /** A row after giving up `take` units, as it is stored. */
  function After(l: Layer, take: int): Layer {
    l.(remaining := StoredQuantity(l.remaining - take))
  }

  /** Nothing is rounded when the column can hold what is left. */
  lemma AfterIsExact(l: Layer, take: int)
    ensures take % QUANTITY_STEP == 0 ==> After(l, take).remaining == l.remaining - take
    ensures 0 <= take <= l.remaining ==> 0 <= After(l, take).remaining <= l.remaining
  {
    StoredQuantityIsNear(l.remaining - take);
  }

  lemma CostSplits(a: int, b: int, unitCost: int)
    ensures Worth(a + b, unitCost) == Worth(a, unitCost) + Worth(b, unitCost)
  {
  }

  /** The layers of a table after draining `q` units of `k`, oldest first. */
  function Drain(ls: seq<Layer>, k: Key, q: int): seq<Layer> {
    if |ls| == 0 || q <= 0 then ls
    else
      var take := TakeFrom(ls[0], k, q);
      [After(ls[0], take)] + Drain(ls[1..], k, q - take)
  }

  /** What remains of `q` when the layers run out. */
  function Shortfall(ls: seq<Layer>, k: Key, q: int): int {
    if |ls| == 0 || q <= 0 then q else Shortfall(ls[1..], k, q - TakeFrom(ls[0], k, q))
  }

  /** What the drained units cost. */
  function Charge(ls: seq<Layer>, k: Key, q: int): int {
    if |ls| == 0 || q <= 0 then 0
    else
      var take := TakeFrom(ls[0], k, q);
      Worth(take, ls[0].unitCost) + Charge(ls[1..], k, q - take)
  }

  /** `n` units that cost `c` each. */
  function Batch(n: int, c: int): seq<int> {
    if n <= 0 then [] else seq(n, i => c)
  }

  /** The stock of `k` as a queue with one unit cost per remaining unit, oldest unit first. */
  function Units(ls: seq<Layer>, k: Key): seq<int> {
    if |ls| == 0 then []
    else OwnUnits(ls[0], k) + Units(ls[1..], k)
  }

  function Itself(): int -> int {
    (x: int) => x
  }

  function Total(costs: seq<int>): int {
    SumBy(costs, Itself())
  }

  /** How many units an issue of `q` takes from a queue of `available`. */
  function Taken(q: int, available: nat): nat {
    if q <= 0 then 0 else Min(q, available)
  }

  lemma {:induction false} BatchTotal(n: nat, c: int)
    ensures Total(Batch(n, c)) == Worth(n, c)
  {
    if n > 0 {
      assert Batch(n, c)[..n - 1] == Batch(n - 1, c);
      BatchTotal(n - 1, c);
      CostSplits(n - 1, 1, c);
    }
  }

  /** Taking a batch's first units, and going into the queue behind it only once it is used up. */
  lemma BatchThenQueue(own: seq<int>, tail: seq<int>, take: nat, m: nat)
    requires take <= |own| && m <= |tail| && (m > 0 ==> take == |own|)
    ensures (own + tail)[..take + m] == own[..take] + tail[..m]
    ensures (own + tail)[take + m..] == own[take..] + tail[m..]
  {
  }

  function OwnUnits(l: Layer, k: Key): seq<int> {
    if l.key == k then Batch(l.remaining, l.unitCost) else []
  }

  /** How many units the first row and the rows behind it contribute to an issue. */
  lemma TakenSplits(l: Layer, k: Key, q: int, behind: nat)
    requires q > 0
    ensures var take, own := TakeFrom(l, k, q), |OwnUnits(l, k)|;
            var m := Taken(q - take, behind);
            Taken(q, own + behind) == take + m && take <= own && (m > 0 ==> take == own)
  {
  }

  /** A row's first units are what it gives up. */
  lemma OwnUnitsTaken(l: Layer, k: Key, q: int)
    requires q > 0
    ensures var take, own := TakeFrom(l, k, q), OwnUnits(l, k);
            0 <= take <= |own| && own[..take] == Batch(take, l.unitCost)
  {
  }

  /** It keeps the others, if its column can hold what is left. */
  lemma OwnUnitsAfter(l: Layer, k: Key, q: int)
    requires q > 0 && TakeFrom(l, k, q) % QUANTITY_STEP == 0
    ensures var take, own := TakeFrom(l, k, q), OwnUnits(l, k);
            0 <= take <= |own| && OwnUnits(After(l, take), k) == own[take..]
  {
    AfterIsExact(l, TakeFrom(l, k, q));
  }

  lemma UnitsOfCons(l: Layer, ls: seq<Layer>, k: Key)
    ensures Units([l] + ls, k) == OwnUnits(l, k) + Units(ls, k)
  {
    assert ([l] + ls)[1..] == ls;
  }

  /** How an issue cuts a queue: the first row's units go first, the rows behind supply the rest. */
  lemma QueueSplits(ls: seq<Layer>, k: Key, q: int)
    requires |ls| > 0 && q > 0
    ensures var take, all, own, tail := TakeFrom(ls[0], k, q), Units(ls, k), OwnUnits(ls[0], k), Units(ls[1..], k);
            var n, m := Taken(q, |all|), Taken(q - take, |tail|);
            && 0 <= take <= |own|
            && all[..n] == Batch(take, ls[0].unitCost) + tail[..m]
            && all[n..] == own[take..] + tail[m..]
  {
    var take, own, tail := TakeFrom(ls[0], k, q), OwnUnits(ls[0], k), Units(ls[1..], k);
    var m := Taken(q - take, |tail|);
    OwnUnitsTaken(ls[0], k, q);
    assert Taken(q, |Units(ls, k)|) == take + m && (m > 0 ==> take == |own|) by {
      TakenSplits(ls[0], k, q, |tail|);
    }
    assert Units(ls, k) == own + tail;
    BatchThenQueue(own, tail, take, m);
  }

  /** Nothing is issued, or what is issued has at most four decimals, or everything there is goes. */
  ghost predicate Clean(ls: seq<Layer>, k: Key, q: int) {
    q <= 0 || q % QUANTITY_STEP == 0 || q >= |Units(ls, k)|
  }

  /** A clean issue takes from every row what the row's column can give up. */
  lemma CleanStep(ls: seq<Layer>, k: Key, q: int)
    requires |ls| > 0 && q > 0
    ensures var take := TakeFrom(ls[0], k, q);
            Clean(ls, k, q) <==> take % QUANTITY_STEP == 0 && Clean(ls[1..], k, q - take)
  {
    UnitsAreStored(ls[1..], k);
  }

  lemma {:induction false} UnitsAreStored(ls: seq<Layer>, k: Key)
    ensures |Units(ls, k)| % QUANTITY_STEP == 0
  {
    if |ls| > 0 {
      UnitsAreStored(ls[1..], k);
    }
  }

  /** A clean issue removes the oldest units of its own key. */
  lemma {:induction false} DrainTakesOldest(ls: seq<Layer>, k: Key, q: int)
    requires Clean(ls, k, q)
    ensures Units(Drain(ls, k, q), k) == Units(ls, k)[Taken(q, |Units(ls, k)|)..]
  {
    if |ls| > 0 && q > 0 {
      var take := TakeFrom(ls[0], k, q);
      CleanStep(ls, k, q);
      DrainTakesOldest(ls[1..], k, q - take);
      OwnUnitsAfter(ls[0], k, q);
      UnitsOfCons(After(ls[0], take), Drain(ls[1..], k, q - take), k);
      QueueSplits(ls, k, q);
    }
  }

  /** What it could not find is the shortfall. */
  lemma {:induction false} ShortfallIsUnmatched(ls: seq<Layer>, k: Key, q: int)
    ensures Shortfall(ls, k, q) == q - Taken(q, |Units(ls, k)|)
  {
    if |ls| > 0 && q > 0 {
      ShortfallIsUnmatched(ls[1..], k, q - TakeFrom(ls[0], k, q));
      TakenSplits(ls[0], k, q, |Units(ls[1..], k)|);
    }
  }

  /** The oldest units of a queue cost what the first row gives up and what the rows behind it do. */
  lemma OldestCost(ls: seq<Layer>, k: Key, q: int)
    requires |ls| > 0 && q > 0
    ensures var take, all, tail := TakeFrom(ls[0], k, q), Units(ls, k), Units(ls[1..], k);
            Total(all[..Taken(q, |all|)]) == Worth(take, ls[0].unitCost) + Total(tail[..Taken(q - take, |tail|)])
  {
    var take, tail := TakeFrom(ls[0], k, q), Units(ls[1..], k);
    QueueSplits(ls, k, q);
    BatchTotal(take, ls[0].unitCost);
    SumByConcat(Batch(take, ls[0].unitCost), tail[..Taken(q - take, |tail|)], Itself());
  }

  /** The charge is exactly the cost of the oldest units. */
  lemma {:induction false} DrainChargesOldest(ls: seq<Layer>, k: Key, q: int)
    ensures Charge(ls, k, q) == Total(Units(ls, k)[..Taken(q, |Units(ls, k)|)])
  {
    if |ls| > 0 && q > 0 {
      DrainChargesOldest(ls[1..], k, q - TakeFrom(ls[0], k, q));
      OldestCost(ls, k, q);
    }
  }

  /** Tables never differ by a quantity that their columns cannot hold. */
  lemma StoredUnitsDiffer(before: seq<Layer>, after: seq<Layer>, k: Key, q: int)
    requires q % QUANTITY_STEP != 0
    ensures |Units(after, k)| != |Units(before, k)| - q
  {
    UnitsAreStored(before, k);
    UnitsAreStored(after, k);
    StoredQuantitiesDiffer(|Units(after, k)|, |Units(before, k)|, q);
  }

  /**
   * So the layer walk refines a plain queue of costed units: charge and shortfall always, and the
   * units that stay exactly when the issue is clean.
   */
  lemma DrainRefinesQueue(ls: seq<Layer>, k: Key, q: int)
    ensures var m := Taken(q, |Units(ls, k)|);
            && Charge(ls, k, q) == Total(Units(ls, k)[..m])
            && Shortfall(ls, k, q) == q - m
            && (Units(Drain(ls, k, q), k) == Units(ls, k)[m..] <==> Clean(ls, k, q))
  {
    ShortfallIsUnmatched(ls, k, q);
    DrainChargesOldest(ls, k, q);
    if Clean(ls, k, q) {
      DrainTakesOldest(ls, k, q);
    } else {
      StoredUnitsDiffer(ls, Drain(ls, k, q), k, q);
    }
  }

  /** Another key's queue is untouched. */
  lemma {:induction false} DrainKeepsOtherUnits(ls: seq<Layer>, k: Key, q: int, other: Key)
    requires other != k
    ensures Units(Drain(ls, k, q), other) == Units(ls, other)
  {
    if |ls| > 0 && q > 0 {
      var take := TakeFrom(ls[0], k, q);
      AfterIsExact(ls[0], take);
      DrainKeepsOtherUnits(ls[1..], k, q - take, other);
      UnitsOfCons(After(ls[0], take), Drain(ls[1..], k, q - take), other);
    }
  }

  /** Only `remaining` changes in any row, and only in rows of the issued key. */
  lemma {:induction false} DrainTouchesOnlyItsKey(ls: seq<Layer>, k: Key, q: int)
    ensures |Drain(ls, k, q)| == |ls|
    ensures forall i :: 0 <= i < |ls| ==>
              && Drain(ls, k, q)[i] == ls[i].(remaining := Drain(ls, k, q)[i].remaining)
              && (ls[i].key != k ==> Drain(ls, k, q)[i] == ls[i])
              && (0 <= ls[i].remaining ==> 0 <= Drain(ls, k, q)[i].remaining <= ls[i].remaining)
  {
    if |ls| > 0 && q > 0 {
      var take := TakeFrom(ls[0], k, q);
      var rest := Drain(ls[1..], k, q - take);
      AfterIsExact(ls[0], take);
      DrainTouchesOnlyItsKey(ls[1..], k, q - take);
      forall i | 0 < i < |ls|
        ensures Drain(ls, k, q)[i] == rest[i - 1] && ls[i] == ls[1..][i - 1]
      {
      }
    }
  }

  /** What is left of a row after two issues, and what they take from it together. */
  lemma TakeTwice(l: Layer, k: Key, a: int, b: int)
    requires a > 0 && b > 0 && TakeFrom(l, k, a) % QUANTITY_STEP == 0
    ensures var take, both := TakeFrom(l, k, a), TakeFrom(l, k, a + b);
            var more := TakeFrom(After(l, take), k, b);
            && take + more == both && (take < a ==> more == 0)
            && After(After(l, take), more) == After(l, both)
  {
    AfterIsExact(l, TakeFrom(l, k, a));
  }

  lemma DrainCons(l: Layer, tail: seq<Layer>, k: Key, q: int)
    requires q > 0
    ensures var take := TakeFrom(l, k, q);
            && Drain([l] + tail, k, q) == [After(l, take)] + Drain(tail, k, q - take)
            && Charge([l] + tail, k, q) == Worth(take, l.unitCost) + Charge(tail, k, q - take)
            && Shortfall([l] + tail, k, q) == Shortfall(tail, k, q - take)
  {
    assert ([l] + tail)[1..] == tail;
  }

  /** Issuing `a` and then `b` is issuing `a + b`: same layers, same total cost, same shortfall. */
  ghost predicate AdditiveAt(ls: seq<Layer>, k: Key, a: int, b: int) {
    var first := Drain(ls, k, a);
    && Drain(first, k, b) == Drain(ls, k, a + b)
    && Charge(ls, k, a) + Charge(first, k, b) == Charge(ls, k, a + b)
    && Shortfall(ls, k, a) + Shortfall(first, k, b) == Shortfall(ls, k, a + b)
  }

  /** The first issue ends inside the first row. */
  lemma AdditiveInside(l: Layer, tail: seq<Layer>, k: Key, a: int, b: int)
    requires a > 0 && b > 0 && a % QUANTITY_STEP == 0 && TakeFrom(l, k, a) == a
    ensures AdditiveAt([l] + tail, k, a, b)
  {
    var row := After(l, a);
    TakeTwice(l, k, a, b);
    DrainCons(l, tail, k, a);
    DrainCons(row, tail, k, b);
    DrainCons(l, tail, k, a + b);
    CostSplits(a, TakeFrom(row, k, b), l.unitCost);
  }

  /** A row that is of another key or used up passes an issue on. */
  lemma DrainPasses(l: Layer, tail: seq<Layer>, k: Key, q: int)
    requires q > 0 && TakeFrom(l, k, q) == 0
    ensures Drain([l] + tail, k, q) == [l] + Drain(tail, k, q)
    ensures Charge([l] + tail, k, q) == Charge(tail, k, q)
    ensures Shortfall([l] + tail, k, q) == Shortfall(tail, k, q)
  {
    DrainCons(l, tail, k, q);
    AfterIsExact(l, 0);
    assert Worth(0, l.unitCost) == 0;
  }

  /** A row that cannot satisfy an issue gives what it has, now or in a longer one, and nothing later. */
  lemma RowIsUsedUp(l: Layer, k: Key, a: int, b: int)
    requires a > 0 && b > 0 && TakeFrom(l, k, a) % QUANTITY_STEP == 0 && TakeFrom(l, k, a) < a
    ensures TakeFrom(l, k, a + b) == TakeFrom(l, k, a)
    ensures TakeFrom(After(l, TakeFrom(l, k, a)), k, b) == 0
  {
    AfterIsExact(l, TakeFrom(l, k, a));
  }

  /** Two issues in a row on a table whose first row is used up, and the rows behind it. */
  lemma BothPass(l: Layer, tail: seq<Layer>, k: Key, a: int, b: int)
    requires a > 0 && b > 0 && TakeFrom(l, k, a) % QUANTITY_STEP == 0 && TakeFrom(l, k, a) < a
    ensures var row, rest := After(l, TakeFrom(l, k, a)), a - TakeFrom(l, k, a);
            var ls, first := [l] + tail, Drain(tail, k, rest);
            && Drain(Drain(ls, k, a), k, b) == [row] + Drain(first, k, b)
            && Charge(ls, k, a) + Charge(Drain(ls, k, a), k, b) ==
               Worth(TakeFrom(l, k, a), l.unitCost) + Charge(tail, k, rest) + Charge(first, k, b)
            && Shortfall(ls, k, a) + Shortfall(Drain(ls, k, a), k, b) ==
               Shortfall(tail, k, rest) + Shortfall(first, k, b)
  {
    var take := TakeFrom(l, k, a);
    RowIsUsedUp(l, k, a, b);
    DrainCons(l, tail, k, a);
    DrainPasses(After(l, take), Drain(tail, k, a - take), k, b);
  }

  /** One longer issue on such a table. */
  lemma LongerPasses(l: Layer, tail: seq<Layer>, k: Key, a: int, b: int)
    requires a > 0 && b > 0 && TakeFrom(l, k, a) % QUANTITY_STEP == 0 && TakeFrom(l, k, a) < a
    ensures var take := TakeFrom(l, k, a);
            && Drain([l] + tail, k, a + b) == [After(l, take)] + Drain(tail, k, a - take + b)
            && Charge([l] + tail, k, a + b) == Worth(take, l.unitCost) + Charge(tail, k, a - take + b)
            && Shortfall([l] + tail, k, a + b) == Shortfall(tail, k, a - take + b)
  {
    RowIsUsedUp(l, k, a, b);
    DrainCons(l, tail, k, a + b);
  }

  /** The first issue uses up the first row and goes on behind it. */
  lemma AdditiveBeyond(l: Layer, tail: seq<Layer>, k: Key, a: int, b: int)
    requires a > 0 && b > 0 && TakeFrom(l, k, a) % QUANTITY_STEP == 0 && TakeFrom(l, k, a) < a
    requires AdditiveAt(tail, k, a - TakeFrom(l, k, a), b)
    ensures AdditiveAt([l] + tail, k, a, b)
  {
    BothPass(l, tail, k, a, b);
    LongerPasses(l, tail, k, a, b);
  }

  lemma {:induction false} DrainIsAdditive(ls: seq<Layer>, k: Key, a: int, b: int)
    requires a >= 0 && b >= 0 && Clean(ls, k, a)
    ensures AdditiveAt(ls, k, a, b)
  {
    if |ls| > 0 && a > 0 && b > 0 {
      var take := TakeFrom(ls[0], k, a);
      CleanStep(ls, k, a);
      assert ls == [ls[0]] + ls[1..];
      if take < a {
        DrainIsAdditive(ls[1..], k, a - take, b);
        AdditiveBeyond(ls[0], ls[1..], k, a, b);
      } else {
        AdditiveInside(ls[0], ls[1..], k, a, b);
      }
    }
  }

  /** After an issue that is not clean, one for everything there was shows the difference. */
  lemma UncleanIsNotAdditive(ls: seq<Layer>, k: Key, a: nat)
    requires !Clean(ls, k, a)
    ensures !AdditiveAt(ls, k, a, |Units(ls, k)|)
  {
    var b, first := |Units(ls, k)|, Drain(ls, k, a);
    ShortfallIsUnmatched(ls, k, a);
    ShortfallIsUnmatched(ls, k, a + b);
    ShortfallIsUnmatched(first, k, b);
    StoredUnitsDiffer(ls, first, k, a);
    assert Shortfall(ls, k, a) + Shortfall(first, k, b) != Shortfall(ls, k, a + b);
  }

  /** A first issue can be followed by any other as if they were one exactly when it is clean. */
  lemma DrainIsAdditiveIff(ls: seq<Layer>, k: Key, a: nat)
    ensures (forall b: nat :: AdditiveAt(ls, k, a, b)) <==> Clean(ls, k, a)
  {
    if Clean(ls, k, a) {
      forall b: nat
        ensures AdditiveAt(ls, k, a, b)
      {
        DrainIsAdditive(ls, k, a, b);
      }
    } else {
      UncleanIsNotAdditive(ls, k, a);
    }
  }

  /** Issues of 0.00005 are charged for again and again and never use up a layer of 0.0001. */
  lemma HalfStepsDrainNothing(k: Key, unitCost: int)
    ensures var ls := [Layer(k, 100, 100, unitCost)];
            Drain(ls, k, 50) == ls && Charge(ls, k, 50) == Worth(50, unitCost) && Shortfall(ls, k, 50) == 0
  {
    var ls := [Layer(k, 100, 100, unitCost)];
    assert After(ls[0], 50) == ls[0];
    assert ls[1..] == [];
  }

  // ---------------------------------------------------------------------------------------
  // The operations

  function Signed(kind: MovementType, q: int): int {
    if IsOutbound(kind) then -q else q
  }

  /** A movement that writes no cost layer. */
  ghost function Move(b: Books, k: Key, kind: MovementType, q: int): Books {
    var amount := Signed(kind, q);
    if k !in b.levels && amount < 0 then b
    else
      var moved := b.(movements := b.movements + [Movement(k, kind, StoredQuantity(q), false)],
                      levels := b.levels[k := StoredQuantity(LevelOf(b.levels, k) + amount)]);
      if !IsOutbound(kind) then moved
      else
        var left := Shortfall(b.layers, k, q);
        moved.(layers := Drain(b.layers, k, q),
               issuances := b.issuances + [Issuance(k, Consumption(q, q - left, left, Charge(b.layers, k, q), []))])
  }

  /** The oldest `q` units leave: the level falls, and one issuance says what they cost and what is short. */
  ghost predicate TakesOut(b: Books, k: Key, q: int, after: Books) {
    var units := Units(b.layers, k);
    && after.levels == b.levels[k := StoredQuantity(LevelOf(b.levels, k) - q)]
    && |after.issuances| == |b.issuances| + 1 && after.issuances[..|b.issuances|] == b.issuances
    && (Clean(b.layers, k, q) ==> Units(after.layers, k) == units[Taken(q, |units|)..])
    && var last := after.issuances[|b.issuances|];
       && last.key == k && last.result.requested == q
       && last.result.totalCost == Total(units[..Taken(q, |units|)])
       && last.result.unmatched == q - Taken(q, |units|) && last.result.consumed == Taken(q, |units|)
  }

  /** `q` units arrive without a layer. */
  ghost predicate PutsIn(b: Books, k: Key, q: int, after: Books) {
    && after.levels == b.levels[k := StoredQuantity(LevelOf(b.levels, k) + q)]
    && after.layers == b.layers && after.issuances == b.issuances
  }

  /** What each kind of movement does to stock that has a level. */
  ghost predicate Moves(b: Books, k: Key, kind: MovementType, q: int, after: Books) {
    && after.movements == b.movements + [Movement(k, kind, StoredQuantity(q), false)]
    && match kind
       case Issue => TakesOut(b, k, q, after)
       case Transfer => TakesOut(b, k, q, after)
       case Receipt => PutsIn(b, k, q, after)
       case Adjustment => PutsIn(b, k, q, after)
  }

  /** Without a level, what would take something out is refused. */
  predicate Underruns(kind: MovementType, q: int) {
    match kind
    case Issue => q > 0
    case Transfer => q > 0
    case Receipt => q < 0
    case Adjustment => q < 0
  }

  lemma MoveMeaning(b: Books, k: Key, kind: MovementType, q: int)
    ensures if k !in b.levels && Underruns(kind, q) then Move(b, k, kind, q) == b
            else Moves(b, k, kind, q, Move(b, k, kind, q))
  {
    if !(k !in b.levels && Underruns(kind, q)) && IsOutbound(kind) {
      OutboundTakesOut(b, k, kind, q);
    }
  }

  lemma OutboundTakesOut(b: Books, k: Key, kind: MovementType, q: int)
    requires IsOutbound(kind) && (k in b.levels || q <= 0)
    ensures TakesOut(b, k, q, Move(b, k, kind, q))
  {
    DrainRefinesQueue(b.layers, k, q);
  }

  /** One received line: a movement, a cost layer and a raised level. */
  ghost function Receive(b: Books, k: Key, q: int, unitCost: int): Books {
    Books(b.levels[k := StoredQuantity(LevelOf(b.levels, k) + q)],
          b.movements + [Movement(k, MovementType.Receipt, StoredQuantity(q), true)],
          b.layers + [Layer(k, StoredQuantity(q), StoredQuantity(q), unitCost)],
          b.issuances)
  }

  /** The consumption without its per-layer breakdown. */
  function Summary(c: Consumption): Consumption {
    c.(layers := [])
  }

  function Value(): Consumed -> int {
    (c: Consumed) => Worth(c.quantity, c.unitCost)
  }

  function Amount(): Consumed -> int {
    (c: Consumed) => c.quantity
  }

  /** The breakdown names existing layers of the key at their own cost and adds up to the totals. */
  ghost predicate BreakdownAgrees(c: Consumption, ls: seq<Layer>, k: Key) {
    BreaksDown(c.layers, ls, k, c.consumed, c.totalCost)
  }

  ghost predicate BreaksDown(cs: seq<Consumed>, ls: seq<Layer>, k: Key, quantity: int, cost: int) {
    && SumBy(cs, Amount()) == quantity
    && SumBy(cs, Value()) == cost
    && forall x :: x in cs ==> TakenFrom(x, ls, k)
  }

  ghost predicate TakenFrom(x: Consumed, ls: seq<Layer>, k: Key) {
    x.layer < |ls| && ls[x.layer].key == k && ls[x.layer].unitCost == x.unitCost && x.quantity > 0
  }

  lemma BreakdownExtend(cs: seq<Consumed>, ls: seq<Layer>, k: Key, quantity: int, cost: int, x: Consumed)
    requires BreaksDown(cs, ls, k, quantity, cost) && TakenFrom(x, ls, k)
    ensures BreaksDown(cs + [x], ls, k, quantity + x.quantity, cost + Worth(x.quantity, x.unitCost))
  {
    SumByAppend(cs, x, Amount());
    SumByAppend(cs, x, Value());
  }

  /** The walk has handled the first `i` rows; the rows from there on are still as before. */
  ghost predicate Progress(before: seq<Layer>, k: Key, q: int, now: seq<Layer>, i: int, left: int) {
    && 0 <= i <= |now| == |before|
    && now[i..] == before[i..]
    && Drain(before, k, q) == now[..i] + Drain(before[i..], k, left)
    && Shortfall(before, k, q) == Shortfall(before[i..], k, left)
  }

  ghost predicate ChargedSoFar(before: seq<Layer>, k: Key, q: int, i: int, cost: int, left: int) {
    0 <= i <= |before| && Charge(before, k, q) == cost + Charge(before[i..], k, left)
  }

  lemma ProgressStep(before: seq<Layer>, k: Key, q: int, now: seq<Layer>, i: nat, left: int)
    requires Progress(before, k, q, now, i, left) && i < |now| && left > 0
    ensures now[i] == before[i]
    ensures var take := TakeFrom(now[i], k, left);
            && Progress(before, k, q, now[i := After(now[i], take)], i + 1, left - take)
            && (take == 0 ==> Progress(before, k, q, now, i + 1, left))
  {
    var take := TakeFrom(now[i], k, left);
    var now' := now[i := After(now[i], take)];
    assert now[i] == now[i..][0] == before[i..][0] == before[i];
    assert before[i..][1..] == before[i + 1..];
    assert now'[i + 1..] == now[i..][1..];
    var rest := Drain(before[i + 1..], k, left - take);
    assert now[..i] + ([After(now[i], take)] + rest) == now'[..i + 1] + rest;
    assert take == 0 ==> now' == now;
  }

  lemma ChargeStep(before: seq<Layer>, k: Key, q: int, i: nat, cost: int, left: int)
    requires ChargedSoFar(before, k, q, i, cost, left) && i < |before| && left > 0
    ensures var take := TakeFrom(before[i], k, left);
            && ChargedSoFar(before, k, q, i + 1, cost + Worth(take, before[i].unitCost), left - take)
            && (take == 0 ==> ChargedSoFar(before, k, q, i + 1, cost, left))
  {
    assert before[i..][1..] == before[i + 1..];
  }

  /** Where the walk stands before row `i`, with its running totals and the breakdown so far. */
  ghost predicate DrainedSoFar(
    before: seq<Layer>, k: Key, q: int, now: seq<Layer>, i: int, left: int, cost: int, cs: seq<Consumed>)
  {
    && Progress(before, k, q, now, i, left) && ChargedSoFar(before, k, q, i, cost, left)
    && BreaksDown(cs, before, k, q - left, cost)
  }

  /** A row of the key gives up what it can and is listed. */
  lemma PassTakes(
    before: seq<Layer>, k: Key, q: int, now: seq<Layer>, i: nat, left: int, cost: int, cs: seq<Consumed>, x: Consumed)
    requires DrainedSoFar(before, k, q, now, i, left, cost, cs) && i < |now| && left > 0
    requires now[i].key == k && now[i].remaining > 0 && x == Consumed(i, Min(now[i].remaining, left), now[i].unitCost)
    ensures DrainedSoFar(before, k, q, now[i := After(now[i], x.quantity)], i + 1, left - x.quantity,
                         cost + Worth(x.quantity, x.unitCost), cs + [x])
  {
    ProgressStep(before, k, q, now, i, left);
    ChargeStep(before, k, q, i, cost, left);
    BreakdownExtend(cs, before, k, q - left, cost, x);
  }

  /** Any other row is passed over. */
  lemma PassSkips(
    before: seq<Layer>, k: Key, q: int, now: seq<Layer>, i: nat, left: int, cost: int, cs: seq<Consumed>)
    requires DrainedSoFar(before, k, q, now, i, left, cost, cs) && i < |now| && left > 0
    requires now[i].key != k || now[i].remaining <= 0
    ensures DrainedSoFar(before, k, q, now, i + 1, left, cost, cs)
  {
    ProgressStep(before, k, q, now, i, left);
    ChargeStep(before, k, q, i, cost, left);
  }

  lemma ProgressDone(before: seq<Layer>, k: Key, q: int, now: seq<Layer>, i: nat, cost: int, left: int)
    requires Progress(before, k, q, now, i, left) && ChargedSoFar(before, k, q, i, cost, left)
    requires i == |now| || left <= 0
    ensures Drain(before, k, q) == now && Charge(before, k, q) == cost && Shortfall(before, k, q) == left
  {
    assert now[..i] + now[i..] == now;
  }

  class StockTables {
    const products: set<string>
    const warehouses: set<string>
    var levels: map<Key, Quantity>
    var movements: seq<Movement>
    var layers: seq<Layer>
    ghost var issuances: seq<Issuance>

    ghost function View(): Books
      reads this
    {
      Books(levels, movements, layers, issuances)
    }

    constructor (products: set<string>, warehouses: set<string>)
      ensures View() == Books(map[], [], [], [])
      ensures this.products == products && this.warehouses == warehouses
    {
      this.products, this.warehouses := products, warehouses;
      levels, movements, layers, issuances := map[], [], [], [];
    }

    method RecordMovement(k: Key, kind: MovementType, q: int) returns (outcome: Outcome, fifo: Option<Consumption>)
      modifies this
      ensures outcome == ProductNotFound <==> k.product !in products
      ensures outcome == WarehouseNotFound <==> k.product in products && k.warehouse !in warehouses
      ensures outcome == InsufficientStock <==>
              && k.product in products && k.warehouse in warehouses
              && k !in old(levels) && Underruns(kind, q)
      ensures View() == if outcome == Recorded then Move(old(View()), k, kind, q) else old(View())
      ensures outcome == Recorded ==> Moves(old(View()), k, kind, q, View())
      ensures fifo.Some? <==> outcome == Recorded && (kind == Issue || kind == Transfer)
      ensures fifo.Some? ==> BreakdownAgrees(fifo.value, old(layers), k)
      ensures fifo.Some? ==> issuances == old(issuances) + [Issuance(k, Summary(fifo.value))]
    {
      MoveMeaning(View(), k, kind, q);
      if k.product !in products {
        return ProductNotFound, None;
      }
      if k.warehouse !in warehouses {
        return WarehouseNotFound, None;
      }
      var amount := Signed(kind, q);
      if k in levels {
        levels := levels[k := StoredQuantity(levels[k] + amount)];
      } else {
        if amount < 0 {
          return InsufficientStock, None;
        }
        levels := levels[k := StoredQuantity(amount)];
      }
      movements := movements + [Movement(k, kind, StoredQuantity(q), false)];
      fifo := None;
      if IsOutbound(kind) {
        var c := ConsumeFifoCostLayers(k, q);
        fifo := Some(c);
        issuances := issuances + [Issuance(k, Summary(c))];
      }
      outcome := Recorded;
    }

    /**
     * Walks the table in receipt order. The filter that the source puts in the query (same key,
     * something remaining) is applied when the walk reaches a row; no row is reached twice.
     */
    method ConsumeFifoCostLayers(k: Key, quantity: int) returns (c: Consumption)
      modifies `layers
      ensures layers == Drain(old(layers), k, quantity)
      ensures c.requested == quantity && c.consumed == quantity - c.unmatched
      ensures c.unmatched == Shortfall(old(layers), k, quantity)
      ensures c.totalCost == Charge(old(layers), k, quantity)
      ensures BreakdownAgrees(c, old(layers), k)
    {
      ghost var before := layers;
      var remainingToConsume := quantity;
      var layersConsumed: seq<Consumed> := [];
      var totalCost := 0;
      var i := 0;
      while i < |layers| && remainingToConsume > 0
        invariant DrainedSoFar(before, k, quantity, layers, i, remainingToConsume, totalCost, layersConsumed)
      {
        var layer := layers[i];
        if layer.key == k && layer.remaining > 0 {
          var takeFromLayer := Min(layer.remaining, remainingToConsume);
          var consumed := Consumed(i, takeFromLayer, layer.unitCost);
          PassTakes(before, k, quantity, layers, i, remainingToConsume, totalCost, layersConsumed, consumed);
          layers := layers[i := After(layer, takeFromLayer)];
          layersConsumed := layersConsumed + [consumed];
          totalCost := totalCost + Worth(takeFromLayer, layer.unitCost);
          remainingToConsume := remainingToConsume - takeFromLayer;
        } else {
          PassSkips(before, k, quantity, layers, i, remainingToConsume, totalCost, layersConsumed);
        }
        i := i + 1;
      }
      ProgressDone(before, k, quantity, layers, i, totalCost, remainingToConsume);
      return Consumption(quantity, quantity - remainingToConsume, remainingToConsume, totalCost, layersConsumed);
    }

    /** The stock part of receiving one purchase-order line. */
    method ReceiveLine(k: Key, q: int, unitCost: int)
      modifies this
      ensures View() == Receive(old(View()), k, q, unitCost)
    {
      movements := movements + [Movement(k, MovementType.Receipt, StoredQuantity(q), true)];
      layers := layers + [Layer(k, StoredQuantity(q), StoredQuantity(q), unitCost)];
      if k in levels {
        levels := levels[k := StoredQuantity(levels[k] + q)];
      } else {
        levels := levels[k := StoredQuantity(q)];
      }
    }
  }
}
