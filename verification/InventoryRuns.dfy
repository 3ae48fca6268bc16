/**
 * What receipts and movements keep over every interleaving: how levels, movements, cost layers and
 * charged costs are tied, and where the four decimals of the columns loosen the tie.
 */
module InventoryRuns {
  import opened Prelude
  import opened Inventory

  datatype Op =
    | MoveOp(key: Key, kind: MovementType, quantity: int)
    | ReceiveOp(key: Key, quantity: int, unitCost: int)

  ghost function Apply(b: Books, op: Op): Books {
    match op
    case MoveOp(k, kind, q) => Move(b, k, kind, q)
    case ReceiveOp(k, q, c) => Receive(b, k, q, c)
  }

  ghost function Run(ops: seq<Op>): Books {
    if |ops| == 0 then Books(map[], [], [], []) else Apply(Run(ops[..|ops| - 1]), ops[|ops| - 1])
  }

  // ---------------------------------------------------------------------------------------
  // The laws

  ghost function MovedOn(k: Key): Movement -> int {
    (m: Movement) =>
      if m.key != k then 0
      else
        match m.kind
        case Issue => -m.quantity
        case Transfer => -m.quantity
        case Receipt => m.quantity
        case Adjustment => m.quantity
  }

  /** Inbound quantity that came without a cost layer. */
  ghost function UnlayeredOn(k: Key): Movement -> int {
    (m: Movement) =>
      if m.key != k || m.layered then 0
      else
        match m.kind
        case Issue => 0
        case Transfer => 0
        case Receipt => m.quantity
        case Adjustment => m.quantity
  }

  ghost function CreatedOn(k: Key): Layer -> int {
    (l: Layer) => if l.key == k then Worth(l.quantity, l.unitCost) else 0
  }

  ghost function RemainingOn(k: Key): Layer -> int {
    (l: Layer) => if l.key == k then l.remaining else 0
  }

  ghost function RemainingValueOn(k: Key): Layer -> int {
    (l: Layer) => if l.key == k then Worth(l.remaining, l.unitCost) else 0
  }

  ghost function CostOn(k: Key): Issuance -> int {
    (i: Issuance) => if i.key == k then i.result.totalCost else 0
  }

  ghost function UnmatchedOn(k: Key): Issuance -> int {
    (i: Issuance) => if i.key == k then i.result.unmatched else 0
  }

  /** The level is the signed sum of the movements. */
  ghost predicate LevelLaw(b: Books, k: Key) {
    LevelOf(b.levels, k) == SumBy(b.movements, MovedOn(k))
  }

  /** Value received is cost issued plus the value still in the layers. */
  ghost predicate ValueLaw(b: Books, k: Key) {
    SumBy(b.layers, CreatedOn(k)) == SumBy(b.issuances, CostOn(k)) + SumBy(b.layers, RemainingValueOn(k))
  }

  /** Stock without a layer is unlayered inbound less the issues that found no layer. */
  ghost predicate ShortfallLaw(b: Books, k: Key) {
    LevelOf(b.levels, k) - SumBy(b.layers, RemainingOn(k))
    == SumBy(b.movements, UnlayeredOn(k)) - SumBy(b.issuances, UnmatchedOn(k))
  }

  ghost predicate Conserved(b: Books, k: Key) {
    LevelLaw(b, k) && ValueLaw(b, k) && ShortfallLaw(b, k)
  }

  // ---------------------------------------------------------------------------------------
  // What rounding does to layers

  /** What the row in which an unclean issue of `q` ends gains when it is stored. */
  function Nudge(q: int): int {
    var rest := q % QUANTITY_STEP;
    if 2 * rest <= QUANTITY_STEP then rest else rest - QUANTITY_STEP
  }

  /** All rows together. */
  ghost function Gain(ls: seq<Layer>, k: Key, q: int): int {
    if Clean(ls, k, q) then 0 else Nudge(q)
  }

  /** The unit cost of the row that cannot give up its share exactly, if there is one. */
  function SplitCost(ls: seq<Layer>, k: Key, q: int): int {
    if |ls| == 0 || q <= 0 then 0
    else
      var take := TakeFrom(ls[0], k, q);
      if take % QUANTITY_STEP != 0 then ls[0].unitCost else SplitCost(ls[1..], k, q - take)
  }

  /** Only a row that is split by an unclean issue gains anything. */
  lemma RowGain(l: Layer, k: Key, q: int)
    requires q > 0
    ensures var take := TakeFrom(l, k, q);
            && (take % QUANTITY_STEP == 0 ==> After(l, take).remaining == l.remaining - take)
            && (take % QUANTITY_STEP != 0 ==>
                  l.key == k && take == q && After(l, take).remaining == l.remaining - take + Nudge(q))
  {
    AfterIsExact(l, TakeFrom(l, k, q));
    if TakeFrom(l, k, q) % QUANTITY_STEP != 0 {
      RoundsUpFrom(l.remaining, q);
    }
  }

  lemma RoundsUpFrom(stock: Quantity, q: int)
    requires q < stock
    ensures StoredQuantity(stock - q) == stock - q + Nudge(q)
  {
  }

  lemma NudgeIgnoresSteps(q: int, take: Quantity)
    ensures Nudge(q - take) == Nudge(q)
  {
  }

  /** How much one row of a table gains. */
  ghost function RowGains(l: Layer, k: Key, q: int): int {
    if TakeFrom(l, k, q) % QUANTITY_STEP == 0 then 0 else Nudge(q)
  }

  /** The gain of a table is that of its first row and of the rows behind it. */
  lemma GainSplits(ls: seq<Layer>, k: Key, q: int)
    requires |ls| > 0 && q > 0
    ensures Gain(ls, k, q) == RowGains(ls[0], k, q) + Gain(ls[1..], k, q - TakeFrom(ls[0], k, q))
    ensures RowGains(ls[0], k, q) == 0 || Gain(ls[1..], k, q - TakeFrom(ls[0], k, q)) == 0
  {
    var take := TakeFrom(ls[0], k, q);
    CleanStep(ls, k, q);
    RowGain(ls[0], k, q);
    if take % QUANTITY_STEP == 0 {
      NudgeIgnoresSteps(q, take);
    }
  }

  lemma {:induction false} DrainKeepsCreated(ls: seq<Layer>, k: Key, q: int, other: Key)
    ensures SumBy(Drain(ls, k, q), CreatedOn(other)) == SumBy(ls, CreatedOn(other))
  {
    if |ls| > 0 && q > 0 {
      var take := TakeFrom(ls[0], k, q);
      DrainKeepsCreated(ls[1..], k, q - take, other);
      assert Drain(ls, k, q)[1..] == Drain(ls[1..], k, q - take);
      SumByHead(ls, CreatedOn(other));
      SumByHead(Drain(ls, k, q), CreatedOn(other));
    }
  }

  lemma RowLosesUnits(l: Layer, k: Key, q: int, other: Key)
    requires q > 0
    ensures var take := TakeFrom(l, k, q);
            RemainingOn(other)(After(l, take)) ==
            RemainingOn(other)(l) - if other == k then take - RowGains(l, k, q) else 0
  {
    RowGain(l, k, q);
  }

  lemma {:induction false} DrainLowersRemaining(ls: seq<Layer>, k: Key, q: int, other: Key)
    ensures SumBy(Drain(ls, k, q), RemainingOn(other)) ==
            SumBy(ls, RemainingOn(other)) - if other == k then q - Shortfall(ls, k, q) - Gain(ls, k, q) else 0
  {
    if |ls| > 0 && q > 0 {
      var l, tail, take := ls[0], ls[1..], TakeFrom(ls[0], k, q);
      assert ls == [l] + tail;
      DrainLowersRemaining(tail, k, q - take, other);
      DrainCons(l, tail, k, q);
      SumByCons(l, tail, RemainingOn(other));
      SumByCons(After(l, take), Drain(tail, k, q - take), RemainingOn(other));
      GainSplits(ls, k, q);
      RowLosesUnits(l, k, q, other);
    }
  }

  /** The value that a table gains. */
  ghost function GainedValue(ls: seq<Layer>, k: Key, q: int): int {
    Worth(Gain(ls, k, q), SplitCost(ls, k, q))
  }

  lemma GainedValueSplits(ls: seq<Layer>, k: Key, q: int)
    requires |ls| > 0 && q > 0
    ensures GainedValue(ls, k, q) ==
            Worth(RowGains(ls[0], k, q), ls[0].unitCost) + GainedValue(ls[1..], k, q - TakeFrom(ls[0], k, q))
  {
    GainSplits(ls, k, q);
    RowGain(ls[0], k, q);
    assert Worth(0, ls[0].unitCost) == 0;
    assert Worth(0, SplitCost(ls[1..], k, q - TakeFrom(ls[0], k, q))) == 0;
  }

  /** The value of a row falls by what is charged for it, except for what it gains. */
  lemma RowLosesValue(l: Layer, k: Key, q: int, other: Key)
    requires q > 0
    ensures var take, c := TakeFrom(l, k, q), l.unitCost;
            RemainingValueOn(other)(After(l, take)) ==
            RemainingValueOn(other)(l) - if other == k then Worth(take, c) - Worth(RowGains(l, k, q), c) else 0
  {
    var take, gain := TakeFrom(l, k, q), RowGains(l, k, q);
    RowGain(l, k, q);
    CostSplits(take, l.remaining - take, l.unitCost);
    CostSplits(l.remaining - take, gain, l.unitCost);
    assert Worth(0, l.unitCost) == 0;
  }

  lemma {:induction false} DrainLowersValue(ls: seq<Layer>, k: Key, q: int, other: Key)
    ensures SumBy(Drain(ls, k, q), RemainingValueOn(other)) ==
            SumBy(ls, RemainingValueOn(other)) - if other == k then Charge(ls, k, q) - GainedValue(ls, k, q) else 0
  {
    if |ls| > 0 && q > 0 {
      var l, tail, take := ls[0], ls[1..], TakeFrom(ls[0], k, q);
      assert ls == [l] + tail;
      DrainLowersValue(tail, k, q - take, other);
      DrainCons(l, tail, k, q);
      SumByCons(l, tail, RemainingValueOn(other));
      SumByCons(After(l, take), Drain(tail, k, q - take), RemainingValueOn(other));
      GainedValueSplits(ls, k, q);
      RowLosesValue(l, k, q, other);
    } else {
      assert Worth(0, SplitCost(ls, k, q)) == 0;
    }
  }

  // ---------------------------------------------------------------------------------------
  // What rounding does to levels

  /** A half step that the level and the movement's own row round in different directions. */
  predicate LevelSlips(level: int, amount: int) {
    2 * (amount % QUANTITY_STEP) == QUANTITY_STEP && if amount > 0 then level + amount < 0 else level + amount > 0
  }

  lemma LevelRoundsIff(level: Quantity, amount: int)
    ensures StoredQuantity(level + amount) == level + StoredQuantity(amount) <==> !LevelSlips(level, amount)
  {
    SameRest(level, amount);
  }

  lemma SameRest(steps: Quantity, q: int)
    ensures (steps + q) % QUANTITY_STEP == q % QUANTITY_STEP
  {
  }

  lemma RoundingIsSymmetric(q: int)
    ensures StoredQuantity(-q) == -StoredQuantity(q)
  {
    var steps, rest := q / QUANTITY_STEP, q % QUANTITY_STEP;
    assert q == QUANTITY_STEP * steps + rest;
    if rest != 0 {
      assert -q == QUANTITY_STEP * (-steps - 1) + (QUANTITY_STEP - rest);
      assert (-q) % QUANTITY_STEP == QUANTITY_STEP - rest;
    }
  }

  /** The level and the layers lose the same when `q` of `available` units are issued. */
  predicate RoundAlike(level: int, available: int, q: int) {
    q % QUANTITY_STEP == 0 || (0 < q < available && !(2 * (q % QUANTITY_STEP) == QUANTITY_STEP && level < q))
  }

  /** What a level loses to rounding, from the part of the issue that is off the grid. */
  lemma LevelRounding(level: Quantity, q: int)
    ensures var rest := q % QUANTITY_STEP;
            StoredQuantity(level - q) - (level - q) ==
            if 2 * rest < QUANTITY_STEP || (2 * rest == QUANTITY_STEP && level >= q) then rest else rest - QUANTITY_STEP
  {
    var rest, steps := q % QUANTITY_STEP, q / QUANTITY_STEP;
    assert q == QUANTITY_STEP * steps + rest;
    if rest != 0 {
      assert level - q == QUANTITY_STEP * (level / QUANTITY_STEP - steps - 1) + (QUANTITY_STEP - rest);
      assert (level - q) % QUANTITY_STEP == QUANTITY_STEP - rest;
    }
  }

  lemma RoundAlikeIff(level: Quantity, available: Quantity, q: int)
    ensures var gain := if q <= 0 || q % QUANTITY_STEP == 0 || q >= available then 0 else Nudge(q);
            StoredQuantity(level - q) - (level - q) == gain <==> RoundAlike(level, available, q)
  {
    LevelRounding(level, q);
  }

  // ---------------------------------------------------------------------------------------
  // One step

  ghost predicate Accepted(b: Books, op: Op) {
    op.MoveOp? ==> op.key in b.levels || Signed(op.kind, op.quantity) >= 0
  }

  function Amount(op: Op): int {
    if op.MoveOp? then Signed(op.kind, op.quantity) else op.quantity
  }

  predicate Issues(op: Op) {
    op.MoveOp? && IsOutbound(op.kind)
  }

  /** The step rounds its movement and its level apart. */
  ghost predicate BreaksLevel(b: Books, op: Op) {
    Accepted(b, op) && LevelSlips(LevelOf(b.levels, op.key), Amount(op))
  }

  /** The step splits a layer that costs something at a point its column cannot hold. */
  ghost predicate BreaksValue(b: Books, op: Op) {
    && Accepted(b, op) && Issues(op)
    && !Clean(b.layers, op.key, op.quantity) && SplitCost(b.layers, op.key, op.quantity) != 0
  }

  /** The step rounds its level and its layers apart. */
  ghost predicate BreaksShortfall(b: Books, op: Op) {
    && Accepted(b, op)
    && if Issues(op) then !RoundAlike(LevelOf(b.levels, op.key), |Units(b.layers, op.key)|, op.quantity)
       else LevelSlips(LevelOf(b.levels, op.key), op.quantity)
  }

  lemma MovementSums(ms: seq<Movement>, m: Movement, k: Key)
    ensures SumBy(ms + [m], MovedOn(k)) == SumBy(ms, MovedOn(k)) + MovedOn(k)(m)
    ensures SumBy(ms + [m], UnlayeredOn(k)) == SumBy(ms, UnlayeredOn(k)) + UnlayeredOn(k)(m)
  {
    SumByAppend(ms, m, MovedOn(k));
    SumByAppend(ms, m, UnlayeredOn(k));
  }

  /** The movement row of an accepted step. */
  function RowOf(op: Op): Movement {
    Movement(op.key, if op.MoveOp? then op.kind else MovementType.Receipt, StoredQuantity(op.quantity), op.ReceiveOp?)
  }

  lemma RowCounts(op: Op, k: Key)
    ensures MovedOn(k)(RowOf(op)) == if k == op.key then StoredQuantity(Amount(op)) else 0
    ensures UnlayeredOn(k)(RowOf(op)) ==
            if k == op.key && op.MoveOp? && !Issues(op) then StoredQuantity(op.quantity) else 0
  {
    RoundingIsSymmetric(op.quantity);
  }

  lemma StepMoves(b: Books, op: Op, k: Key)
    requires Accepted(b, op)
    ensures Apply(b, op).movements == b.movements + [RowOf(op)]
    ensures LevelOf(Apply(b, op).levels, k) ==
            (if k == op.key then StoredQuantity(LevelOf(b.levels, k) + Amount(op)) else LevelOf(b.levels, k))
    ensures SumBy(Apply(b, op).movements, MovedOn(k)) ==
            SumBy(b.movements, MovedOn(k)) + (if k == op.key then StoredQuantity(Amount(op)) else 0)
    ensures SumBy(Apply(b, op).movements, UnlayeredOn(k)) ==
            SumBy(b.movements, UnlayeredOn(k))
            + (if k == op.key && op.MoveOp? && !Issues(op) then StoredQuantity(op.quantity) else 0)
  {
    MovementSums(b.movements, RowOf(op), k);
    RowCounts(op, k);
  }

  /** The level law survives a step exactly when level and movement are rounded alike. */
  lemma LevelLawKeptIff(b: Books, op: Op)
    requires LevelLaw(b, op.key)
    ensures LevelLaw(Apply(b, op), op.key) <==> !BreaksLevel(b, op)
  {
    if Accepted(b, op) {
      StepMoves(b, op, op.key);
      LevelRoundsIff(LevelOf(b.levels, op.key), Amount(op));
    }
  }

  /** What a step does to layers and issuances. */
  lemma StepLayers(b: Books, op: Op, k: Key)
    requires Accepted(b, op)
    ensures var after, q := Apply(b, op), op.quantity;
            var gain, short := Gain(b.layers, op.key, q), Shortfall(b.layers, op.key, q);
            var own := k == op.key;
            && SumBy(after.layers, RemainingOn(k)) == SumBy(b.layers, RemainingOn(k))
               + (if own && op.ReceiveOp? then StoredQuantity(q) else if own && Issues(op) then short + gain - q else 0)
            && SumBy(after.issuances, UnmatchedOn(k)) ==
               SumBy(b.issuances, UnmatchedOn(k)) + (if own && Issues(op) then short else 0)
  {
    var after := Apply(b, op);
    if op.ReceiveOp? {
      SumByAppend(b.layers, after.layers[|b.layers|], RemainingOn(k));
    } else if Issues(op) {
      DrainLowersRemaining(b.layers, op.key, op.quantity, k);
      SumByAppend(b.issuances, after.issuances[|b.issuances|], UnmatchedOn(k));
    }
  }

  lemma StepValues(b: Books, op: Op, k: Key)
    requires Accepted(b, op)
    ensures var after, q := Apply(b, op), op.quantity;
            var error := GainedValue(b.layers, op.key, q);
            && SumBy(after.layers, CreatedOn(k)) - SumBy(b.layers, CreatedOn(k))
               - (SumBy(after.layers, RemainingValueOn(k)) - SumBy(b.layers, RemainingValueOn(k)))
               - (SumBy(after.issuances, CostOn(k)) - SumBy(b.issuances, CostOn(k)))
               == if k == op.key && Issues(op) then -error else 0
  {
    var after := Apply(b, op);
    if op.ReceiveOp? {
      SumByAppend(b.layers, after.layers[|b.layers|], CreatedOn(k));
      SumByAppend(b.layers, after.layers[|b.layers|], RemainingValueOn(k));
    } else if Issues(op) {
      DrainKeepsCreated(b.layers, op.key, op.quantity, k);
      DrainLowersValue(b.layers, op.key, op.quantity, k);
      SumByAppend(b.issuances, after.issuances[|b.issuances|], CostOn(k));
    }
  }

  lemma ProductIsZeroIff(a: int, c: int)
    ensures Worth(a, c) == 0 <==> a == 0 || c == 0
  {
  }

  lemma GainIsZeroIff(ls: seq<Layer>, k: Key, q: int)
    ensures Gain(ls, k, q) == 0 <==> Clean(ls, k, q)
  {
  }

  /** The value law survives a step exactly when it splits no layer of value off its column's grid. */
  lemma ValueLawKeptIff(b: Books, op: Op)
    requires ValueLaw(b, op.key)
    ensures ValueLaw(Apply(b, op), op.key) <==> !BreaksValue(b, op)
  {
    if Accepted(b, op) {
      StepValues(b, op, op.key);
      ProductIsZeroIff(Gain(b.layers, op.key, op.quantity), SplitCost(b.layers, op.key, op.quantity));
      GainIsZeroIff(b.layers, op.key, op.quantity);
    }
  }

  lemma ShortfallAfterIssue(b: Books, op: Op)
    requires ShortfallLaw(b, op.key) && Accepted(b, op) && Issues(op)
    ensures var level, q := LevelOf(b.levels, op.key), op.quantity;
            ShortfallLaw(Apply(b, op), op.key) <==>
            StoredQuantity(level - q) - (level - q) == Gain(b.layers, op.key, q)
  {
    StepMoves(b, op, op.key);
    StepLayers(b, op, op.key);
  }

  lemma ShortfallLawOfIssue(b: Books, op: Op)
    requires ShortfallLaw(b, op.key) && Accepted(b, op) && Issues(op)
    ensures ShortfallLaw(Apply(b, op), op.key) <==> !BreaksShortfall(b, op)
  {
    ShortfallAfterIssue(b, op);
    UnitsAreStored(b.layers, op.key);
    RoundAlikeIff(LevelOf(b.levels, op.key), |Units(b.layers, op.key)|, op.quantity);
  }

  lemma ShortfallLawOfInbound(b: Books, op: Op)
    requires ShortfallLaw(b, op.key) && Accepted(b, op) && !Issues(op)
    ensures ShortfallLaw(Apply(b, op), op.key) <==> !BreaksShortfall(b, op)
  {
    StepMoves(b, op, op.key);
    StepLayers(b, op, op.key);
    LevelRoundsIff(LevelOf(b.levels, op.key), op.quantity);
  }

  /** The shortfall law survives a step exactly when level and layers are rounded alike. */
  lemma ShortfallLawKeptIff(b: Books, op: Op)
    requires ShortfallLaw(b, op.key)
    ensures ShortfallLaw(Apply(b, op), op.key) <==> !BreaksShortfall(b, op)
  {
    if Accepted(b, op) {
      if Issues(op) {
        ShortfallLawOfIssue(b, op);
      } else {
        ShortfallLawOfInbound(b, op);
      }
    }
  }

  /** The rows of other products and warehouses are out of reach. */
  lemma OtherKeysConserved(b: Books, op: Op, k: Key)
    requires Conserved(b, k) && k != op.key
    ensures Conserved(Apply(b, op), k)
  {
    if Accepted(b, op) {
      StepMoves(b, op, k);
      StepLayers(b, op, k);
      StepValues(b, op, k);
    }
  }

  /** The step rounds nothing apart. */
  ghost predicate KeepsLaws(b: Books, op: Op) {
    !BreaksLevel(b, op) && !BreaksValue(b, op) && !BreaksShortfall(b, op)
  }

  lemma StepConservesIff(b: Books, op: Op)
    requires Conserved(b, op.key)
    ensures Conserved(Apply(b, op), op.key) <==> KeepsLaws(b, op)
  {
    LevelLawKeptIff(b, op);
    ValueLawKeptIff(b, op);
    ShortfallLawKeptIff(b, op);
  }

  /** In particular quantities with at most four decimals always keep the laws. */
  lemma FourDecimalsKeepLaws(b: Books, op: Op)
    requires op.quantity % QUANTITY_STEP == 0
    ensures KeepsLaws(b, op)
  {
    RoundingIsSymmetric(op.quantity);
  }

  /** So do receipts on levels that are not below zero. */
  lemma ReceiptsKeepLaws(b: Books, op: Op)
    requires op.ReceiveOp? && op.quantity > 0 && LevelOf(b.levels, op.key) >= 0
    ensures KeepsLaws(b, op)
  {
  }

  lemma ReceiptsKeepLevels(b: Books, key: Key, q: int, unitCost: int, k: Key)
    requires q > 0 && LevelOf(b.levels, k) >= 0
    ensures LevelOf(Receive(b, key, q, unitCost).levels, k) >= 0
  {
    StoredQuantityIsNear(LevelOf(b.levels, k) + q);
  }

  // ---------------------------------------------------------------------------------------
  // Runs

  /** The laws hold for a product and warehouse after every run whose steps on it keep them. */
  lemma {:induction false} RunConserves(ops: seq<Op>, k: Key)
    requires forall i :: 0 <= i < |ops| && ops[i].key == k ==> KeepsLaws(Run(ops[..i]), ops[i])
    ensures Conserved(Run(ops), k)
  {
    if |ops| > 0 {
      var front, op := ops[..|ops| - 1], ops[|ops| - 1];
      assert forall i :: 0 <= i < |front| ==> front[..i] == ops[..i];
      RunConserves(front, k);
      if op.key == k {
        StepConservesIff(Run(front), op);
      } else {
        OtherKeysConserved(Run(front), op, k);
      }
    }
  }

  /** So they hold for all of them when no quantity has more than four decimals. */
  lemma FourDecimalRunConserves(ops: seq<Op>, k: Key)
    requires forall i :: 0 <= i < |ops| ==> ops[i].quantity % QUANTITY_STEP == 0
    ensures Conserved(Run(ops), k)
  {
    forall i | 0 <= i < |ops|
      ensures KeepsLaws(Run(ops[..i]), ops[i])
    {
      FourDecimalsKeepLaws(Run(ops[..i]), ops[i]);
    }
    RunConserves(ops, k);
  }

  lemma TwoSteps(first: Op, second: Op)
    ensures Run([first, second]) == Apply(Apply(Books(map[], [], [], []), first), second)
  {
    var ops := [first, second];
    assert ops[..1] == [first];
    assert [first][..0] == [];
    assert Run([first]) == Apply(Run([]), first);
  }

  /** An issue of 0.00005 from a level of 1.0000: the level stays, the movement row says 0.0001. */
  lemma HalfStepBreaksLevel(k: Key, unitCost: int)
    ensures var b := Run([ReceiveOp(k, 1_000_000, unitCost), MoveOp(k, Issue, 50)]);
            && LevelOf(b.levels, k) == 1_000_000
            && SumBy(b.movements, MovedOn(k)) == 999_900
  {
    var receive, issue := ReceiveOp(k, 1_000_000, unitCost), MoveOp(k, Issue, 50);
    TwoSteps(receive, issue);
    var start := Books(map[], [], [], []);
    StepMoves(start, receive, k);
    StepMoves(Apply(start, receive), issue, k);
  }

  // ---------------------------------------------------------------------------------------
  // Where the level may fall below zero

  ghost predicate NoNegativeLevel(b: Books) {
    forall k :: k in b.levels ==> b.levels[k] >= 0
  }

  /** The header comment promises that no movement drops stock below zero; 8.0000 out of 5.0000 does. */
  lemma NegativeLevelIsReachable(k: Key)
    ensures var ops := [ReceiveOp(k, 5_000_000, 1), MoveOp(k, Issue, 8_000_000)];
            k in Run(ops).levels && Run(ops).levels[k] == -3_000_000
  {
    TwoSteps(ReceiveOp(k, 5_000_000, 1), MoveOp(k, Issue, 8_000_000));
  }

  lemma StoredIsNegativeIff(q: int)
    ensures StoredQuantity(q) >= 0 <==> 2 * q > -QUANTITY_STEP
  {
  }

  /** No step reaches the rows of other products and warehouses. */
  lemma OtherLevelsStay(b: Books, op: Op)
    requires NoNegativeLevel(b)
    ensures var levels := Apply(b, op).levels;
            NoNegativeLevel(Apply(b, op)) <==> op.key !in levels || levels[op.key] >= 0
  {
    var after := Apply(b, op);
    forall k | k in after.levels && k != op.key
      ensures after.levels[k] >= 0
    {
      assert k in b.levels && after.levels[k] == b.levels[k];
    }
  }

  lemma LevelAfter(b: Books, op: Op)
    ensures op.key in Apply(b, op).levels <==> op.key in b.levels || Accepted(b, op)
    ensures Accepted(b, op) ==>
              Apply(b, op).levels[op.key] == StoredQuantity(LevelOf(b.levels, op.key) + Amount(op))
    ensures !Accepted(b, op) ==> Apply(b, op) == b
  {
  }

  /** A step keeps levels non-negative exactly when it does not overdraw an existing row by half a step. */
  lemma LevelsStayNonNegativeIff(b: Books, op: Op)
    requires NoNegativeLevel(b)
    requires op.ReceiveOp? ==> op.quantity >= 0
    ensures NoNegativeLevel(Apply(b, op)) <==>
            !(op.MoveOp? && op.key in b.levels && 2 * (b.levels[op.key] + Amount(op)) <= -QUANTITY_STEP)
  {
    OtherLevelsStay(b, op);
    LevelAfter(b, op);
    StoredIsNegativeIff(LevelOf(b.levels, op.key) + Amount(op));
  }
}
