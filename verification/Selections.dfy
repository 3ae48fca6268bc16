/** Rows chosen from a table by position: what the filters of the source keep, and in which order. */
module Selections {
  import opened Prelude

  /** Strictly increasing positions below `n`. */
  ghost predicate IsSelection(keep: seq<nat>, n: nat) {
    && (forall i :: 0 <= i < |keep| ==> keep[i] < n)
    && (forall i, j :: 0 <= i < j < |keep| ==> keep[i] < keep[j])
  }

  function Selected<T>(rows: seq<T>, keep: seq<nat>): seq<T>
    requires forall i :: 0 <= i < |keep| ==> keep[i] < |rows|
  {
    seq(|keep|, i requires 0 <= i < |keep| => rows[keep[i]])
  }

  /** `keep` lists all positions of rows with the property, in order. */
  ghost predicate Picks<T(!new)>(rows: seq<T>, p: T -> bool, keep: seq<nat>) {
    IsSelection(keep, |rows|) && forall k: nat :: k in keep <==> k < |rows| && p(rows[k])
  }

  /** `kept` is the rows with the property, each as often and in the order in which the table has them. */
  ghost predicate IsFiltered<T(!new)>(rows: seq<T>, p: T -> bool, kept: seq<T>) {
    exists keep :: Picks(rows, p, keep) && kept == Selected(rows, keep)
  }

  lemma NothingIsFiltered<T(!new)>(p: T -> bool)
    ensures IsFiltered([], p, [])
  {
    var none: seq<nat> := [];
    var rows: seq<T> := [];
    assert Picks(rows, p, none) && Selected(rows, none) == rows;
  }

  lemma PicksAppend<T(!new)>(rows: seq<T>, p: T -> bool, keep: seq<nat>, x: T)
    requires Picks(rows, p, keep)
    ensures Picks(rows + [x], p, if p(x) then keep + [|rows|] else keep)
  {
    var more: seq<nat> := if p(x) then keep + [|rows|] else keep;
    forall k: nat
      ensures k in more <==> k < |rows| + 1 && p((rows + [x])[k])
    {
      assert k in more <==> k in keep || (p(x) && k == |rows|);
    }
  }

  lemma FilteredAppend<T(!new)>(rows: seq<T>, p: T -> bool, kept: seq<T>, x: T)
    requires IsFiltered(rows, p, kept)
    ensures IsFiltered(rows + [x], p, if p(x) then kept + [x] else kept)
  {
    var keep: seq<nat> :| Picks(rows, p, keep) && kept == Selected(rows, keep);
    PicksAppend(rows, p, keep, x);
    var more: seq<nat> := if p(x) then keep + [|rows|] else keep;
    assert Selected(rows + [x], more) == if p(x) then kept + [x] else kept;
  }

  lemma GreatestIsLast(keep: seq<nat>, n: nat, i: nat)
    requires IsSelection(keep, n + 1) && i < |keep|
    ensures keep[i] == n ==> i == |keep| - 1
  {
    LastIsGreatest(keep, n + 1);
  }

  lemma LastIsGreatest(keep: seq<nat>, n: nat)
    requires IsSelection(keep, n) && keep != []
    ensures keep[|keep| - 1] < n && forall i :: 0 <= i < |keep| - 1 ==> keep[i] < keep[|keep| - 1]
  {
  }

  lemma LastIsPicked<T(!new)>(rows: seq<T>, p: T -> bool, keep: seq<nat>)
    requires |rows| > 0 && Picks(rows, p, keep) && p(rows[|rows| - 1])
    ensures keep != [] && keep[|keep| - 1] == |rows| - 1
  {
    var n := |rows| - 1;
    assert n in keep;
    var i :| 0 <= i < |keep| && keep[i] == n;
    GreatestIsLast(keep, n, i);
  }

  lemma FrontWithPicked<T(!new)>(rows: seq<T>, p: T -> bool, keep: seq<nat>)
    requires |rows| > 0 && Picks(rows, p, keep) && keep != [] && keep[|keep| - 1] == |rows| - 1
    ensures Picks(rows[..|rows| - 1], p, keep[..|keep| - 1])
  {
    var n, m := |rows| - 1, |keep| - 1;
    LastIsGreatest(keep, |rows|);
    var front := keep[..m];
    assert keep == front + [n];
    forall k: nat
      ensures k in front <==> k < n && p(rows[..n][k])
    {
      assert k in keep <==> k in front || k == n;
    }
  }

  lemma FrontWithoutPicked<T(!new)>(rows: seq<T>, p: T -> bool, keep: seq<nat>)
    requires |rows| > 0 && Picks(rows, p, keep) && !p(rows[|rows| - 1])
    ensures Picks(rows[..|rows| - 1], p, keep)
  {
    var n := |rows| - 1;
    assert n !in keep;
    forall i | 0 <= i < |keep|
      ensures keep[i] < n
    {
      assert keep[i] in keep;
    }
  }

  /** Without its last row, a table loses that row's position and no other. */
  lemma PicksFront<T(!new)>(rows: seq<T>, p: T -> bool, keep: seq<nat>)
    requires |rows| > 0 && Picks(rows, p, keep)
    ensures var n := |rows| - 1;
            if p(rows[n]) then
              keep != [] && keep[|keep| - 1] == n && Picks(rows[..n], p, keep[..|keep| - 1])
            else Picks(rows[..n], p, keep)
  {
    if p(rows[|rows| - 1]) {
      LastIsPicked(rows, p, keep);
      FrontWithPicked(rows, p, keep);
    } else {
      FrontWithoutPicked(rows, p, keep);
    }
  }

  /** There is only one filtered table. */
  lemma {:induction false} PicksAreUnique<T(!new)>(rows: seq<T>, p: T -> bool, keep: seq<nat>, other: seq<nat>)
    requires Picks(rows, p, keep) && Picks(rows, p, other)
    ensures keep == other
    decreases |rows|
  {
    if |rows| > 0 {
      var n := |rows| - 1;
      PicksFront(rows, p, keep);
      PicksFront(rows, p, other);
      if p(rows[n]) {
        PicksAreUnique(rows[..n], p, keep[..|keep| - 1], other[..|other| - 1]);
        assert keep == keep[..|keep| - 1] + [n] && other == other[..|other| - 1] + [n];
      } else {
        PicksAreUnique(rows[..n], p, keep, other);
      }
    }
  }

  lemma FilteredIsUnique<T(!new)>(rows: seq<T>, p: T -> bool, kept: seq<T>, other: seq<T>)
    requires IsFiltered(rows, p, kept) && IsFiltered(rows, p, other)
    ensures kept == other
  {
    var keep: seq<nat> :| Picks(rows, p, keep) && kept == Selected(rows, keep);
    var keep': seq<nat> :| Picks(rows, p, keep') && other == Selected(rows, keep');
    PicksAreUnique(rows, p, keep, keep');
  }

  /** A row is kept exactly when it has the property. */
  lemma FilteredMember<T(!new)>(rows: seq<T>, p: T -> bool, kept: seq<T>, x: T)
    requires IsFiltered(rows, p, kept)
    ensures x in kept <==> x in rows && p(x)
  {
    var keep: seq<nat> :| Picks(rows, p, keep) && kept == Selected(rows, keep);
    if x in kept {
      var i :| 0 <= i < |kept| && kept[i] == x;
      assert keep[i] in keep;
    }
    if x in rows && p(x) {
      var k: nat :| k < |rows| && rows[k] == x;
      PickedIsKept(rows, p, keep, k);
    }
  }

  lemma PickedIsKept<T(!new)>(rows: seq<T>, p: T -> bool, keep: seq<nat>, k: nat)
    requires Picks(rows, p, keep) && k < |rows| && p(rows[k])
    ensures rows[k] in Selected(rows, keep)
  {
    assert k in keep;
    var i :| 0 <= i < |keep| && keep[i] == k;
    assert Selected(rows, keep)[i] == rows[k];
  }

  lemma OneMoreCounts<T(!new)>(rows: seq<T>, last: T, x: T)
    ensures multiset(rows + [last])[x] == multiset(rows)[x] + if x == last then 1 else 0
  {
  }

  lemma SelectedFront<T(!new)>(rows: seq<T>, keep: seq<nat>)
    requires |rows| > 0 && IsSelection(keep, |rows|)
    ensures var n := |rows| - 1;
            if keep != [] && keep[|keep| - 1] == n then
              && IsSelection(keep[..|keep| - 1], n)
              && Selected(rows, keep) == Selected(rows[..n], keep[..|keep| - 1]) + [rows[n]]
            else IsSelection(keep, n) && Selected(rows, keep) == Selected(rows[..n], keep)
  {
    if keep != [] {
      LastIsGreatest(keep, |rows|);
    }
  }

  lemma {:induction false} PickedCounts<T(!new)>(rows: seq<T>, p: T -> bool, keep: seq<nat>, x: T)
    requires Picks(rows, p, keep)
    ensures multiset(Selected(rows, keep))[x] == if p(x) then multiset(rows)[x] else 0
    decreases |rows|
  {
    if |rows| > 0 {
      var n := |rows| - 1;
      assert rows == rows[..n] + [rows[n]];
      OneMoreCounts(rows[..n], rows[n], x);
      PicksFront(rows, p, keep);
      SelectedFront(rows, keep);
      if p(rows[n]) {
        PickedCounts(rows[..n], p, keep[..|keep| - 1], x);
        OneMoreCounts(Selected(rows[..n], keep[..|keep| - 1]), rows[n], x);
      } else {
        assert keep != [] ==> keep[|keep| - 1] in keep;
        PickedCounts(rows[..n], p, keep, x);
      }
    }
  }

  /** And as often as it was there. */
  lemma FilteredCounts<T(!new)>(rows: seq<T>, p: T -> bool, kept: seq<T>, x: T)
    requires IsFiltered(rows, p, kept)
    ensures multiset(kept)[x] == if p(x) then multiset(rows)[x] else 0
  {
    var keep: seq<nat> :| Picks(rows, p, keep) && kept == Selected(rows, keep);
    PickedCounts(rows, p, keep, x);
  }

  /** Filtering a table that grew by several rows. */
  lemma {:induction false} FilteredConcat<T(!new)>(
    rows: seq<T>, more: seq<T>, p: T -> bool, kept: seq<T>, kept': seq<T>)
    requires IsFiltered(rows, p, kept) && IsFiltered(more, p, kept')
    ensures IsFiltered(rows + more, p, kept + kept')
    decreases |more|
  {
    if |more| == 0 {
      NothingIsFiltered(p);
      FilteredIsUnique(more, p, kept', []);
      assert rows + more == rows && kept + kept' == kept;
    } else {
      var n := |more| - 1;
      var keep: seq<nat> :| Picks(more, p, keep) && kept' == Selected(more, keep);
      PicksFront(more, p, keep);
      SelectedFront(more, keep);
      var last := more[n];
      assert rows + more == (rows + more[..n]) + [last];
      if p(last) {
        var front := Selected(more[..n], keep[..|keep| - 1]);
        FilteredConcat(rows, more[..n], p, kept, front);
        FilteredAppend(rows + more[..n], p, kept + front, last);
        assert kept + kept' == (kept + front) + [last];
      } else {
        assert keep != [] ==> keep[|keep| - 1] in keep;
        FilteredConcat(rows, more[..n], p, kept, kept');
        FilteredAppend(rows + more[..n], p, kept + kept', last);
      }
    }
  }

  lemma {:induction false} AllAreFiltered<T(!new)>(rows: seq<T>, p: T -> bool)
    requires forall x :: x in rows ==> p(x)
    ensures IsFiltered(rows, p, rows)
  {
    if |rows| == 0 {
      NothingIsFiltered(p);
    } else {
      var n := |rows| - 1;
      assert rows == rows[..n] + [rows[n]];
      AllAreFiltered(rows[..n], p);
      FilteredAppend(rows[..n], p, rows[..n], rows[n]);
    }
  }

  lemma {:induction false} NoneAreFiltered<T(!new)>(rows: seq<T>, p: T -> bool)
    requires forall x :: x in rows ==> !p(x)
    ensures IsFiltered(rows, p, [])
  {
    if |rows| == 0 {
      NothingIsFiltered(p);
    } else {
      var n := |rows| - 1;
      assert rows == rows[..n] + [rows[n]];
      NoneAreFiltered(rows[..n], p);
      FilteredAppend(rows[..n], p, [], rows[n]);
    }
  }
}
