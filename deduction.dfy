/**
 * `deductCredits`: an all-or-nothing, oldest-first deduction over the active
 * purchases of one account.
 *
 * The order in which purchases are drained is the active purchases sorted by
 * purchase date, ties kept in history order (a stable sort). `Consume` is the
 * loop over that order; `DeductHistory` is the whole operation.
 */
module Deduction {
  import opened Wrappers
  import opened Ledger

  function Min(a: nat, b: nat): (m: nat)
    ensures m <= a && m <= b && (m == a || m == b)
  {
    if a < b then a else b
  }

  predicate InBounds(h: seq<PlanPurchase>, order: seq<nat>) {
    forall k :: 0 <= k < |order| ==> order[k] < |h|
  }

  predicate Distinct(s: seq<nat>) {
    forall k, l :: 0 <= k < l < |s| ==> s[k] != s[l]
  }

  predicate SortedByDate(h: seq<PlanPurchase>, s: seq<nat>)
    requires InBounds(h, s)
  {
    forall k, l :: 0 <= k < l < |s| ==> h[s[k]].purchaseDate <= h[s[l]].purchaseDate
  }

  /** The indices `i0 <= i < |h|` of active purchases, in history order (the `filter` step). */
  function ActiveIndicesFrom(h: seq<PlanPurchase>, now: int, i0: nat): (r: seq<nat>)
    requires i0 <= |h|
    ensures forall k :: 0 <= k < |r| ==> i0 <= r[k] < |h| && IsActive(h[r[k]], now)
    ensures forall k, l :: 0 <= k < l < |r| ==> r[k] < r[l]
    ensures forall i :: i0 <= i < |h| && IsActive(h[i], now) ==> i in r
    decreases |h| - i0
  {
    if i0 == |h| then []
    else
      var rest := ActiveIndicesFrom(h, now, i0 + 1);
      if IsActive(h[i0], now) then
        var r := [i0] + rest;
        assert forall k :: 1 <= k < |r| ==> r[k] == rest[k - 1];
        r
      else rest
  }

  /** Insert `x` before the first element not older than it: the step of a stable insertion sort. */
  function InsertByDate(h: seq<PlanPurchase>, x: nat, s: seq<nat>): (r: seq<nat>)
    requires x < |h| && InBounds(h, s)
    ensures multiset(r) == multiset(s) + multiset{x}
    ensures forall y :: y in r <==> y == x || y in s
    ensures InBounds(h, r)
  {
    if s == [] then [x]
    else if h[x].purchaseDate <= h[s[0]].purchaseDate then [x] + s
    else
      assert s == [s[0]] + s[1..];
      [s[0]] + InsertByDate(h, x, s[1..])
  }

  lemma {:induction false} InsertKeepsSorted(h: seq<PlanPurchase>, x: nat, s: seq<nat>)
    requires x < |h| && InBounds(h, s) && SortedByDate(h, s)
    ensures SortedByDate(h, InsertByDate(h, x, s))
  {
    var r := InsertByDate(h, x, s);
    if s != [] && h[x].purchaseDate > h[s[0]].purchaseDate {
      var rest := InsertByDate(h, x, s[1..]);
      assert r == [s[0]] + rest;
      InsertKeepsSorted(h, x, s[1..]);
      forall k | 0 <= k < |rest| ensures h[s[0]].purchaseDate <= h[rest[k]].purchaseDate {
        assert rest[k] in rest;
        if rest[k] != x {
          var j :| 0 <= j < |s[1..]| && s[1..][j] == rest[k];
          assert s[1..][j] == s[j + 1];
        }
      }
    }
  }

  lemma {:induction false} InsertKeepsDistinct(h: seq<PlanPurchase>, x: nat, s: seq<nat>)
    requires x < |h| && InBounds(h, s) && Distinct(s) && x !in s
    ensures Distinct(InsertByDate(h, x, s))
  {
    var r := InsertByDate(h, x, s);
    if s != [] && h[x].purchaseDate > h[s[0]].purchaseDate {
      var rest := InsertByDate(h, x, s[1..]);
      assert r == [s[0]] + rest;
      assert Distinct(s[1..]) by {
        forall k, l | 0 <= k < l < |s| - 1 ensures s[1..][k] != s[1..][l] {
          assert s[1..][k] == s[k + 1] && s[1..][l] == s[l + 1];
        }
      }
      assert x !in s[1..];
      InsertKeepsDistinct(h, x, s[1..]);
      assert s[0] !in s[1..];
      assert s[0] !in rest;
    }
  }

  /** Stable sort of indices by the purchase date they point at. */
  function SortByDate(h: seq<PlanPurchase>, s: seq<nat>): (r: seq<nat>)
    requires InBounds(h, s)
    ensures multiset(r) == multiset(s)
    ensures forall y :: y in r <==> y in s
    ensures InBounds(h, r) && SortedByDate(h, r)
    ensures Distinct(s) ==> Distinct(r)
  {
    if s == [] then []
    else
      assert s == [s[0]] + s[1..];
      var tail := SortByDate(h, s[1..]);
      InsertKeepsSorted(h, s[0], tail);
      if Distinct(s) then
        assert Distinct(s[1..]) by {
          forall k, l | 0 <= k < l < |s| - 1 ensures s[1..][k] != s[1..][l] {
            assert s[1..][k] == s[k + 1] && s[1..][l] == s[l + 1];
          }
        }
        assert s[0] !in s[1..];
        InsertKeepsDistinct(h, s[0], tail);
        InsertByDate(h, s[0], tail)
      else
        InsertByDate(h, s[0], tail)
  }

  /** Indices pointing at purchases of the same date appear in history (index) order. */
  predicate TiesInHistoryOrder(h: seq<PlanPurchase>, s: seq<nat>)
    requires InBounds(h, s)
  {
    forall k, l :: 0 <= k < l < |s| && h[s[k]].purchaseDate == h[s[l]].purchaseDate ==> s[k] < s[l]
  }

  /** Dropping the head keeps ties in history order. */
  lemma TieOrderOfTail(h: seq<PlanPurchase>, s: seq<nat>)
    requires InBounds(h, s) && TiesInHistoryOrder(h, s) && s != []
    ensures InBounds(h, s[1..]) && TiesInHistoryOrder(h, s[1..])
  {
    forall k, l | 0 <= k < l < |s| - 1 && h[s[1..][k]].purchaseDate == h[s[1..][l]].purchaseDate
      ensures s[1..][k] < s[1..][l]
    {
      assert s[1..][k] == s[k + 1] && s[1..][l] == s[l + 1];
    }
  }

  /** Prepending an index below all others, or of a different date from all others, keeps ties in history order. */
  lemma TieOrderCons(h: seq<PlanPurchase>, y: nat, s: seq<nat>)
    requires y < |h| && InBounds(h, s) && TiesInHistoryOrder(h, s)
    requires forall k :: 0 <= k < |s| && h[y].purchaseDate == h[s[k]].purchaseDate ==> y < s[k]
    ensures InBounds(h, [y] + s) && TiesInHistoryOrder(h, [y] + s)
  {
    var r := [y] + s;
    forall k, l | 0 <= k < l < |r| && h[r[k]].purchaseDate == h[r[l]].purchaseDate
      ensures r[k] < r[l]
    {
      assert r[l] == s[l - 1];
      if k > 0 {
        assert r[k] == s[k - 1];
      }
    }
  }

  lemma {:induction false} InsertKeepsTieOrder(h: seq<PlanPurchase>, x: nat, s: seq<nat>)
    requires x < |h| && InBounds(h, s) && TiesInHistoryOrder(h, s)
    requires forall k :: 0 <= k < |s| ==> x < s[k]
    ensures TiesInHistoryOrder(h, InsertByDate(h, x, s))
  {
    if s == [] {
    } else if h[x].purchaseDate <= h[s[0]].purchaseDate {
      TieOrderCons(h, x, s);
    } else {
      assert s == [s[0]] + s[1..];
      TieOrderOfTail(h, s);
      InsertKeepsTieOrder(h, x, s[1..]);
      var rest := InsertByDate(h, x, s[1..]);
      forall k | 0 <= k < |rest| && h[s[0]].purchaseDate == h[rest[k]].purchaseDate
        ensures s[0] < rest[k]
      {
        assert rest[k] in rest;
        var j :| 0 <= j < |s[1..]| && s[1..][j] == rest[k];
        assert s[1..][j] == s[j + 1];
      }
      TieOrderCons(h, s[0], rest);
    }
  }

  /** Every index of the sorted tail of an increasing list exceeds the list's head. */
  lemma HeadBelowSortedTail(h: seq<PlanPurchase>, s: seq<nat>)
    requires InBounds(h, s) && s != []
    requires forall k, l :: 0 <= k < l < |s| ==> s[k] < s[l]
    ensures InBounds(h, s[1..])
    ensures forall k :: 0 <= k < |SortByDate(h, s[1..])| ==> s[0] < SortByDate(h, s[1..])[k]
  {
    var tail := SortByDate(h, s[1..]);
    forall k | 0 <= k < |tail| ensures s[0] < tail[k] {
      assert tail[k] in tail;
      var j :| 0 <= j < |s[1..]| && s[1..][j] == tail[k];
      assert s[1..][j] == s[j + 1];
    }
  }

  /** Sorting a non-empty list inserts its head into its sorted tail. */
  lemma SortByDateUnfold(h: seq<PlanPurchase>, s: seq<nat>)
    requires InBounds(h, s) && s != []
    ensures InBounds(h, s[1..]) && s[0] < |h|
    ensures SortByDate(h, s) == InsertByDate(h, s[0], SortByDate(h, s[1..]))
  {
    assert s == [s[0]] + s[1..];
  }

  /**
   * `Array.prototype.sort` is stable: sorting increasing indices keeps
   * purchases of the same date in history order.
   */
  lemma {:induction false} SortByDateIsStable(h: seq<PlanPurchase>, s: seq<nat>)
    requires InBounds(h, s)
    requires forall k, l :: 0 <= k < l < |s| ==> s[k] < s[l]
    ensures TiesInHistoryOrder(h, SortByDate(h, s))
  {
    if s != [] {
      SortByDateUnfold(h, s);
      forall k, l | 0 <= k < l < |s| - 1 ensures s[1..][k] < s[1..][l] {
        assert s[1..][k] == s[k + 1] && s[1..][l] == s[l + 1];
      }
      SortByDateIsStable(h, s[1..]);
      HeadBelowSortedTail(h, s);
      InsertKeepsTieOrder(h, s[0], SortByDate(h, s[1..]));
    }
  }

  /** The order in which `deductCredits` visits purchases: every active one once, oldest first. */
  function FifoOrder(h: seq<PlanPurchase>, now: int): (r: seq<nat>)
    ensures InBounds(h, r) && Distinct(r) && SortedByDate(h, r)
    ensures forall k :: 0 <= k < |r| ==> IsActive(h[r[k]], now)
    ensures forall i :: 0 <= i < |h| && IsActive(h[i], now) ==> i in r
  {
    var active := ActiveIndicesFrom(h, now, 0);
    var r := SortByDate(h, active);
    assert forall k :: 0 <= k < |r| ==> r[k] in active;
    r
  }

  /** Active purchases with the same purchase date are drained in history order. */
  lemma FifoOrderIsStable(h: seq<PlanPurchase>, now: int)
    ensures TiesInHistoryOrder(h, FifoOrder(h, now))
  {
    SortByDateIsStable(h, ActiveIndicesFrom(h, now, 0));
  }

  /** `d` is `h` with some `creditsRemaining` lowered, and only at indices listed in `order`. */
  predicate OnlyDrained(h: seq<PlanPurchase>, d: seq<PlanPurchase>, order: seq<nat>) {
    && |d| == |h|
    && (forall i :: 0 <= i < |h| ==>
          d[i] == h[i].(creditsRemaining := d[i].creditsRemaining) && d[i].creditsRemaining <= h[i].creditsRemaining)
    && (forall i :: 0 <= i < |h| && i !in order ==> d[i] == h[i])
  }

  /**
   * The deduction loop over `order`: take `min(amount left, remaining)` from
   * each purchase in turn, stopping once nothing is left to take. Returns the
   * new history and the amount that could not be taken.
   */
  function Consume(h: seq<PlanPurchase>, order: seq<nat>, amt: nat): (r: (seq<PlanPurchase>, nat))
    requires InBounds(h, order)
    ensures |r.0| == |h| && r.1 <= amt
    decreases |order|
  {
    if order == [] || amt == 0 then (h, amt)
    else
      var i := order[0];
      var use := Min(amt, h[i].creditsRemaining);
      var h' := h[i := h[i].(creditsRemaining := h[i].creditsRemaining - use)];
      Consume(h', order[1..], amt - use)
  }

  /** The loop only ever lowers `creditsRemaining`, and only of the purchases it visits. */
  lemma {:induction false} ConsumeOnlyDrains(h: seq<PlanPurchase>, order: seq<nat>, amt: nat)
    requires InBounds(h, order)
    ensures OnlyDrained(h, Consume(h, order, amt).0, order)
    decreases |order|
  {
    if order != [] && amt != 0 {
      var i := order[0];
      var use := Min(amt, h[i].creditsRemaining);
      var h' := h[i := h[i].(creditsRemaining := h[i].creditsRemaining - use)];
      ConsumeStep(h, order, amt);
      ConsumeOnlyDrains(h', order[1..], amt - use);
      assert forall j :: j in order[1..] ==> j in order;
    }
  }

  /** One step of `Consume`: drain the first purchase in the order, then go on with the rest. */
  lemma ConsumeStep(h: seq<PlanPurchase>, order: seq<nat>, amt: nat)
    requires InBounds(h, order) && order != [] && amt != 0
    ensures var i := order[0];
      var use := Min(amt, h[i].creditsRemaining);
      InBounds(h[i := h[i].(creditsRemaining := h[i].creditsRemaining - use)], order[1..])
      && Consume(h, order, amt) == Consume(h[i := h[i].(creditsRemaining := h[i].creditsRemaining - use)], order[1..], amt - use)
  {
  }

  /**
   * The `for` loop of `deductCredits`: walk `order`, taking from each purchase
   * the smaller of what is still owed and what it held before the loop, and
   * stop as soon as nothing is owed.
   */
  method Drain(h: seq<PlanPurchase>, order: seq<nat>, amount: nat) returns (updated: seq<PlanPurchase>)
    requires InBounds(h, order) && Distinct(order)
    ensures updated == Consume(h, order, amount).0
  {
    updated := h;
    var amountToDeduct := amount;
    for j := 0 to |order|
      invariant |updated| == |h|
      invariant forall k :: j <= k < |order| ==> updated[order[k]] == h[order[k]]
      invariant Consume(updated, order[j..], amountToDeduct) == Consume(h, order, amount)
    {
      if amountToDeduct == 0 { break; }
      var i := order[j];
      // each index occurs once, so the purchase still holds what it held before the loop
      var creditsToUse := Min(amountToDeduct, h[i].creditsRemaining);
      DrainStep(h, order, j, updated, amountToDeduct);
      updated := updated[i := updated[i].(creditsRemaining := updated[i].creditsRemaining - creditsToUse)];
      amountToDeduct := amountToDeduct - creditsToUse;
    }
  }

  /** One iteration of `Drain` keeps its invariants. */
  lemma DrainStep(h: seq<PlanPurchase>, order: seq<nat>, j: nat, updated: seq<PlanPurchase>, amt: nat)
    requires InBounds(h, order) && Distinct(order) && j < |order| && amt != 0
    requires |updated| == |h|
    requires forall k :: j <= k < |order| ==> updated[order[k]] == h[order[k]]
    ensures var i := order[j];
      var use := Min(amt, h[i].creditsRemaining);
      var next := updated[i := updated[i].(creditsRemaining := updated[i].creditsRemaining - use)];
      && (forall k :: j + 1 <= k < |order| ==> next[order[k]] == h[order[k]])
      && InBounds(updated, order[j..])
      && Consume(updated, order[j..], amt) == Consume(next, order[j + 1..], amt - use)
  {
    var i := order[j];
    assert updated[i] == h[i];
    assert order[j..][0] == i && order[j..][1..] == order[j + 1..];
    assert forall k :: j < k < |order| ==> order[k] != i;
    ConsumeStep(updated, order[j..], amt);
  }

  /** `deductCredits` on a history: nothing when the balance is short, else the oldest-first loop. */
  function DeductHistory(h: seq<PlanPurchase>, amount: nat, now: int): seq<PlanPurchase> {
    if TotalCredits(h, now) < amount then h
    else Consume(h, FifoOrder(h, now), amount).0
  }

  /** `deductCredits` on the logged-in user, if any. */
  function DeductFromUser(user: Option<User>, amount: nat, now: int): Option<User> {
    if user.None? then None
    else Some(user.value.(planHistory := DeductHistory(user.value.planHistory, amount, now)))
  }

  // ---------------------------------------------------------------------------
  // Lemmas about the loop

  /** Every credit taken from an active purchase comes off the balance. */
  lemma {:induction false} ConsumeTotal(h: seq<PlanPurchase>, order: seq<nat>, amt: nat, now: int)
    requires InBounds(h, order)
    requires forall k :: 0 <= k < |order| ==> IsActive(h[order[k]], now)
    ensures var r := Consume(h, order, amt);
      TotalCredits(r.0, now) + (amt - r.1) == TotalCredits(h, now)
    decreases |order|
  {
    if order != [] && amt != 0 {
      var i := order[0];
      var use := Min(amt, h[i].creditsRemaining);
      var h' := h[i := h[i].(creditsRemaining := h[i].creditsRemaining - use)];
      ConsumeStep(h, order, amt);
      TotalCreditsUpdate(h, i, h[i].creditsRemaining - use, now);
      ActiveTailStaysActive(h, order, h[i].creditsRemaining - use, now);
      ConsumeTotal(h', order[1..], amt - use, now);
    }
  }

  /** Lowering the first listed purchase's remaining credits keeps the rest of the list active. */
  lemma ActiveTailStaysActive(h: seq<PlanPurchase>, order: seq<nat>, rem: nat, now: int)
    requires InBounds(h, order) && order != []
    requires forall k :: 0 <= k < |order| ==> IsActive(h[order[k]], now)
    ensures var h' := h[order[0] := h[order[0]].(creditsRemaining := rem)];
      forall k :: 0 <= k < |order[1..]| ==> order[1..][k] < |h'| && IsActive(h'[order[1..][k]], now)
  {
    var h' := h[order[0] := h[order[0]].(creditsRemaining := rem)];
    forall k | 0 <= k < |order[1..]| ensures order[1..][k] < |h'| && IsActive(h'[order[1..][k]], now) {
      assert order[1..][k] == order[k + 1];
    }
  }

  /** If something is left over, every visited purchase was drained to zero. */
  lemma {:induction false} ConsumeExhausts(h: seq<PlanPurchase>, order: seq<nat>, amt: nat)
    requires InBounds(h, order)
    ensures var r := Consume(h, order, amt);
      r.1 > 0 ==> forall k :: 0 <= k < |order| ==> r.0[order[k]].creditsRemaining == 0
    decreases |order|
  {
    if order != [] && amt != 0 {
      var i := order[0];
      var use := Min(amt, h[i].creditsRemaining);
      var h' := h[i := h[i].(creditsRemaining := h[i].creditsRemaining - use)];
      assert forall k :: 0 <= k < |order| - 1 ==> order[1..][k] == order[k + 1];
      ConsumeStep(h, order, amt);
      ConsumeOnlyDrains(h', order[1..], amt - use);
      ConsumeExhausts(h', order[1..], amt - use);
    }
  }

  /** Along a duplicate-free order, a purchase is touched only once every earlier one is at zero. */
  lemma {:induction false} ConsumeInOrder(h: seq<PlanPurchase>, order: seq<nat>, amt: nat, p: nat, q: nat)
    requires InBounds(h, order) && Distinct(order)
    requires p < q < |order|
    requires Consume(h, order, amt).0[order[q]] != h[order[q]]
    ensures Consume(h, order, amt).0[order[p]].creditsRemaining == 0
    decreases |order|
  {
    var i := order[0];
    var use := Min(amt, h[i].creditsRemaining);
    var h' := h[i := h[i].(creditsRemaining := h[i].creditsRemaining - use)];
    var rest := order[1..];
    assert forall k :: 0 <= k < |order| - 1 ==> rest[k] == order[k + 1];
    assert amt != 0;
    var r := Consume(h', rest, amt - use);
    assert order[q] == rest[q - 1] && order[q] != i;
    assert h'[order[q]] == h[order[q]];
    assert i !in rest;
    ConsumeStep(h, order, amt);
    if p == 0 {
      ConsumeOnlyDrains(h', rest, amt - use);
      // the tail changed something, so an amount was left after draining `i`
      assert amt - use > 0;
      assert use == h[i].creditsRemaining;
      assert r.0[i].creditsRemaining <= h'[i].creditsRemaining == 0;
    } else {
      ConsumeInOrder(h', rest, amt - use, p - 1, q - 1);
    }
  }

  // ---------------------------------------------------------------------------
  // The promises of deductCredits

  /** All or nothing: a short balance leaves the history as it was; otherwise the balance drops by exactly `amount`. */
  lemma DeductIsExact(h: seq<PlanPurchase>, amount: nat, now: int)
    ensures TotalCredits(h, now) < amount ==> DeductHistory(h, amount, now) == h
    ensures amount <= TotalCredits(h, now) ==>
      TotalCredits(DeductHistory(h, amount, now), now) == TotalCredits(h, now) - amount
  {
    if amount <= TotalCredits(h, now) {
      var order := FifoOrder(h, now);
      var r := Consume(h, order, amount);
      ConsumeTotal(h, order, amount, now);
      if r.1 > 0 {
        ExhaustedOrderEmptiesBalance(h, order, amount, now);
      }
    }
  }

  /** When the loop runs out of purchases with something still owed, every active purchase is at zero. */
  lemma ExhaustedOrderEmptiesBalance(h: seq<PlanPurchase>, order: seq<nat>, amt: nat, now: int)
    requires InBounds(h, order)
    requires forall i :: 0 <= i < |h| && IsActive(h[i], now) ==> i in order
    requires Consume(h, order, amt).1 > 0
    ensures TotalCredits(Consume(h, order, amt).0, now) == 0
  {
    var r := Consume(h, order, amt);
    ConsumeExhausts(h, order, amt);
    ConsumeOnlyDrains(h, order, amt);
    forall i | 0 <= i < |r.0| && IsActive(r.0[i], now) ensures r.0[i].creditsRemaining == 0 {
      assert IsActive(h[i], now);
      var k :| 0 <= k < |order| && order[k] == i;
    }
    TotalCreditsZero(r.0, now);
  }

  /** Only `creditsRemaining` changes, it never grows, and `0 <= remaining <= added` is preserved. */
  lemma DeductKeepsWellFormed(h: seq<PlanPurchase>, amount: nat, now: int)
    requires WellFormedHistory(h)
    ensures var d := DeductHistory(h, amount, now);
      && |d| == |h| && WellFormedHistory(d)
      && forall i :: 0 <= i < |h| ==>
           d[i] == h[i].(creditsRemaining := d[i].creditsRemaining) && d[i].creditsRemaining <= h[i].creditsRemaining
  {
    if amount <= TotalCredits(h, now) {
      ConsumeOnlyDrains(h, FifoOrder(h, now), amount);
    }
  }

  /** Expired purchases are never touched. */
  lemma DeductSparesExpired(h: seq<PlanPurchase>, amount: nat, now: int, i: nat)
    requires i < |h| && !IsActive(h[i], now)
    ensures |DeductHistory(h, amount, now)| == |h| && DeductHistory(h, amount, now)[i] == h[i]
  {
    if amount <= TotalCredits(h, now) {
      var order := FifoOrder(h, now);
      assert i !in order;
      ConsumeOnlyDrains(h, order, amount);
    }
  }

  /** In a date-sorted order, a strictly older purchase sits at an earlier position. */
  lemma SortedPositions(h: seq<PlanPurchase>, order: seq<nat>, p: nat, q: nat)
    requires InBounds(h, order) && SortedByDate(h, order)
    requires p < |order| && q < |order|
    requires h[order[p]].purchaseDate < h[order[q]].purchaseDate
    ensures p < q
  {
  }

  /** Oldest first: a newer active purchase is touched only when every strictly older active one is at zero. */
  lemma DeductOldestFirst(h: seq<PlanPurchase>, amount: nat, now: int, older: nat, newer: nat)
    requires older < |h| && newer < |h|
    requires IsActive(h[older], now) && IsActive(h[newer], now)
    requires h[older].purchaseDate < h[newer].purchaseDate
    requires DeductHistory(h, amount, now)[newer] != h[newer]
    ensures DeductHistory(h, amount, now)[older].creditsRemaining == 0
  {
    var order := FifoOrder(h, now);
    assert amount <= TotalCredits(h, now);
    assert DeductHistory(h, amount, now) == Consume(h, order, amount).0;
    assert older in order && newer in order;
    var p :| 0 <= p < |order| && order[p] == older;
    var q :| 0 <= q < |order| && order[q] == newer;
    SortedPositions(h, order, p, q);
    ConsumeInOrder(h, order, amount, p, q);
  }

  /**
   * A new account holds 20 credits; taking 20 empties it; taking 1 more is
   * refused and leaves it at 0.
   */
  lemma TrialScenario(email: string, now: int, freshId: string, t1: int, t2: int)
    ensures var u0 := NewAccount(email, now, freshId);
      var u1 := DeductFromUser(Some(u0), 20, t1);
      var u2 := DeductFromUser(u1, 1, t2);
      && Balance(Some(u0), t1) == 20
      && Balance(u1, t1) == 0 && Balance(u1, t2) == 0
      && u2 == u1
  {
    var u0 := NewAccount(email, now, freshId);
    NewAccountSeed(email, now, freshId, t1);
    DeductIsExact(u0.planHistory, 20, t1);
    var h1 := DeductHistory(u0.planHistory, 20, t1);
    DeductKeepsWellFormed(u0.planHistory, 20, t1);
    // the only purchase never expires, so its balance does not depend on the time
    assert |h1| == 1 && h1[0].planName == FREE_TRIAL;
    assert h1[1..] == [];
    assert TotalCredits(h1, t1) == h1[0].creditsRemaining;
    assert TotalCredits(h1, t2) == h1[0].creditsRemaining;
    DeductIsExact(h1, 1, t2);
  }

  // ---------------------------------------------------------------------------
  // The balance check as written

  /**
   * `deductCredits` as the source writes it: the balance it checks is the
   * memoised `totalCredits`, computed when the user record last changed (at
   * `balanceAt`), while the purchases it drains are filtered at `now`.
   */
  function DeductHistoryAsWritten(h: seq<PlanPurchase>, amount: nat, balanceAt: int, now: int): seq<PlanPurchase> {
    if TotalCredits(h, balanceAt) < amount then h
    else Consume(h, FifoOrder(h, now), amount).0
  }

  /**
   * A trial with 10 credits left and a Pro purchase with 100, both made at 0;
   * the balance was memoised at 0 (110 credits) and 20 credits are deducted
   * at the instant the Pro purchase expires. The check passes, only 10 credits
   * can be found, and the deduction is partial: neither 0 nor 20.
   */
  lemma StaleBalanceGivesPartialDeduction()
    ensures var h := [PlanPurchase("trial", FREE_TRIAL, 0, 20, 10), PlanPurchase("pro", "Pro", 0, 1500, 100)];
      var now := SUBSCRIPTION_DAYS * DAY_MS;
      var d := DeductHistoryAsWritten(h, 20, 0, now);
      && TotalCredits(h, 0) == 110 && TotalCredits(h, now) == 10
      && TotalCredits(d, now) == 0
      && d != h
  {
    var h := [PlanPurchase("trial", FREE_TRIAL, 0, 20, 10), PlanPurchase("pro", "Pro", 0, 1500, 100)];
    var now := SUBSCRIPTION_DAYS * DAY_MS;
    assert h[1..] == [h[1]] && h[1..][1..] == [];
    assert IsActive(h[0], 0) && IsActive(h[1], 0) && IsActive(h[0], now) && !IsActive(h[1], now);
    assert TotalCredits(h[1..], 0) == 100 + TotalCredits([], 0);
    assert TotalCredits(h, 0) == 110;
    assert TotalCredits(h[1..], now) == TotalCredits([], now);
    assert TotalCredits(h, now) == 10;
    var order := FifoOrder(h, now);
    var r := Consume(h, order, 20);
    ConsumeTotal(h, order, 20, now);
    ConsumeExhausts(h, order, 20);
    ConsumeOnlyDrains(h, order, 20);
    assert r.1 > 0;
    forall i | 0 <= i < |r.0| && IsActive(r.0[i], now) ensures r.0[i].creditsRemaining == 0 {
      assert IsActive(h[i], now);
      var k :| 0 <= k < |order| && order[k] == i;
    }
    TotalCreditsZero(r.0, now);
    assert r.0[0] != h[0];
  }

  /** Checking the balance at the same instant as the drain is exact: the corrected operation is `DeductHistory`. */
  lemma SameInstantCheckIsExact(h: seq<PlanPurchase>, amount: nat, now: int)
    ensures DeductHistoryAsWritten(h, amount, now, now) == DeductHistory(h, amount, now)
    ensures var d := DeductHistory(h, amount, now);
      d == h || TotalCredits(d, now) == TotalCredits(h, now) - amount
  {
    DeductIsExact(h, amount, now);
  }
}
