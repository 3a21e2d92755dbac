/**
 * The `classes` collection seen as a table of seat counters
 * (`availableInventory` per class `_id`), and the effect on that table of
 * a sequence of reservations: guarded decrements applied in request order,
 * and the unconditional increments that compensate them.
 */
module Inventory {

  type ClassId = string

  /** availableInventory of every class document, keyed by its _id. */
  type Counts = map<ClassId, int>

  /** One line item of an order: a class and the seats asked of it. */
  datatype LessonPair = LessonPair(id: ClassId, requested: int)

  /** The filter `{ _id, availableInventory: { $gte: amount } }` matches a document. */
  predicate Guard(s: Counts, id: ClassId, amount: int) {
    id in s && s[id] >= amount
  }

  /** `$inc: { availableInventory: -requested }` on the class, if it exists. */
  function Withdraw(s: Counts, p: LessonPair): (r: Counts)
    ensures r.Keys == s.Keys
    ensures p.id in s ==> r[p.id] == s[p.id] - p.requested
    ensures forall id | id in s && id != p.id :: r[id] == s[id]
  {
    if p.id in s then s[p.id := s[p.id] - p.requested] else s
  }

  /** `$inc: { availableInventory: requested }` on the class, if it exists. */
  function Restore(s: Counts, p: LessonPair): (r: Counts)
    ensures r.Keys == s.Keys
    ensures p.id in s ==> r[p.id] == s[p.id] + p.requested
    ensures forall id | id in s && id != p.id :: r[id] == s[id]
  {
    if p.id in s then s[p.id := s[p.id] + p.requested] else s
  }

  /** The table after withdrawing every item, first to last. */
  function Debit(s: Counts, items: seq<LessonPair>): (r: Counts)
    ensures r.Keys == s.Keys
  {
    if items == [] then s
    else Withdraw(Debit(s, items[..|items| - 1]), items[|items| - 1])
  }

  /** The table after restoring every item, first to last. */
  function Credit(s: Counts, items: seq<LessonPair>): (r: Counts)
    ensures r.Keys == s.Keys
  {
    if items == [] then s
    else Restore(Credit(s, items[..|items| - 1]), items[|items| - 1])
  }

  /** Total seats that `items` ask of class `id`. */
  function Demand(items: seq<LessonPair>, id: ClassId): int {
    if items == [] then 0
    else
      var last := items[|items| - 1];
      Demand(items[..|items| - 1], id) + (if last.id == id then last.requested else 0)
  }

  /** The seat counts of `items`, in order (the order document's `spaces`). */
  function Spaces(items: seq<LessonPair>): (r: seq<int>)
    ensures |r| == |items|
    ensures forall i | 0 <= i < |items| :: r[i] == items[i].requested
  {
    seq(|items|, i requires 0 <= i < |items| => items[i].requested)
  }

  /** The class ids of `items`, in order (the order document's `lessonIDs`). */
  function Ids(items: seq<LessonPair>): (r: seq<ClassId>)
    ensures |r| == |items|
    ensures forall i | 0 <= i < |items| :: r[i] == items[i].id
  {
    seq(|items|, i requires 0 <= i < |items| => items[i].id)
  }

  function Sum(xs: seq<int>): int {
    if xs == [] then 0 else Sum(xs[..|xs| - 1]) + xs[|xs| - 1]
  }

  predicate AllPositive(items: seq<LessonPair>) {
    forall i | 0 <= i < |items| :: items[i].requested >= 1
  }

  predicate NonNegative(s: Counts) {
    forall id | id in s :: s[id] >= 0
  }

  /**
   * Every guarded decrement of `items`, applied in order starting from `s`,
   * finds its guard true: each one sees the effect of those before it.
   */
  predicate Fits(s: Counts, items: seq<LessonPair>) {
    if items == [] then true
    else
      var init := items[..|items| - 1];
      var last := items[|items| - 1];
      Fits(s, init) && Guard(Debit(s, init), last.id, last.requested)
  }

  /** Independent reading of Fits: every named class exists and holds the total asked of it. */
  predicate Covers(s: Counts, items: seq<LessonPair>) {
    forall i | 0 <= i < |items| :: items[i].id in s && s[items[i].id] >= Demand(items, items[i].id)
  }

  /** Item k is the first item whose guarded decrement fails. */
  predicate FailsAt(s: Counts, items: seq<LessonPair>, k: nat) {
    k < |items| && Fits(s, items[..k]) && !Guard(Debit(s, items[..k]), items[k].id, items[k].requested)
  }

  /** The ledger entries at positions not in `fails`: the increments that went through. */
  function Restored(ledger: seq<LessonPair>, fails: set<nat>): (r: seq<LessonPair>)
    ensures |r| <= |ledger|
    ensures AllPositive(ledger) ==> AllPositive(r)
  {
    if ledger == [] then []
    else
      Restored(ledger[..|ledger| - 1], fails)
        + (if |ledger| - 1 in fails then [] else [ledger[|ledger| - 1]])
  }

  /** The ledger entries at positions in `fails`: the increments that threw. */
  function Lost(ledger: seq<LessonPair>, fails: set<nat>): (r: seq<LessonPair>)
    ensures |r| <= |ledger|
    ensures (forall i | 0 <= i < |ledger| :: i !in fails) ==> r == []
  {
    if ledger == [] then []
    else
      Lost(ledger[..|ledger| - 1], fails)
        + (if |ledger| - 1 in fails then [ledger[|ledger| - 1]] else [])
  }

  /** Sum of all counters. */
  ghost function Total(s: Counts): int
    decreases |s|
  {
    if s == map[] then 0
    else
      var id :| id in s;
      s[id] + Total(s - {id})
  }

  // ---------------------------------------------------------------------
  // Unfolding steps used by loops that grow a prefix one item at a time.

  lemma PrefixStep(items: seq<LessonPair>, k: nat)
    requires k < |items|
    ensures items[..k + 1][..k] == items[..k] && items[..k + 1][k] == items[k]
    ensures items[..k + 1] == items[..k] + [items[k]]
  {
  }

  lemma DebitStep(s: Counts, items: seq<LessonPair>, k: nat)
    requires k < |items|
    ensures Debit(s, items[..k + 1]) == Withdraw(Debit(s, items[..k]), items[k])
    ensures Fits(s, items[..k + 1])
            <==> Fits(s, items[..k]) && Guard(Debit(s, items[..k]), items[k].id, items[k].requested)
  {
    PrefixStep(items, k);
  }

  lemma CreditSnoc(s: Counts, items: seq<LessonPair>, p: LessonPair)
    ensures Credit(s, items + [p]) == Restore(Credit(s, items), p)
  {
  }

  lemma RestoredStep(ledger: seq<LessonPair>, fails: set<nat>, j: nat)
    requires j < |ledger|
    ensures Restored(ledger[..j + 1], fails)
            == Restored(ledger[..j], fails) + (if j in fails then [] else [ledger[j]])
  {
    PrefixStep(ledger, j);
  }

  /** One more ledger entry replayed: restored unless its increment threw. */
  lemma RollbackStep(t: Counts, ledger: seq<LessonPair>, fails: set<nat>, j: nat)
    requires j < |ledger|
    ensures Credit(t, Restored(ledger[..j + 1], fails))
            == if j in fails then Credit(t, Restored(ledger[..j], fails))
               else Restore(Credit(t, Restored(ledger[..j], fails)), ledger[j])
  {
    RestoredStep(ledger, fails, j);
    if j in fails {
      assert Restored(ledger[..j + 1], fails) == Restored(ledger[..j], fails);
    } else {
      CreditSnoc(t, Restored(ledger[..j], fails), ledger[j]);
    }
  }

  lemma DemandSnoc(items: seq<LessonPair>, p: LessonPair, id: ClassId)
    ensures Demand(items + [p], id) == Demand(items, id) + (if p.id == id then p.requested else 0)
  {
  }

  // ---------------------------------------------------------------------
  // Properties of the reservation sequence.

  /** After withdrawing `items`, each class is down by exactly the seats asked of it. */
  lemma {:induction false} DebitAt(s: Counts, items: seq<LessonPair>, id: ClassId)
    requires id in s
    ensures id in Debit(s, items) && Debit(s, items)[id] == s[id] - Demand(items, id)
  {
    if items != [] {
      DebitAt(s, items[..|items| - 1], id);
    }
  }

  /** After restoring `items`, each class is up by exactly the seats they name. */
  lemma {:induction false} CreditAt(s: Counts, items: seq<LessonPair>, id: ClassId)
    requires id in s
    ensures id in Credit(s, items) && Credit(s, items)[id] == s[id] + Demand(items, id)
  {
    if items != [] {
      CreditAt(s, items[..|items| - 1], id);
    }
  }

  /** Restoring exactly what was withdrawn gives back the original table. */
  lemma CreditUndoesDebit(s: Counts, items: seq<LessonPair>)
    ensures Credit(Debit(s, items), items) == s
  {
    var r := Credit(Debit(s, items), items);
    forall id | id in s
      ensures r[id] == s[id]
    {
      DebitAt(s, items, id);
      CreditAt(Debit(s, items), items, id);
    }
  }

  /**
   * The sequential guarded decrements all succeed exactly when every class
   * they name exists and holds at least the total asked of it (so a class
   * with 3 seats asked for 2 and then 2 again fails).
   */
  lemma {:induction false} FitsIffCovers(s: Counts, items: seq<LessonPair>)
    requires AllPositive(items)
    ensures Fits(s, items) <==> Covers(s, items)
  {
    if items != [] {
      var n := |items| - 1;
      var init, last := items[..n], items[n];
      assert items == init + [last];
      assert AllPositive(init);
      FitsIffCovers(s, init);
      forall id ensures Demand(items, id) == Demand(init, id) + (if last.id == id then last.requested else 0) {
        DemandSnoc(init, last, id);
      }
      if last.id in s {
        DebitAt(s, init, last.id);
      }
      if Covers(s, items) {
        forall i | 0 <= i < |init|
          ensures init[i].id in s && s[init[i].id] >= Demand(init, init[i].id)
        {
          assert items[i] == init[i];
        }
        assert Covers(s, init);
      }
      if Covers(s, init) && Guard(Debit(s, init), last.id, last.requested) {
        forall i | 0 <= i < |items|
          ensures items[i].id in s && s[items[i].id] >= Demand(items, items[i].id)
        {
          if i < n {
            assert items[i] == init[i];
          }
        }
      }
    }
  }

  /** A sequence that fits has every prefix fitting. */
  lemma {:induction false} FitsPrefix(s: Counts, items: seq<LessonPair>, j: nat)
    requires Fits(s, items) && j <= |items|
    ensures Fits(s, items[..j])
    decreases |items| - j
  {
    if j < |items| {
      var init := items[..|items| - 1];
      assert init[..j] == items[..j];
      FitsPrefix(s, init, j);
    } else {
      assert items[..j] == items;
    }
  }

  /** In a fitting prefix, every item before its end found its guard true. */
  lemma FitsGuardAt(s: Counts, items: seq<LessonPair>, j: nat, i: nat)
    requires i < j <= |items| && Fits(s, items[..j])
    ensures Guard(Debit(s, items[..i]), items[i].id, items[i].requested)
  {
    FitsPrefix(s, items[..j], i + 1);
    assert items[..j][..i + 1] == items[..i + 1];
    DebitStep(s, items, i);
  }

  /** The failing item is unique, and an order with a failing item does not fit. */
  lemma FailsAtUnique(s: Counts, items: seq<LessonPair>, k: nat, k': nat)
    requires FailsAt(s, items, k)
    ensures !Fits(s, items)
    ensures FailsAt(s, items, k') ==> k == k'
  {
    if Fits(s, items) {
      assert items[..|items|] == items;
      FitsGuardAt(s, items, |items|, k);
    }
    if FailsAt(s, items, k') {
      if k < k' {
        FitsGuardAt(s, items, k', k);
      } else if k' < k {
        FitsGuardAt(s, items, k, k');
      }
    }
  }

  /** Decrements whose guards all held never drive a counter below zero. */
  lemma {:induction false} FitsKeepsNonNegative(s: Counts, items: seq<LessonPair>)
    requires NonNegative(s) && Fits(s, items)
    ensures NonNegative(Debit(s, items))
  {
    if items != [] {
      FitsKeepsNonNegative(s, items[..|items| - 1]);
    }
  }

  /** Increments of positive amounts never drive a counter below zero. */
  lemma {:induction false} CreditKeepsNonNegative(s: Counts, items: seq<LessonPair>)
    requires NonNegative(s) && AllPositive(items)
    ensures NonNegative(Credit(s, items))
  {
    if items != [] {
      assert AllPositive(items[..|items| - 1]);
      CreditKeepsNonNegative(s, items[..|items| - 1]);
    }
  }

  /** Rolling back a ledger whose decrements all held leaves no counter below zero. */
  lemma RollbackKeepsNonNegative(s: Counts, ledger: seq<LessonPair>, fails: set<nat>)
    requires NonNegative(s) && Fits(s, ledger) && AllPositive(ledger)
    ensures NonNegative(Credit(Debit(s, ledger), Restored(ledger, fails)))
  {
    FitsKeepsNonNegative(s, ledger);
    CreditKeepsNonNegative(Debit(s, ledger), Restored(ledger, fails));
  }

  /** Every ledger entry either went through or was lost, so demand splits between the two. */
  lemma {:induction false} DemandSplit(ledger: seq<LessonPair>, fails: set<nat>, id: ClassId)
    ensures Demand(ledger, id) == Demand(Restored(ledger, fails), id) + Demand(Lost(ledger, fails), id)
  {
    if ledger != [] {
      var n := |ledger| - 1;
      var init, last := ledger[..n], ledger[n];
      DemandSplit(init, fails, id);
      if n in fails {
        assert Restored(ledger, fails) == Restored(init, fails);
        DemandSnoc(Lost(init, fails), last, id);
      } else {
        assert Lost(ledger, fails) == Lost(init, fails);
        DemandSnoc(Restored(init, fails), last, id);
      }
    }
  }

  /**
   * Best-effort compensation: after withdrawing the ledger and then restoring
   * the entries whose increment went through, the table is the original one
   * less exactly the entries whose increment threw.
   */
  lemma RollbackLeavesOnlyLost(s: Counts, ledger: seq<LessonPair>, fails: set<nat>)
    ensures Credit(Debit(s, ledger), Restored(ledger, fails)) == Debit(s, Lost(ledger, fails))
  {
    var l, r := Credit(Debit(s, ledger), Restored(ledger, fails)), Debit(s, Lost(ledger, fails));
    forall id | id in s
      ensures l[id] == r[id]
    {
      DebitAt(s, ledger, id);
      CreditAt(Debit(s, ledger), Restored(ledger, fails), id);
      DebitAt(s, Lost(ledger, fails), id);
      DemandSplit(ledger, fails, id);
    }
  }

  /**
   * When item k is the first that fails, the order does not fit, and rolling
   * back the ledger of the items before it leaves the table short of exactly
   * the lost entries, with no counter below zero.
   */
  lemma ShortageOutcome(s: Counts, items: seq<LessonPair>, k: nat, fails: set<nat>)
    requires AllPositive(items) && FailsAt(s, items, k)
    ensures !Fits(s, items)
    ensures Credit(Debit(s, items[..k]), Restored(items[..k], fails)) == Debit(s, Lost(items[..k], fails))
    ensures NonNegative(s) ==> NonNegative(Debit(s, Lost(items[..k], fails)))
  {
    FailsAtUnique(s, items, k, k);
    RollbackLeavesOnlyLost(s, items[..k], fails);
    if NonNegative(s) {
      assert AllPositive(items[..k]);
      RollbackKeepsNonNegative(s, items[..k], fails);
    }
  }

  /**
   * Placing the same order a second time also succeeds only if every class it
   * names had at least twice the seats asked of it before the first one.
   */
  lemma SecondAttemptNeedsTwice(s: Counts, items: seq<LessonPair>)
    requires AllPositive(items)
    requires Fits(s, items) && Fits(Debit(s, items), items)
    ensures forall i | 0 <= i < |items| :: items[i].id in s && s[items[i].id] >= 2 * Demand(items, items[i].id)
  {
    FitsIffCovers(s, items);
    FitsIffCovers(Debit(s, items), items);
    forall i | 0 <= i < |items|
      ensures items[i].id in s && s[items[i].id] >= 2 * Demand(items, items[i].id)
    {
      DebitAt(s, items, items[i].id);
    }
  }

  // ---------------------------------------------------------------------
  // Seat totals.

  lemma TotalRemove(s: Counts, id: ClassId)
    requires id in s
    ensures Total(s) == s[id] + Total(s - {id})
    decreases |s|
  {
    var y :| y in s && Total(s) == s[y] + Total(s - {y});
    if y != id {
      TotalRemove(s - {y}, id);
      TotalRemove(s - {id}, y);
      assert s - {y} - {id} == s - {id} - {y};
    }
  }

  lemma TotalUpdate(s: Counts, id: ClassId, v: int)
    requires id in s
    ensures Total(s[id := v]) == Total(s) - s[id] + v
  {
    TotalRemove(s, id);
    TotalRemove(s[id := v], id);
    assert s[id := v] - {id} == s - {id};
  }

  /** When every named class exists, the seats removed from the table are the seats asked for. */
  lemma {:induction false} TotalDebit(s: Counts, items: seq<LessonPair>)
    requires forall i | 0 <= i < |items| :: items[i].id in s
    ensures Total(s) - Total(Debit(s, items)) == Sum(Spaces(items))
  {
    if items != [] {
      var n := |items| - 1;
      var init, last := items[..n], items[n];
      TotalDebit(s, init);
      assert Spaces(items)[..n] == Spaces(init);
      TotalUpdate(Debit(s, init), last.id, Debit(s, init)[last.id] - last.requested);
    }
  }
}
