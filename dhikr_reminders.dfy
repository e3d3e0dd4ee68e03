/**
 * The dhikr counters: pressing "Count" raises one item's count, clamped at the
 * target the button passed, in the component's list and in storage.
 */
module DhikrReminders {
  import JsMath

  datatype DhikrItem = DhikrItem(id: int, arabic: string, translation: string, virtue: string, target: int, count: int)

  /** The count written back: one more than the current count, but never past the target. */
  function ClampedCount(currentCount: int, target: int): (c: int)
    ensures c == JsMath.Min(currentCount + 1, target)
    ensures c <= target
  {
    var newCount := currentCount + 1;
    if newCount > target then target else newCount
  }

  /** The list `handleDhikrIncrement` builds: every item with the id gets `newCount`, the others are kept. */
  function UpdateCounts(items: seq<DhikrItem>, id: int, newCount: int): (r: seq<DhikrItem>)
    ensures |r| == |items|
    ensures forall i :: 0 <= i < |items| && items[i].id != id ==> r[i] == items[i]
    ensures forall i :: 0 <= i < |items| && items[i].id == id ==> r[i] == items[i].(count := newCount)
  {
    if items == [] then []
    else
      [if items[0].id == id then items[0].(count := newCount) else items[0]]
      + UpdateCounts(items[1..], id, newCount)
  }

  /** The completion toast fires when the increment lands exactly on the target. */
  predicate CompletionToast(currentCount: int, target: int) {
    currentCount + 1 == target
  }

  /** The "Count" button is disabled once the count has reached the target. */
  predicate CanIncrement(item: DhikrItem) {
    !(item.count >= item.target)
  }

  predicate WithinTargets(items: seq<DhikrItem>) {
    forall i :: 0 <= i < |items| ==> items[i].count <= items[i].target
  }

  predicate UniqueIds(items: seq<DhikrItem>) {
    forall i, j :: 0 <= i < j < |items| ==> items[i].id != items[j].id
  }

  /**
   * Pressing "Count" on item `k` of a list with distinct ids: that item's count
   * becomes min(count + 1, target), nothing else changes, and no count passes its target.
   */
  lemma IncrementFromButton(items: seq<DhikrItem>, k: nat)
    requires k < |items| && UniqueIds(items) && WithinTargets(items)
    ensures var r := UpdateCounts(items, items[k].id, ClampedCount(items[k].count, items[k].target));
      && |r| == |items|
      && r[k] == items[k].(count := JsMath.Min(items[k].count + 1, items[k].target))
      && (forall i :: 0 <= i < |items| && i != k ==> r[i] == items[i])
      && WithinTargets(r)
      && (CanIncrement(items[k]) ==> r[k].count == items[k].count + 1)
  {
    var r := UpdateCounts(items, items[k].id, ClampedCount(items[k].count, items[k].target));
    forall i | 0 <= i < |items| && i != k
      ensures r[i] == items[i]
    {
      if i < k {
        assert items[i].id != items[k].id;
      } else {
        assert items[k].id != items[i].id;
      }
    }
  }

  /** The toast fires on exactly the press that makes an enabled counter reach its target. */
  lemma ToastOnCompletion(item: DhikrItem)
    requires CanIncrement(item)
    ensures CompletionToast(item.count, item.target) <==> ClampedCount(item.count, item.target) == item.target
  {
  }

  /** The component's list of counters. */
  class Reminders {
    var items: seq<DhikrItem>

    constructor (items: seq<DhikrItem>)
      ensures this.items == items
    {
      this.items := items;
    }

    /**
     * `handleDhikrIncrement`: writes the clamped count into every item with the
     * id and returns the value passed to `updateDhikrCount` (the same value) and
     * whether the completion toast fires.
     */
    method HandleIncrement(id: int, currentCount: int, target: int) returns (persisted: int, toast: bool)
      modifies this
      ensures items == UpdateCounts(old(items), id, ClampedCount(currentCount, target))
      ensures persisted == ClampedCount(currentCount, target)
      ensures forall i :: 0 <= i < |items| && items[i].id == id ==> items[i].count == persisted
      ensures toast == CompletionToast(currentCount, target)
    {
      var newCount := currentCount + 1;
      items := UpdateCounts(items, id, if newCount > target then target else newCount);
      persisted := if newCount > target then target else newCount;
      toast := newCount == target;
    }
  }
}
