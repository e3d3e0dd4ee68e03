/**
 * The daily good-deeds checklist: toggling a deed's completion, the progress
 * percentage and the all-complete banner.
 */
module GoodDeedsChallenge {
  import Seqs
  import JsMath

  datatype Deed = Deed(id: int, text: string, category: string)

  /** The completed ids other than `id`, in order. */
  function Without(completed: seq<int>, id: int): seq<int> {
    Seqs.Filter(completed, (x: int) => x != id)
  }

  /** `handleDeedComplete`'s new list: a present id is removed everywhere, an absent one appended. */
  function Toggle(completed: seq<int>, id: int): seq<int> {
    if id in completed then Without(completed, id) else completed + [id]
  }

  /** Toggling flips the id's membership and leaves every other id's membership alone. */
  lemma ToggleMembership(completed: seq<int>, id: int)
    ensures id in Toggle(completed, id) <==> id !in completed
    ensures forall x :: x != id ==> (x in Toggle(completed, id) <==> x in completed)
  {
    if id in completed {
      Seqs.FilterMembership(completed, (x: int) => x != id, id);
      forall x | x != id
        ensures x in Without(completed, id) <==> x in completed
      {
        Seqs.FilterMembership(completed, (y: int) => y != id, x);
      }
    }
  }

  /** An absent id is appended at the end; a present one is removed with every occurrence, the rest in order. */
  lemma ToggleShape(completed: seq<int>, id: int)
    ensures id !in completed ==> Toggle(completed, id) == completed + [id]
    ensures id in completed ==> Toggle(completed, id) == Without(completed, id) && id !in Toggle(completed, id)
  {
    ToggleMembership(completed, id);
  }

  /** A list without duplicates stays without duplicates. */
  lemma ToggleKeepsNoDuplicates(completed: seq<int>, id: int)
    requires Seqs.NoDuplicates(completed)
    ensures Seqs.NoDuplicates(Toggle(completed, id))
  {
    if id in completed {
      Seqs.FilterNoDuplicates(completed, (x: int) => x != id);
    }
  }

  /**
   * Toggling twice restores the set of completed ids. The list itself comes back
   * when the id was absent; when it was present, the id ends up moved to the end.
   */
  lemma ToggleTwice(completed: seq<int>, id: int)
    ensures forall x :: x in Toggle(Toggle(completed, id), id) <==> x in completed
    ensures id !in completed ==> Toggle(Toggle(completed, id), id) == completed
    ensures id in completed ==> Toggle(Toggle(completed, id), id) == Without(completed, id) + [id]
  {
    var once := Toggle(completed, id);
    ToggleMembership(completed, id);
    ToggleMembership(once, id);
    if id !in completed {
      Seqs.FilterAppend(completed, [id], (x: int) => x != id);
      Seqs.FilterAll(completed, (x: int) => x != id);
      assert Without([id], id) == [];
    }
  }

  /** The progress percentage: 0 without deeds, otherwise Math.round(100 * completed / deeds). */
  function Progress(completedCount: nat, deedCount: nat): (r: int)
    ensures deedCount == 0 ==> r == 0
    ensures deedCount > 0 ==> 2 * deedCount * r - deedCount <= 200 * completedCount < 2 * deedCount * r + deedCount
  {
    if deedCount > 0 then JsMath.RoundDiv(100 * completedCount, deedCount) else 0
  }

  /** With no more completed entries than deeds, the progress lies in 0..100; all done is 100. */
  lemma ProgressBounds(completedCount: nat, deedCount: nat)
    requires completedCount <= deedCount
    ensures 0 <= Progress(completedCount, deedCount) <= 100
    ensures deedCount > 0 && completedCount == deedCount ==> Progress(completedCount, deedCount) == 100
  {
    if deedCount > 0 {
      JsMath.RoundDivMonotone(0, 100 * completedCount, deedCount);
      JsMath.RoundDivMonotone(100 * completedCount, 100 * deedCount, deedCount);
      assert JsMath.RoundDiv(100 * deedCount, deedCount) == 100 by {
        JsMath.ModUnique(200 * deedCount + deedCount, 2 * deedCount, 100, deedCount);
      }
    }
  }

  /** The all-complete banner: the two lists have the same length, which includes both being empty. */
  predicate AllComplete(completedCount: nat, deedCount: nat) {
    completedCount == deedCount
  }

  /** The banner shows with 100% progress, or with 0% when there are no deeds at all. */
  lemma AllCompleteProgress(completedCount: nat, deedCount: nat)
    requires AllComplete(completedCount, deedCount)
    ensures Progress(completedCount, deedCount) == if deedCount == 0 then 0 else 100
  {
    ProgressBounds(completedCount, deedCount);
  }

  /** The component's state; deeds, completed ids and streak come from storage calls not modelled here. */
  class Challenge {
    var deeds: seq<Deed>
    var completed: seq<int>
    var streak: int

    constructor ()
      ensures deeds == [] && completed == [] && streak == 0
    {
      deeds, completed, streak := [], [], 0;
    }

    /** The load effect, given what the storage getters returned. */
    method Load(dailyDeeds: seq<Deed>, completedDeeds: seq<int>, currentStreak: int)
      modifies this
      ensures deeds == dailyDeeds && completed == completedDeeds && streak == currentStreak
    {
      deeds, completed, streak := dailyDeeds, completedDeeds, currentStreak;
    }

    /** `handleDeedComplete`, given the streak the storage reports afterwards. */
    method HandleDeedComplete(deedId: int, streakAfter: int)
      modifies this
      ensures completed == Toggle(old(completed), deedId)
      ensures deeds == old(deeds) && streak == streakAfter
    {
      if deedId in completed {
        completed := Without(completed, deedId);
      } else {
        completed := completed + [deedId];
      }
      streak := streakAfter;
    }

    function CurrentProgress(): (r: int)
      reads this
      ensures r == Progress(|completed|, |deeds|)
      ensures |completed| <= |deeds| ==> 0 <= r <= 100
    {
      var r := Progress(|completed|, |deeds|);
      if |completed| <= |deeds| then ProgressBounds(|completed|, |deeds|); r else r
    }
  }
}
