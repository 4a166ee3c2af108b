/**
 * The achievement evaluator of `check_and_unlock_achievements`: a locked
 * achievement unlocks when the stats map holds its requirement type with a
 * value at least the requirement; unknown types are skipped.
 */
module Achievements {
  import opened Records

  /** Aggregate statistics keyed by requirement type ("quests_completed", "level", ...). */
  type Stats = map<string, int>

  predicate Qualifies(a: Achievement, stats: Stats)
  {
    !a.unlocked && a.requirementType in stats && stats[a.requirementType] >= a.requirementValue
  }

  function Evaluated(a: Achievement, stats: Stats): Achievement
  {
    if Qualifies(a, stats) then a.(unlocked := true) else a
  }

  /**
   * The achievement table after one evaluation: an achievement is unlocked
   * afterwards exactly when it was before or it qualified; unlocks never
   * revert, nothing but the flag changes, and rows of an unknown
   * requirement type are left alone.
   */
  function AfterCheck(achs: seq<Achievement>, stats: Stats): (r: seq<Achievement>)
    ensures |r| == |achs|
    ensures forall i :: 0 <= i < |r| ==> (r[i].unlocked <==> achs[i].unlocked || Qualifies(achs[i], stats))
    ensures forall i :: 0 <= i < |r| ==> r[i].(unlocked := achs[i].unlocked) == achs[i]
    ensures forall i :: 0 <= i < |r| && achs[i].requirementType !in stats ==> r[i] == achs[i]
  {
    seq(|achs|, i requires 0 <= i < |achs| => Evaluated(achs[i], stats))
  }

  /** The achievements reported as newly unlocked, in table order, as they were before the update. */
  function NewlyUnlocked(achs: seq<Achievement>, stats: Stats): seq<Achievement>
    decreases |achs|
  {
    if achs == [] then []
    else
      var init, last := achs[..|achs| - 1], achs[|achs| - 1];
      NewlyUnlocked(init, stats) + (if Qualifies(last, stats) then [last] else [])
  }

  /**
   * The report is exactly the locked achievements whose requirement is met,
   * each as often as it occurs in the table.
   */
  lemma {:induction false} NewlyUnlockedExactly(achs: seq<Achievement>, stats: Stats)
    ensures forall a :: a in NewlyUnlocked(achs, stats) <==> a in achs && Qualifies(a, stats)
    ensures forall a :: multiset(NewlyUnlocked(achs, stats))[a] == if Qualifies(a, stats) then multiset(achs)[a] else 0
    ensures |NewlyUnlocked(achs, stats)| <= |achs|
    decreases |achs|
  {
    if achs != [] {
      var init, last := achs[..|achs| - 1], achs[|achs| - 1];
      assert achs == init + [last];
      NewlyUnlockedExactly(init, stats);
    }
  }

  /** One more row extends the report by that row when it qualifies. */
  lemma NewlyUnlockedSnoc(achs: seq<Achievement>, a: Achievement, stats: Stats)
    ensures NewlyUnlocked(achs + [a], stats) == NewlyUnlocked(achs, stats) + (if Qualifies(a, stats) then [a] else [])
  {
    assert (achs + [a])[..|achs|] == achs;
  }

  /** With nothing qualifying, nothing is reported. */
  lemma {:induction false} NothingQualifies(achs: seq<Achievement>, stats: Stats)
    requires forall i :: 0 <= i < |achs| ==> !Qualifies(achs[i], stats)
    ensures NewlyUnlocked(achs, stats) == []
    decreases |achs|
  {
    if achs != [] {
      NothingQualifies(achs[..|achs| - 1], stats);
    }
  }

  /** Evaluating again with unchanged stats unlocks nothing new and changes nothing. */
  lemma CheckIdempotent(achs: seq<Achievement>, stats: Stats)
    ensures NewlyUnlocked(AfterCheck(achs, stats), stats) == []
    ensures AfterCheck(AfterCheck(achs, stats), stats) == AfterCheck(achs, stats)
  {
    NothingQualifies(AfterCheck(achs, stats), stats);
  }

  /** Growing stats never unlock fewer achievements. */
  lemma MoreStatsUnlockMore(achs: seq<Achievement>, stats: Stats, more: Stats)
    requires forall t :: t in stats ==> t in more && stats[t] <= more[t]
    ensures forall a :: a in NewlyUnlocked(achs, stats) ==> a in NewlyUnlocked(achs, more)
  {
    NewlyUnlockedExactly(achs, stats);
    NewlyUnlockedExactly(achs, more);
  }
}
