/** The training campaign: the fixed order of the seven training submodes, the
    three difficulty levels, the "next submode" relation and the rule that says
    which levels passing a level unlocks.

    progress_service.py and evaluator.py each carry an identical copy of the
    order and of `_next_submode`; both are modelled by this one module. */
module Campaign {
  import opened Wrappers

  /** `TRAINING_ORDER`: all trainings in campaign order. */
  const TrainingOrder: seq<string> := [
    "first_contact",
    "keep_conversation",
    "losing_interest",
    "rejections",
    "ask_for_date",
    "intimacy_boundaries",
    "after_date"
  ]

  /** `DIFFICULTY_LEVELS`: 1 = easy, 2 = medium, 3 = hard. */
  const DifficultyLevels: seq<int> := [1, 2, 3]

  /** A (submode, level) pair, as listed in the `unlocked` results. */
  datatype Target = Target(submode: string, level: int)

  /** No submode occurs twice in the campaign order. */
  lemma TrainingOrderDistinct()
    ensures forall i, j :: 0 <= i < j < |TrainingOrder| ==> TrainingOrder[i] != TrainingOrder[j]
  {
  }

  /** Python's `list.index`: the position of the first occurrence of `s`, or
      `None` where Python raises `ValueError`. */
  function IndexOf(order: seq<string>, s: string): (r: Option<nat>)
    ensures r.None? <==> s !in order
    ensures r.Some? ==> r.value < |order| && order[r.value] == s
    ensures r.Some? ==> forall j :: 0 <= j < r.value ==> order[j] != s
  {
    if order == [] then None
    else if order[0] == s then Some(0)
    else match IndexOf(order[1..], s)
      case None => None
      case Some(i) => Some(i + 1)
  }

  /** `_next_submode`: the submode after the first occurrence of `s` in the
      campaign order; `None` for the last one and for unknown ids. */
  function NextSubmode(s: string): (r: Option<string>)
    ensures forall i :: 0 <= i < |TrainingOrder| - 1 && TrainingOrder[i] == s ==>
              r == Some(TrainingOrder[i + 1])
  {
    TrainingOrderDistinct();
    match IndexOf(TrainingOrder, s)
    case None => None
    case Some(idx) => if idx + 1 < |TrainingOrder| then Some(TrainingOrder[idx + 1]) else None
  }

  /** The unlock rule applied after a pass, in the order the code applies it:
      passing easy unlocks medium of the same submode; passing medium unlocks
      hard of the same submode, then easy of the next submode when there is
      one; passing hard, or any other level value, unlocks nothing. */
  function UnlockTargets(submode: string, level: int): (r: seq<Target>)
    ensures r == [] <==> level != 1 && level != 2
    ensures |r| <= 2
    ensures r != [] ==> r[0] == Target(submode, level + 1)
    ensures |r| == 2 <==> level == 2 && NextSubmode(submode).Some?
    ensures |r| == 2 ==> r[1] == Target(NextSubmode(submode).value, 1)
  {
    if level == 1 then [Target(submode, 2)]
    else if level == 2 then
      [Target(submode, 3)]
      + match NextSubmode(submode)
        case Some(next) => [Target(next, 1)]
        case None => []
    else []
  }

  /** The targets of one pass are pairwise distinct. */
  lemma UnlockTargetsDistinct(submode: string, level: int)
    ensures forall i, j :: 0 <= i < j < |UnlockTargets(submode, level)| ==>
              UnlockTargets(submode, level)[i] != UnlockTargets(submode, level)[j]
  {
  }

  /** A successor exists exactly for the submodes in the first six positions
      of the campaign: ids outside the campaign have none. */
  lemma NextSubmodeExists(s: string)
    ensures NextSubmode(s).Some? <==> exists i :: 0 <= i < |TrainingOrder| - 1 && TrainingOrder[i] == s
  {
    if exists i :: 0 <= i < |TrainingOrder| - 1 && TrainingOrder[i] == s {
      var i :| 0 <= i < |TrainingOrder| - 1 && TrainingOrder[i] == s;
      assert NextSubmode(s) == Some(TrainingOrder[i + 1]);
    } else if IndexOf(TrainingOrder, s).Some? {
      assert IndexOf(TrainingOrder, s).value == |TrainingOrder| - 1;
    }
  }

  /** The last submode of the campaign has no successor. */
  lemma LastSubmodeHasNoNext()
    ensures NextSubmode(TrainingOrder[|TrainingOrder| - 1]) == None
  {
    TrainingOrderDistinct();
    NextSubmodeExists(TrainingOrder[|TrainingOrder| - 1]);
  }

  /** Passing a level of a campaign submode only ever unlocks levels further
      along the campaign (a later level of the same submode, or a level of a
      later submode), and every target stays inside the 7 x 3 grid. */
  lemma TargetsMoveForward(i: nat, level: int)
    requires i < |TrainingOrder| && 1 <= level <= 3
    ensures forall t :: t in UnlockTargets(TrainingOrder[i], level) ==>
              exists j :: i <= j < |TrainingOrder| && t.submode == TrainingOrder[j]
                          && 1 <= t.level <= 3 && 3 * j + t.level > 3 * i + level
  {
    var s := TrainingOrder[i];
    var ts := UnlockTargets(s, level);
    forall t | t in ts
      ensures exists j :: i <= j < |TrainingOrder| && t.submode == TrainingOrder[j]
                          && 1 <= t.level <= 3 && 3 * j + t.level > 3 * i + level
    {
      if t == ts[0] {
        assert t == Target(s, level + 1);
        assert t.submode == TrainingOrder[i];
      } else {
        assert |ts| == 2 && t == ts[1];
        assert NextSubmode(s) == Some(TrainingOrder[i + 1]);
        assert t.submode == TrainingOrder[i + 1];
      }
    }
  }

  /** The bootstrap set unlocked by onboarding: easy and medium of the first
      submode and easy of the second. */
  const InitialUnlocks: seq<Target> := [
    Target("first_contact", 1),
    Target("first_contact", 2),
    Target("keep_conversation", 1)
  ]

  /** The campaign can be completed: every level of every submode is either in
      the bootstrap set or is unlocked by passing a level that comes earlier in
      the campaign. */
  lemma EveryLevelReachable(i: nat, level: int)
    requires i < |TrainingOrder| && 1 <= level <= 3
    ensures Target(TrainingOrder[i], level) in InitialUnlocks
            || exists j: nat, l: int :: j < |TrainingOrder| && 1 <= l <= 3
                 && 3 * j + l < 3 * i + level
                 && Target(TrainingOrder[i], level) in UnlockTargets(TrainingOrder[j], l)
  {
    var s := TrainingOrder[i];
    if level > 1 {
      assert Target(s, level) in UnlockTargets(s, level - 1);
    } else if i > 0 {
      var p := TrainingOrder[i - 1];
      assert NextSubmode(p) == Some(s);
      assert Target(s, 1) in UnlockTargets(p, 2);
    }
  }
}
