/** `ProgressService`: onboarding initialisation, the progress snapshot and the
    unlock rule applied after a pass. The service has no fields of its own;
    every operation works on the database session, here a `TrainingStore`. */
module ProgressService {
  import opened Wrappers
  import opened Campaign
  import opened ProgressStore

  // ---------------------------------------------------------------------
  // initialize_progress

  /** The rows the bootstrap loop has inserted after its first `n` rounds. */
  function BootstrapRows(user: UserId, n: nat): map<Key, Row>
    requires n <= |InitialUnlocks|
  {
    if n == 0 then map[]
    else BootstrapRows(user, n - 1)[KeyOf(user, InitialUnlocks[n - 1]) := UnlockedRow]
  }

  /** The bootstrap loop inserts exactly the bootstrap keys. */
  lemma BootstrapRowsAreInitial(m: Progress, user: UserId)
    ensures OtherUsersRows(m, user) + BootstrapRows(user, |InitialUnlocks|) == Initialized(m, user)
  {
    var k0, k1, k2 := KeyOf(user, InitialUnlocks[0]), KeyOf(user, InitialUnlocks[1]), KeyOf(user, InitialUnlocks[2]);
    assert BootstrapRows(user, 1) == map[k0 := UnlockedRow];
    assert BootstrapRows(user, 2) == map[k0 := UnlockedRow, k1 := UnlockedRow];
    assert BootstrapRows(user, 3) == map[k0 := UnlockedRow, k1 := UnlockedRow, k2 := UnlockedRow];
    InitialKeysListed(user);
    assert BootstrapRows(user, 3) == map k | k in InitialKeys(user) :: UnlockedRow;
  }

  /** Inserting into the right operand of a map union. */
  lemma UnionUpdate(a: Progress, b: Progress, k: Key, v: Row)
    ensures (a + b)[k := v] == a + b[k := v]
  {
  }

  /** `initialize_progress`: wipe the user's rows, then insert the bootstrap rows
      one by one, unlocked and not passed. */
  method InitializeProgress(db: TrainingStore, user: UserId)
    modifies db
    ensures db.progress == Initialized(old(db.progress), user)
    ensures db.attempts == old(db.attempts)
  {
    db.progress := OtherUsersRows(db.progress, user);
    ghost var kept := db.progress;
    var i := 0;
    while i < |InitialUnlocks|
      invariant 0 <= i <= |InitialUnlocks|
      invariant db.progress == kept + BootstrapRows(user, i)
      invariant db.attempts == old(db.attempts)
    {
      var t := InitialUnlocks[i];
      UnionUpdate(kept, BootstrapRows(user, i), KeyOf(user, t), UnlockedRow);
      db.progress := db.progress[Key(user, t.submode, t.level) := Row(true, false, None)];
      i := i + 1;
    }
    BootstrapRowsAreInitial(old(db.progress), user);
  }

  // ---------------------------------------------------------------------
  // get_progress

  /** One level entry of the snapshot. */
  datatype LevelState = LevelState(level: int, isUnlocked: bool, passed: bool, passedAt: Option<Timestamp>)

  /** One training entry of the snapshot. */
  datatype TrainingState = TrainingState(submode: string, levels: seq<LevelState>)

  /** What `get_progress` returns. */
  datatype ProgressView = ProgressView(onboardingComplete: bool, trainings: seq<TrainingState>)

  /** The entry for one key: the row's values, or locked and not passed when
      the row is missing. */
  function LevelView(m: Progress, k: Key): LevelState {
    if k in m then LevelState(k.level, m[k].isUnlocked, m[k].passed, m[k].passedAt)
    else LevelState(k.level, false, false, None)
  }

  function TrainingView(m: Progress, user: UserId, submode: string): TrainingState {
    TrainingState(submode, seq(|DifficultyLevels|, j requires 0 <= j < |DifficultyLevels| =>
                             LevelView(m, Key(user, submode, DifficultyLevels[j]))))
  }

  /** The full snapshot of `user`'s progress in table `m`. */
  function Snapshot(m: Progress, user: UserId): ProgressView {
    ProgressView(HasRows(m, user),
                 seq(|TrainingOrder|, i requires 0 <= i < |TrainingOrder| =>
                   TrainingView(m, user, TrainingOrder[i])))
  }

  /** What a snapshot holds: every submode in campaign order, each with levels
      1, 2, 3 in order, each the stored row or the locked default; onboarding
      is complete exactly when the user has a row. */
  lemma SnapshotContents(m: Progress, user: UserId)
    ensures var v := Snapshot(m, user);
      && (v.onboardingComplete <==> exists k :: k in m && k.user == user)
      && |v.trainings| == 7
      && forall i :: 0 <= i < 7 ==>
           && v.trainings[i].submode == TrainingOrder[i]
           && |v.trainings[i].levels| == 3
           && forall j :: 0 <= j < 3 ==>
                var e := v.trainings[i].levels[j];
                var k := Key(user, TrainingOrder[i], j + 1);
                && e.level == j + 1
                && (k !in m ==> !e.isUnlocked && !e.passed && e.passedAt == None)
                && (k in m ==> e.isUnlocked == m[k].isUnlocked && e.passed == m[k].passed
                               && e.passedAt == m[k].passedAt)
  {
  }

  /** `get_progress`: index the user's rows by (submode, level), then walk the
      campaign order and the difficulty levels, filling in defaults. */
  method GetProgress(db: TrainingStore, user: UserId) returns (view: ProgressView)
    ensures view == Snapshot(db.progress, user)
  {
    var index := map k | k in db.progress && k.user == user :: db.progress[k];
    var onboardingComplete := |index| > 0;
    if HasRows(db.progress, user) {
      var k :| k in db.progress && k.user == user;
      assert k in index.Keys;
    }
    var trainings: seq<TrainingState> := [];
    var i := 0;
    while i < |TrainingOrder|
      invariant 0 <= i <= |TrainingOrder|
      invariant |trainings| == i
      invariant forall i' :: 0 <= i' < i ==> trainings[i'] == TrainingView(db.progress, user, TrainingOrder[i'])
    {
      var submode := TrainingOrder[i];
      var levels: seq<LevelState> := [];
      var j := 0;
      while j < |DifficultyLevels|
        invariant 0 <= j <= |DifficultyLevels|
        invariant |levels| == j
        invariant forall j' :: 0 <= j' < j ==>
                    levels[j'] == LevelView(db.progress, Key(user, submode, DifficultyLevels[j']))
      {
        var level := DifficultyLevels[j];
        var k := Key(user, submode, level);
        var entry := if k in index
                     then LevelState(level, index[k].isUnlocked, index[k].passed, index[k].passedAt)
                     else LevelState(level, false, false, None);
        levels := levels + [entry];
        j := j + 1;
      }
      trainings := trainings + [TrainingState(submode, levels)];
      i := i + 1;
    }
    view := ProgressView(onboardingComplete, trainings);
  }

  /** The bootstrap keys by campaign position: easy and medium of the first
      submode, easy of the second. */
  lemma InitialKeyPositions(user: UserId, i: nat, j: nat)
    requires i < |TrainingOrder| && j < |DifficultyLevels|
    ensures Key(user, TrainingOrder[i], j + 1) in InitialKeys(user)
            <==> (i == 0 && j <= 1) || (i == 1 && j == 0)
  {
    TrainingOrderDistinct();
    InitialKeysListed(user);
    assert TrainingOrder[0] == "first_contact" && TrainingOrder[1] == "keep_conversation";
  }

  /** Right after onboarding the snapshot shows exactly easy and medium of the
      first submode and easy of the second unlocked, nothing passed, and
      onboarding complete. */
  lemma InitializedSnapshot(m: Progress, user: UserId)
    ensures var v := Snapshot(Initialized(m, user), user);
      && v.onboardingComplete
      && forall i, j :: 0 <= i < |v.trainings| && 0 <= j < |v.trainings[i].levels| ==>
           && (v.trainings[i].levels[j].isUnlocked <==> (i == 0 && j <= 1) || (i == 1 && j == 0))
           && !v.trainings[i].levels[j].passed
           && v.trainings[i].levels[j].passedAt == None
  {
    var r := Initialized(m, user);
    assert KeyOf(user, InitialUnlocks[0]) in InitialKeys(user);
    SnapshotContents(r, user);
    var v := Snapshot(r, user);
    forall i, j | 0 <= i < |v.trainings| && 0 <= j < |v.trainings[i].levels|
      ensures (v.trainings[i].levels[j].isUnlocked <==> (i == 0 && j <= 1) || (i == 1 && j == 0))
      ensures !v.trainings[i].levels[j].passed && v.trainings[i].levels[j].passedAt == None
    {
      InitialKeyPositions(user, i, j);
    }
  }

  // ---------------------------------------------------------------------
  // unlock_next and _unlock

  /** `_unlock`: insert the row unlocked and not passed when it is missing,
      flip `is_unlocked` when it is locked; report whether anything changed. */
  method Unlock(db: TrainingStore, user: UserId, submode: string, level: int) returns (changed: bool)
    modifies db
    ensures db.progress == Unlocked(old(db.progress), Key(user, submode, level))
    ensures changed <==> !IsUnlocked(old(db.progress), Key(user, submode, level))
    ensures db.attempts == old(db.attempts)
  {
    var k := Key(user, submode, level);
    if k !in db.progress {
      db.progress := db.progress[k := Row(true, false, None)];
      return true;
    }
    var row := db.progress[k];
    if !row.isUnlocked {
      db.progress := db.progress[k := row.(isUnlocked := true)];
      return true;
    }
    return false;
  }

  /** `unlock_next`: apply the unlock rule for a pass of (`submode`, `level`)
      and report the targets whose state changed, in rule order. */
  method UnlockNext(db: TrainingStore, user: UserId, submode: string, level: int)
    returns (unlocked: seq<Target>)
    modifies db
    ensures db.progress == UnlockAll(old(db.progress), user, UnlockTargets(submode, level))
    ensures unlocked == ChangedTargets(old(db.progress), user, UnlockTargets(submode, level))
    ensures db.attempts == old(db.attempts)
  {
    ghost var m := db.progress;
    unlocked := [];
    if level == 1 {
      var changed := Unlock(db, user, submode, 2);
      if changed {
        unlocked := unlocked + [Target(submode, 2)];
      }
      assert UnlockTargets(submode, level) == [Target(submode, 2)] + [];
      UnlockAllCons(m, user, Target(submode, 2), []);
      ChangedTargetsCons(m, user, Target(submode, 2), []);
    } else if level == 2 {
      var changed := Unlock(db, user, submode, 3);
      if changed {
        unlocked := unlocked + [Target(submode, 3)];
      }
      ghost var m1 := db.progress;
      ghost var u1 := unlocked;
      // A next submode is never the empty string, so `if next_sub:` is `Some?`.
      var next := NextSubmode(submode);
      ghost var rest: seq<Target> := if next.Some? then [Target(next.value, 1)] else [];
      if next.Some? {
        changed := Unlock(db, user, next.value, 1);
        if changed {
          unlocked := unlocked + [Target(next.value, 1)];
        }
        UnlockAllCons(m1, user, Target(next.value, 1), []);
        ChangedTargetsCons(m1, user, Target(next.value, 1), []);
      }
      assert UnlockAll(m1, user, rest) == db.progress;
      assert unlocked == u1 + ChangedTargets(m1, user, rest);
      assert UnlockTargets(submode, level) == [Target(submode, 3)] + rest;
      UnlockAllCons(m, user, Target(submode, 3), rest);
      ChangedTargetsCons(m, user, Target(submode, 3), rest);
    }
  }

  /** A pass of a level other than easy or medium changes nothing and reports
      nothing; no other level value is rejected. */
  lemma UnlockNextOtherLevels(m: Progress, user: UserId, submode: string, level: int)
    requires level != 1 && level != 2
    ensures UnlockAll(m, user, UnlockTargets(submode, level)) == m
    ensures ChangedTargets(m, user, UnlockTargets(submode, level)) == []
  {
  }

  /** Calling `unlock_next` twice in a row with the same arguments reports
      nothing the second time and leaves the table as the first call left it. */
  lemma UnlockNextIdempotent(m: Progress, user: UserId, submode: string, level: int)
    ensures var ts := UnlockTargets(submode, level);
            var m1 := UnlockAll(m, user, ts);
            ChangedTargets(m1, user, ts) == [] && UnlockAll(m1, user, ts) == m1
  {
    UnlockAllIdempotent(m, user, UnlockTargets(submode, level));
  }

  /** `unlock_next` reports exactly the targets that were locked or missing
      before the call, and leaves every target unlocked. */
  lemma UnlockNextReportsChanges(m: Progress, user: UserId, submode: string, level: int)
    ensures var ts := UnlockTargets(submode, level);
            (forall t :: t in ChangedTargets(m, user, ts) <==> t in ts && !IsUnlocked(m, KeyOf(user, t)))
            && (forall t :: t in ts ==> IsUnlocked(UnlockAll(m, user, ts), KeyOf(user, t)))
  {
    UnlockTargetsDistinct(submode, level);
    ChangedTargetsExact(m, user, UnlockTargets(submode, level));
    UnlockAllUnlocks(m, user, UnlockTargets(submode, level));
  }

  /** `unlock_next` is monotone and local: no flag goes from true to false,
      `passed` and `passed_at` never change, and every row other than the
      rule's targets for this user, including every row of other users, is
      untouched. */
  lemma UnlockNextMonotoneLocal(m: Progress, user: UserId, submode: string, level: int, k: Key)
    ensures Monotone(m, UnlockAll(m, user, UnlockTargets(submode, level)))
    ensures (k.user != user || k.level !in {2, 3, 1} || (level != 1 && level != 2)) ==>
              var r := UnlockAll(m, user, UnlockTargets(submode, level));
              (k in r <==> k in m) && (k in m ==> r[k] == m[k])
  {
    UnlockAllMonotone(m, user, UnlockTargets(submode, level));
    if k.user != user || k.level !in {2, 3, 1} || (level != 1 && level != 2) {
      UnlockAllLocal(m, user, UnlockTargets(submode, level), k);
    }
  }

  /** Onboarding and `unlock_next` both keep every row unlocked and every
      passed row timestamped. */
  lemma ServiceKeepsWellFormed(m: Progress, user: UserId, submode: string, level: int)
    requires WellFormed(m)
    ensures WellFormed(Initialized(m, user))
    ensures WellFormed(UnlockAll(m, user, UnlockTargets(submode, level)))
  {
    InitializedWellFormed(m, user);
    UnlockAllWellFormed(m, user, UnlockTargets(submode, level));
  }
}
