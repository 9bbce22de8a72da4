/** The persistent state the core reads and writes: the `dc_training_progress`
    rows, one per (user, submode, difficulty level) because of the table's
    unique constraint, and the append-only `dc_training_attempts` rows.

    The functions here say what each kind of row update does to the whole
    table; the services' methods are proved against them. */
module ProgressStore {
  import opened Wrappers
  import opened Campaign

  /** Users are identified by an opaque id issued by the identity service. */
  type UserId = nat

  /** Conversations are identified by an opaque id. */
  type ConversationId = nat

  /** `datetime.utcnow()` values, taken as inputs. */
  type Timestamp = nat

  /** The unique key of a progress row. */
  datatype Key = Key(user: UserId, submode: string, level: int)

  /** The mutable columns of a progress row. */
  datatype Row = Row(isUnlocked: bool, passed: bool, passedAt: Option<Timestamp>)

  /** `AttemptStatus`: the stored outcome of one evaluation. */
  datatype AttemptStatus = Pass | Fail

  /** The evaluator's feedback lists. */
  datatype Feedback = Feedback(observed: seq<string>, interpretation: seq<string>)

  /** One `dc_training_attempts` row (identifier and creation time left out). */
  datatype Attempt = Attempt(
    user: UserId,
    conversation: ConversationId,
    submode: string,
    level: int,
    status: AttemptStatus,
    feedback: Feedback)

  type Progress = map<Key, Row>

  /** The database session the services work on, with each operation taken as
      one committed transaction. */
  class TrainingStore {
    var progress: Progress
    var attempts: seq<Attempt>

    constructor (progress: Progress, attempts: seq<Attempt>)
      ensures this.progress == progress && this.attempts == attempts
    {
      this.progress := progress;
      this.attempts := attempts;
    }
  }

  function KeyOf(user: UserId, t: Target): Key {
    Key(user, t.submode, t.level)
  }

  /** A missing row reads as locked. */
  predicate IsUnlocked(m: Progress, k: Key) {
    k in m && m[k].isUnlocked
  }

  /** A freshly unlocked row: unlocked, not passed, no pass time. */
  const UnlockedRow := Row(true, false, None)

  /** The table after `_unlock(k)`: an absent row is inserted unlocked and not
      passed, a locked row is flipped to unlocked, an unlocked row is left as
      it is. Nothing but `is_unlocked` of `k` can change. */
  function Unlocked(m: Progress, k: Key): (r: Progress)
    ensures r.Keys == m.Keys + {k}
    ensures r[k].isUnlocked
    ensures k !in m ==> r[k] == UnlockedRow
    ensures k in m ==> r[k].passed == m[k].passed && r[k].passedAt == m[k].passedAt
    ensures forall k' :: k' in m && k' != k ==> r[k'] == m[k']
    ensures IsUnlocked(m, k) <==> r == m
  {
    if k !in m then m[k := UnlockedRow]
    else if !m[k].isUnlocked then m[k := m[k].(isUnlocked := true)]
    else m
  }

  /** The table after unlocking each target of `ts` in turn, for `user`. */
  function UnlockAll(m: Progress, user: UserId, ts: seq<Target>): Progress
    decreases |ts|
  {
    if ts == [] then m else UnlockAll(Unlocked(m, KeyOf(user, ts[0])), user, ts[1..])
  }

  /** The targets of `ts` whose `_unlock` reports a state change when they are
      unlocked in turn, in that order. */
  function ChangedTargets(m: Progress, user: UserId, ts: seq<Target>): seq<Target>
    decreases |ts|
  {
    if ts == [] then []
    else
      var k := KeyOf(user, ts[0]);
      (if IsUnlocked(m, k) then [] else [ts[0]]) + ChangedTargets(Unlocked(m, k), user, ts[1..])
  }

  /** The table after `_set_passed(k)`: an existing row gets `passed` and the
      pass time and keeps its `is_unlocked`; an absent row is inserted
      unlocked and passed. */
  function Passed(m: Progress, k: Key, now: Timestamp): (r: Progress)
    ensures r.Keys == m.Keys + {k}
    ensures r[k].passed && r[k].passedAt == Some(now)
    ensures r[k].isUnlocked == (k !in m || m[k].isUnlocked)
    ensures forall k' :: k' in m && k' != k ==> r[k'] == m[k']
  {
    if k in m then m[k := m[k].(passed := true, passedAt := Some(now))]
    else m[k := Row(true, true, Some(now))]
  }

  /** The keys the bootstrap set gives `user`. */
  function InitialKeys(user: UserId): set<Key> {
    set t | t in InitialUnlocks :: KeyOf(user, t)
  }

  /** The bootstrap keys, listed. */
  lemma InitialKeysListed(user: UserId)
    ensures InitialKeys(user) == {KeyOf(user, InitialUnlocks[0]), KeyOf(user, InitialUnlocks[1]),
                                  KeyOf(user, InitialUnlocks[2])}
  {
    forall k | k in InitialKeys(user)
      ensures k in {KeyOf(user, InitialUnlocks[0]), KeyOf(user, InitialUnlocks[1]), KeyOf(user, InitialUnlocks[2])}
    {
      var t :| t in InitialUnlocks && k == KeyOf(user, t);
    }
  }

  /** The rows of users other than `user`. */
  function OtherUsersRows(m: Progress, user: UserId): Progress {
    map k | k in m && k.user != user :: m[k]
  }

  /** The table after `initialize_progress(user)`: every row of `user` is
      deleted, then the bootstrap rows are inserted unlocked and not passed. */
  function Initialized(m: Progress, user: UserId): (r: Progress)
    ensures forall k: Key :: k.user == user ==> (k in r <==> k in InitialKeys(user))
    ensures forall k :: k in r && k.user == user ==> r[k] == UnlockedRow
    ensures forall k: Key :: k.user != user ==> (k in r <==> k in m)
    ensures forall k :: k in m && k.user != user ==> r[k] == m[k]
  {
    OtherUsersRows(m, user) + map k | k in InitialKeys(user) :: UnlockedRow
  }

  /** `onboarding_complete`: the user has at least one progress row. */
  predicate HasRows(m: Progress, user: UserId) {
    exists k :: k in m && k.user == user
  }

  /** The shape every reachable table has: rows are only ever created
      unlocked and never locked again, and a passed row has its pass time. */
  predicate WellFormed(m: Progress) {
    forall k :: k in m ==> m[k].isUnlocked && (m[k].passed ==> m[k].passedAt.Some?)
  }

  /** No flag goes from true to false, pass data is untouched. */
  predicate Monotone(m: Progress, r: Progress) {
    forall k :: k in m ==>
      k in r && (m[k].isUnlocked ==> r[k].isUnlocked)
      && r[k].passed == m[k].passed && r[k].passedAt == m[k].passedAt
  }

  // Lemmas about unlocking a sequence of targets

  /** Unlocking a list is unlocking its head, then its tail. */
  lemma UnlockAllCons(m: Progress, user: UserId, t: Target, rest: seq<Target>)
    ensures UnlockAll(m, user, [t] + rest) == UnlockAll(Unlocked(m, KeyOf(user, t)), user, rest)
  {
    assert ([t] + rest)[1..] == rest;
  }

  lemma ChangedTargetsCons(m: Progress, user: UserId, t: Target, rest: seq<Target>)
    ensures ChangedTargets(m, user, [t] + rest)
            == (if IsUnlocked(m, KeyOf(user, t)) then [] else [t])
               + ChangedTargets(Unlocked(m, KeyOf(user, t)), user, rest)
  {
    assert ([t] + rest)[1..] == rest;
  }

  /** Every target is unlocked afterwards. */
  lemma {:induction false} UnlockAllUnlocks(m: Progress, user: UserId, ts: seq<Target>)
    decreases |ts|
    ensures forall t :: t in ts ==> IsUnlocked(UnlockAll(m, user, ts), KeyOf(user, t))
  {
    if ts != [] {
      var m' := Unlocked(m, KeyOf(user, ts[0]));
      UnlockAllUnlocks(m', user, ts[1..]);
      UnlockAllMonotone(m', user, ts[1..]);
    }
  }

  /** Unlocking never relocks a row and never touches `passed` or `passed_at`. */
  lemma {:induction false} UnlockAllMonotone(m: Progress, user: UserId, ts: seq<Target>)
    decreases |ts|
    ensures Monotone(m, UnlockAll(m, user, ts))
  {
    if ts != [] {
      var m' := Unlocked(m, KeyOf(user, ts[0]));
      UnlockAllMonotone(m', user, ts[1..]);
    }
  }

  /** Only the target keys of `user` can change; every other row, of this or any
      other user, is unchanged, and no other row appears. */
  lemma {:induction false} UnlockAllLocal(m: Progress, user: UserId, ts: seq<Target>, k: Key)
    decreases |ts|
    requires forall t :: t in ts ==> KeyOf(user, t) != k
    ensures var r := UnlockAll(m, user, ts);
            (k in r <==> k in m) && (k in m ==> r[k] == m[k])
  {
    if ts != [] {
      UnlockAllLocal(Unlocked(m, KeyOf(user, ts[0])), user, ts[1..], k);
    }
  }

  /** The reported targets are exactly those that were locked or absent before,
      provided the targets are distinct. */
  lemma {:induction false} ChangedTargetsExact(m: Progress, user: UserId, ts: seq<Target>)
    decreases |ts|
    requires forall i, j :: 0 <= i < j < |ts| ==> ts[i] != ts[j]
    ensures forall t :: t in ChangedTargets(m, user, ts) <==>
              t in ts && !IsUnlocked(m, KeyOf(user, t))
  {
    if ts != [] {
      var k := KeyOf(user, ts[0]);
      var m' := Unlocked(m, k);
      ChangedTargetsExact(m', user, ts[1..]);
      forall t | t in ts[1..]
        ensures IsUnlocked(m', KeyOf(user, t)) == IsUnlocked(m, KeyOf(user, t))
      {
        assert t != ts[0];
      }
    }
  }

  /** When no target was unlocked before, every target is reported. */
  lemma {:induction false} ChangedTargetsAllLocked(m: Progress, user: UserId, ts: seq<Target>)
    decreases |ts|
    requires forall i, j :: 0 <= i < j < |ts| ==> ts[i] != ts[j]
    requires forall t :: t in ts ==> !IsUnlocked(m, KeyOf(user, t))
    ensures ChangedTargets(m, user, ts) == ts
  {
    if ts != [] {
      var m' := Unlocked(m, KeyOf(user, ts[0]));
      forall t | t in ts[1..]
        ensures !IsUnlocked(m', KeyOf(user, t))
      {
        assert t != ts[0];
      }
      ChangedTargetsAllLocked(m', user, ts[1..]);
      assert [ts[0]] + ts[1..] == ts;
    }
  }

  /** `a` is `b` with some elements left out, the rest kept in order. */
  predicate Subsequence<T(==)>(a: seq<T>, b: seq<T>)
    decreases |b|
  {
    if a == [] then true
    else if b == [] then false
    else (a[0] == b[0] && Subsequence(a[1..], b[1..])) || Subsequence(a, b[1..])
  }

  /** The report is an order-preserving selection of the targets. */
  lemma {:induction false} ChangedTargetsShorter(m: Progress, user: UserId, ts: seq<Target>)
    decreases |ts|
    ensures Subsequence(ChangedTargets(m, user, ts), ts)
    ensures |ChangedTargets(m, user, ts)| <= |ts|
    ensures |ChangedTargets(m, user, ts)| == |ts| ==> ChangedTargets(m, user, ts) == ts
  {
    if ts != [] {
      var k := KeyOf(user, ts[0]);
      var rest := ChangedTargets(Unlocked(m, k), user, ts[1..]);
      ChangedTargetsShorter(Unlocked(m, k), user, ts[1..]);
      var r := ChangedTargets(m, user, ts);
      if IsUnlocked(m, k) {
        assert r == rest;
      } else {
        assert r == [ts[0]] + rest;
        assert r[0] == ts[0] && r[1..] == rest;
      }
    }
  }

  /** When every target is already unlocked, nothing changes and nothing is
      reported. */
  lemma {:induction false} UnlockAllWhenUnlocked(m: Progress, user: UserId, ts: seq<Target>)
    decreases |ts|
    requires forall t :: t in ts ==> IsUnlocked(m, KeyOf(user, t))
    ensures UnlockAll(m, user, ts) == m
    ensures ChangedTargets(m, user, ts) == []
  {
    if ts != [] {
      UnlockAllWhenUnlocked(m, user, ts[1..]);
    }
  }

  /** Unlocking the same targets a second time changes nothing and reports
      nothing. */
  lemma UnlockAllIdempotent(m: Progress, user: UserId, ts: seq<Target>)
    ensures UnlockAll(UnlockAll(m, user, ts), user, ts) == UnlockAll(m, user, ts)
    ensures ChangedTargets(UnlockAll(m, user, ts), user, ts) == []
  {
    UnlockAllUnlocks(m, user, ts);
    UnlockAllWhenUnlocked(UnlockAll(m, user, ts), user, ts);
  }

  /** Every row that unlocking creates is unlocked, so the well-formed shape
      is kept. */
  lemma {:induction false} UnlockAllWellFormed(m: Progress, user: UserId, ts: seq<Target>)
    decreases |ts|
    requires WellFormed(m)
    ensures WellFormed(UnlockAll(m, user, ts))
  {
    if ts != [] {
      UnlockAllWellFormed(Unlocked(m, KeyOf(user, ts[0])), user, ts[1..]);
    }
  }

  /** Marking a pass keeps the well-formed shape. */
  lemma PassedWellFormed(m: Progress, k: Key, now: Timestamp)
    requires WellFormed(m)
    ensures WellFormed(Passed(m, k, now))
  {
  }

  /** `passed => is_unlocked` alone is not kept by `_set_passed`: a locked row
      that exists (possible only if something outside these code paths wrote
      it) becomes passed but stays locked. */
  lemma PassedCanLeaveLockedRow(k: Key, now: Timestamp)
    ensures var m := map[k := Row(false, false, None)];
            var r := Passed(m, k, now);
            r[k].passed && !r[k].isUnlocked
  {
  }

  /** Re-initialising gives the same table as initialising once. */
  lemma InitializedIdempotent(m: Progress, user: UserId)
    ensures Initialized(Initialized(m, user), user) == Initialized(m, user)
  {
    var a := Initialized(m, user);
    var b := Initialized(a, user);
    assert b.Keys == a.Keys;
  }

  /** The bootstrap table is well formed and the user has rows in it. */
  lemma InitializedWellFormed(m: Progress, user: UserId)
    requires WellFormed(m)
    ensures WellFormed(Initialized(m, user))
    ensures HasRows(Initialized(m, user), user)
  {
    assert KeyOf(user, InitialUnlocks[0]) in InitialKeys(user);
  }
}
