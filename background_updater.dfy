/** The daily background pass over the cached metadata records: each step
    picks the record with the oldest `updated_at` and, if it was written
    before today's start time, refreshes that user's role connection; the
    pass ends at the first step that finds nothing to do. Timers and the
    pacing between steps are not modelled; the clock is a parameter. */
module BackgroundUpdater {
  import opened Wrappers
  import opened RoleConnectionModel
  import opened RoleConnectionMetadata
  import opened Database
  import opened Update

  const SecondsPerDay: int := 86400

  /** `replace_time`: the instant on the day of `now` (UTC) whose time of
      day is that of `start`. */
  function Today(now: int, start: int): (today: int)
    ensures today / SecondsPerDay == now / SecondsPerDay
    ensures today % SecondsPerDay == start % SecondsPerDay
  {
    DayStart(now) + start % SecondsPerDay
  }

  /** Midnight (UTC) of the day of `t`. */
  function DayStart(t: int): (m: int)
    ensures m % SecondsPerDay == 0 && m / SecondsPerDay == t / SecondsPerDay
  {
    (t / SecondsPerDay) * SecondsPerDay
  }

  /** Whether the oldest cached record was written before `today`: the only
      case in which a step does any work. */
  predicate Due(t: Tables, today: int) {
    GetOldestMetadata(t).Some? && today > GetOldestMetadata(t).value.1
  }

  /** A step has work exactly when some cached record was written before
      `today`. */
  lemma DueIffOlderRecord(t: Tables, today: int)
    ensures Due(t, today) <==> exists i :: 0 <= i < |t.metadata| && t.metadata[i].updatedAt < today
  {
  }

  /** `update_next_metadata`: nothing to do (an empty table, or an oldest
      record already written today) gives `Ok(None)`; otherwise the oldest
      record's user is updated, giving `Ok(Some(()))` or the update's
      error. */
  method UpdateNextMetadata(pool: Pool, today: int, env: Env) returns (r: Result<Option<()>, UpdateError>)
    requires ValidEnv(env)
    ensures !Due(pool.tables, today) ==> r == Ok(None)
    ensures Due(pool.tables, today) ==>
      var updated := RoleConnectionUpdate(pool.tables, GetOldestMetadata(pool.tables).value.0, env);
      && (updated.Ok? ==> r == Ok(Some(())))
      && (updated.Err? ==> r == Err(updated.error))
  {
    var oldest := GetOldestMetadata(pool.tables);
    if oldest.None? {
      return Ok(None);
    }
    var (id, updatedAt) := oldest.value;
    if today > updatedAt {
      var updated := UpdateRoleConnection(pool, id, env);
      if updated.Err? {
        return Err(updated.error);
      }
      r := Ok(Some(()));
    } else {
      r := Ok(None);
    }
  }

  /** How a daily pass stopped: a step found nothing to do, a step
      panicked (ending the background task), or the observed number of
      steps ran out. */
  datatype PassEnd = Finished | Panicked(error: UpdateError) | OutOfFuel

  /** What one update returns. */
  type Outcome = Result<RoleConnection<RoleConnectionData>, UpdateError>

  /** The number of the first `n` outcomes that are successes. */
  ghost function CountOk(outcomes: nat -> Outcome, n: nat): nat {
    if n == 0 then 0 else CountOk(outcomes, n - 1) + (if outcomes(n - 1).Ok? then 1 else 0)
  }

  /** Whether an update's outcome is a panic. */
  predicate Panics(u: Outcome) {
    u.Err? && IsPanic(u.error)
  }

  /** The inner loop of `background_updater`, observed for at most `fuel`
      steps; step `i` meets the outside world `envs(i)`, and `outcomes(i)`
      names what updating the oldest record's user returns there. Since an
      update writes no metadata, the oldest record stays the same: a pass
      that finds a due record never finishes, and otherwise finishes at
      once. While records are due, `successful` counts the steps whose
      update succeeded and `failed` those whose update failed without
      panicking. */
  method DailyPass(pool: Pool, now: int, start: int, envs: nat -> Env, fuel: nat, ghost outcomes: nat -> Outcome)
    returns (successful: nat, failed: nat, end: PassEnd)
    requires forall i: nat :: ValidEnv(envs(i))
    requires Due(pool.tables, Today(now, start)) ==>
      forall i: nat {:trigger envs(i)} :: outcomes(i) == RoleConnectionUpdate(pool.tables, GetOldestMetadata(pool.tables).value.0, envs(i))
    ensures successful + failed <= fuel
    ensures end == OutOfFuel ==> successful + failed == fuel
    ensures end.Finished? <==> fuel > 0 && !Due(pool.tables, Today(now, start))
    ensures end.Finished? ==> successful == 0 && failed == 0
    ensures end.Panicked? ==> IsPanic(end.error) && Due(pool.tables, Today(now, start))
    ensures Due(pool.tables, Today(now, start)) ==>
      && successful == CountOk(outcomes, successful + failed)
      && (forall i: nat :: i < successful + failed ==> !Panics(outcomes(i)))
      && (end.Panicked? ==> outcomes(successful + failed) == Err(end.error))
  {
    var today := Today(now, start);
    ghost var due := Due(pool.tables, today);
    successful, failed := 0, 0;
    end := OutOfFuel;
    var i: nat := 0;
    while i < fuel
      invariant i <= fuel
      invariant successful + failed == i
      invariant !due ==> i == 0
      invariant due ==> successful == CountOk(outcomes, i)
      invariant due ==> forall k: nat :: k < i ==> !Panics(outcomes(k))
      invariant end == OutOfFuel
      decreases fuel - i
    {
      var next := UpdateNextMetadata(pool, today, envs(i));
      assert due ==> (outcomes(i).Ok? ==> next == Ok(Some(()))) && (outcomes(i).Err? ==> next == Err(outcomes(i).error));
      if next == Ok(None) {
        end := Finished;
        break;
      } else if next.Ok? {
        successful := successful + 1;
      } else if IsPanic(next.error) {
        end := Panicked(next.error);
        break;
      } else {
        failed := failed + 1;
      }
      i := i + 1;
    }
  }
}
