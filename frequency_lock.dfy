/**
 * `@FrequencyLock` and its aspect: the annotated service method runs only
 * while its caller holds the Redisson lock named by the annotation's key;
 * a caller that cannot take the lock gets a `FrequencyException`.
 *
 * Redisson locks are reentrant: a lock records its owning thread and how
 * many times that thread holds it.
 */
module FrequencyLocking {
  import opened Wrappers
  import opened Failures

  /** The annotation's attributes and defaults (`leaseTime` 10, seconds). */
  datatype FrequencyLock = FrequencyLock(key: string, waitTime: int, leaseTime: int, msg: string)

  const DEFAULT_WAIT_TIME: int := 0
  const DEFAULT_LEASE_TIME: int := 10
  const DEFAULT_MSG: string := "操作过于频繁，请稍后再试"

  datatype Hold = Hold(owner: int, count: nat)

  /** A lock held by another thread: the no-wait `tryLock` fails. */
  predicate LockBusy(holds: map<string, Hold>, key: string, thread: int) {
    key in holds && holds[key].owner != thread
  }

  /** The lock table once `thread` has taken (or re-entered) the lock on `key`. */
  function Taken(holds: map<string, Hold>, key: string, thread: int): (r: map<string, Hold>)
    ensures key in r && r[key].owner == thread && r[key].count >= 1
    ensures forall k :: k in holds && k != key ==> k in r && r[k] == holds[k]
  {
    holds[key := if key in holds && holds[key].owner == thread then Hold(thread, holds[key].count + 1) else Hold(thread, 1)]
  }

  /** The lock table once one hold on `key` is given up: the key is free after its last hold. */
  function Released(holds: map<string, Hold>, key: string): (r: map<string, Hold>)
    requires key in holds
    ensures key in r <==> holds[key].count > 1
    ensures key in r ==> r[key] == Hold(holds[key].owner, holds[key].count - 1)
    ensures forall k :: k != key ==> (k in r <==> k in holds) && (k in holds ==> r[k] == holds[k])
  {
    if holds[key].count <= 1 then holds - {key}
    else holds[key := Hold(holds[key].owner, holds[key].count - 1)]
  }

  /**
   * Taking a free (or re-entrant) lock and releasing it again leaves the
   * lock table as it was.
   */
  lemma {:induction false} EnterExitRestores(holds: map<string, Hold>, key: string, thread: int)
    requires forall k :: k in holds ==> holds[k].count >= 1
    requires !LockBusy(holds, key, thread)
    ensures Released(Taken(holds, key, thread), key) == holds
  {
    var entered := Taken(holds, key, thread);
    if key in holds {
      assert Released(entered, key) == entered[key := Hold(thread, entered[key].count - 1)];
      assert entered[key := Hold(thread, entered[key].count - 1)] == holds;
    } else {
      assert Released(entered, key) == entered - {key};
      assert entered - {key} == holds;
    }
  }

  /** The locks Redisson keeps, by name. */
  class LockTable {
    var holds: map<string, Hold>

    ghost predicate Valid()
      reads this
    {
      forall k :: k in holds ==> holds[k].count >= 1
    }

    constructor ()
      ensures Valid() && holds == map[]
    {
      holds := map[];
    }

    /** `isHeldByCurrentThread`. */
    predicate IsHeldBy(key: string, thread: int)
      reads this
    {
      key in holds && holds[key].owner == thread
    }

    /**
     * `tryLock(waitTime, leaseTime, unit)`: succeeds at once when the lock
     * is free or already the caller's; when another thread holds it, it
     * succeeds only if waiting is allowed and that thread releases it in
     * time (`releasedInTime`, decided by the other thread).
     */
    method TryLock(key: string, thread: int, waitTime: int, releasedInTime: bool) returns (ok: bool)
      requires Valid()
      modifies this
      ensures Valid()
      ensures ok <==> !LockBusy(old(holds), key, thread) || (waitTime > 0 && releasedInTime)
      ensures ok ==> holds == Taken(old(holds), key, thread)
      ensures !ok ==> holds == old(holds)
    {
      if key in holds && holds[key].owner == thread {
        holds := holds[key := Hold(thread, holds[key].count + 1)];
        return true;
      }
      if key !in holds || (waitTime > 0 && releasedInTime) {
        holds := holds[key := Hold(thread, 1)];
        return true;
      }
      return false;
    }

    /** `unlock`: one hold fewer; the lock is free when the last hold goes. */
    method Unlock(key: string, thread: int)
      requires Valid() && IsHeldBy(key, thread)
      modifies this
      ensures Valid()
      ensures holds == Released(old(holds), key)
    {
      var h := holds[key];
      if h.count == 1 {
        holds := holds - {key};
      } else {
        holds := holds[key := Hold(thread, h.count - 1)];
      }
    }

    /** The lease runs out: Redis drops the lock whoever holds it. */
    method LeaseExpires(key: string)
      requires Valid()
      modifies this
      ensures Valid() && holds == old(holds) - {key}
    {
      holds := holds - {key};
    }
  }

  /**
   * `parseSpelKey`: a key without '#' is used as it is, and so is one whose
   * method parameter names cannot be discovered; otherwise the key is the
   * text of the expression's value (`value`, evaluated over the arguments),
   * or "" when the value is null.
   */
  function ParseSpelKey(keyExpression: string, paramNames: Option<seq<string>>, value: Option<string>): (r: string)
    ensures '#' !in keyExpression ==> r == keyExpression
    ensures paramNames.None? || paramNames.value == [] ==> r == keyExpression
    ensures '#' in keyExpression && paramNames.Some? && paramNames.value != [] ==> r == value.GetOr("")
  {
    if '#' !in keyExpression then keyExpression
    else if paramNames.None? || paramNames.value == [] then keyExpression
    else if value.None? then ""
    else value.value
  }

  /**
   * The part of `around` before `proceed`: take the lock (without waiting
   * unless `waitTime > 0`), or fail with TOO_BUSY and the annotation's
   * message, leaving the locks as they were.
   */
  method Enter(locks: LockTable, lockKey: string, config: FrequencyLock, thread: int, releasedInTime: bool)
    returns (isLocked: Result<bool, Failure>)
    requires locks.Valid()
    modifies locks
    ensures locks.Valid()
    ensures isLocked.Ok? <==> !LockBusy(old(locks.holds), lockKey, thread) || (config.waitTime > 0 && releasedInTime)
    ensures isLocked.Ok? ==> isLocked.value && locks.holds == Taken(old(locks.holds), lockKey, thread)
    ensures isLocked.Err? ==> isLocked.error == FrequencyError(TOO_BUSY_CODE, config.msg) && locks.holds == old(locks.holds)
  {
    var ok;
    if config.waitTime > 0 {
      ok := locks.TryLock(lockKey, thread, config.waitTime, releasedInTime);
    } else {
      ok := locks.TryLock(lockKey, thread, 0, releasedInTime);
    }
    if !ok {
      return Err(FrequencyError(TOO_BUSY_CODE, config.msg));
    }
    return Ok(true);
  }

  /** The `finally` of `around`: unlock only a lock this call took and this thread still holds. */
  method Exit(locks: LockTable, lockKey: string, thread: int, isLocked: bool)
    requires locks.Valid()
    modifies locks
    ensures locks.Valid()
    ensures !(isLocked && old(locks.IsHeldBy(lockKey, thread))) ==> locks.holds == old(locks.holds)
    ensures isLocked && old(locks.IsHeldBy(lockKey, thread)) ==> locks.holds == Released(old(locks.holds), lockKey)
  {
    if isLocked && locks.IsHeldBy(lockKey, thread) {
      locks.Unlock(lockKey, thread);
    }
  }

  /**
   * Two threads submitting under the same key with no waiting: the second
   * is turned away while the first holds the lock, and once the first
   * has left, a later attempt gets through.
   */
  method DuplicateSubmissionRejected(lockKey: string, config: FrequencyLock, first: int, second: int)
    returns (a: Result<bool, Failure>, b: Result<bool, Failure>, c: Result<bool, Failure>)
    requires first != second && config.waitTime <= 0
    ensures a == Ok(true)
    ensures b == Err(FrequencyError(TOO_BUSY_CODE, config.msg))
    ensures c == Ok(true)
  {
    var locks := new LockTable();
    a := Enter(locks, lockKey, config, first, true);
    b := Enter(locks, lockKey, config, second, true);
    Exit(locks, lockKey, first, a.Ok?);
    c := Enter(locks, lockKey, config, second, true);
  }
}
