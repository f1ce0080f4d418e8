/**
 * The rate limiter: the `rate_limits` table, one row per (IP address,
 * action) pair, counting failed attempts and holding a block deadline.
 *
 * Times are whole seconds. The table's `datetime("now")` reads the database
 * clock, which is UTC; the window start and the block deadline are written
 * with PHP's `date()`, which reads the configured time zone. The model keeps
 * both: `now` is the UTC reading and `offset` the zone's distance from UTC,
 * so PHP's reading is `now + offset`. Both are compared as numbers, as the
 * `Y-m-d H:i:s` strings of the source compare in time order.
 */
module RateLimitService {
  import opened Php

  const DefaultMaxAttempts: int := 5
  const DefaultWindowMinutes: int := 15
  const DefaultBlockMinutes: int := 30

  /** The primary key of `rate_limits`. */
  datatype Key = Key(ip: string, action: string)

  /** A row of `rate_limits`: the attempt count, the database time of the last attempt, the block deadline. */
  datatype Entry = Entry(attempts: int, lastAttemptAt: int, blockedUntil: Option<int>)

  type Table = map<Key, Entry>

  /** A `rate_limit_block` entry of `security_logs`, with the details it records. */
  datatype BlockLog = BlockLog(ip: string, action: string, maxAttempts: int, blockMinutes: int)

  function Max(a: int, b: int): int { if a < b then b else a }

  /** `getAttempts`: the stored count when the last attempt is after the window start, 0 otherwise. */
  function Attempts(t: Table, k: Key, windowStart: int): int
  {
    if k in t && t[k].lastAttemptAt > windowStart then t[k].attempts else 0
  }

  /** `isBlocked`: the pair has a deadline after the database's current time. */
  predicate Blocked(t: Table, k: Key, now: int)
  {
    k in t && t[k].blockedUntil.Some? && t[k].blockedUntil.value > now
  }

  /** `getBlockTimeRemaining` at database time `now`, PHP's time being `now + offset`. */
  function BlockTimeRemaining(t: Table, k: Key, now: int, offset: int): (s: int)
    ensures s >= 0
    ensures !Blocked(t, k, now) ==> s == 0
  {
    if Blocked(t, k, now) then Max(0, t[k].blockedUntil.value - (now + offset)) else 0
  }

  /** Whether `cleanup` deletes a row: its last attempt is before the window start and it is not blocked now. */
  predicate Expired(e: Entry, windowStart: int, now: int)
  {
    e.lastAttemptAt < windowStart && (e.blockedUntil.None? || e.blockedUntil.value < now)
  }

  /** The table `cleanup` leaves. */
  function Cleaned(t: Table, windowStart: int, now: int): (r: Table)
    ensures r.Keys <= t.Keys
    ensures forall k :: k in t ==> (k in r <==> !Expired(t[k], windowStart, now))
    ensures forall k :: k in r ==> r[k] == t[k]
  {
    map k | k in t && !Expired(t[k], windowStart, now) :: t[k]
  }

  /** A blocked pair survives `cleanup` and stays blocked. */
  lemma CleanupKeepsBlocks(t: Table, k: Key, windowStart: int, now: int)
    requires Blocked(t, k, now)
    ensures Blocked(Cleaned(t, windowStart, now), k, now)
  {
    assert !Expired(t[k], windowStart, now);
  }

  /** The table after the upsert of `recordAttempt`: a new row with one attempt, or one more attempt. */
  function Recorded(t: Table, k: Key, now: int): (r: Table)
    ensures k in r && r[k].lastAttemptAt == now
    ensures r[k].attempts == (if k in t then t[k].attempts + 1 else 1)
    ensures r[k].blockedUntil == (if k in t then t[k].blockedUntil else None)
    ensures forall j :: j != k ==> (j in r <==> j in t) && (j in t ==> r[j] == t[j])
  {
    if k in t then t[k := t[k].(attempts := t[k].attempts + 1, lastAttemptAt := now)]
    else t[k := Entry(1, now, None)]
  }

  /** Whether the attempt `recordAttempt` stores brings the count read in the window to the limit. */
  predicate ReachesLimit(t: Table, k: Key, now: int, windowStart: int, maxAttempts: int)
  {
    Attempts(Recorded(t, k, now), k, windowStart) >= maxAttempts
  }

  /**
   * The table `recordAttempt` leaves: one more attempt for the pair, and the
   * deadline `until` once the count reaches the limit; the other rows are kept.
   */
  function AfterAttempt(t: Table, k: Key, now: int, windowStart: int, maxAttempts: int, until: int): (r: Table)
    ensures k in r && r[k].lastAttemptAt == now
    ensures r[k].attempts == (if k in t then t[k].attempts + 1 else 1)
    ensures r[k].blockedUntil == if ReachesLimit(t, k, now, windowStart, maxAttempts) then Some(until)
                                 else if k in t then t[k].blockedUntil else None
    ensures forall j :: j != k ==> (j in r <==> j in t) && (j in t ==> r[j] == t[j])
  {
    var r := Recorded(t, k, now);
    if ReachesLimit(t, k, now, windowStart, maxAttempts) then r[k := r[k].(blockedUntil := Some(until))] else r
  }

  /**
   * With one clock for both sides, or any zone behind the window's length,
   * an attempt just recorded is inside the window: the count `getAttempts`
   * reads is the stored count plus one.
   */
  lemma RecordedAttemptCounts(t: Table, k: Key, now: int, offset: int, windowMinutes: int)
    requires offset < windowMinutes * 60
    ensures Attempts(Recorded(t, k, now), k, now + offset - windowMinutes * 60)
         == (if k in t then t[k].attempts + 1 else 1)
  {
  }

  /**
   * With the zone at least the window's length ahead of UTC (Europe/Paris is
   * one or two hours ahead, the window 15 minutes), the window start is after
   * the database time just stored: the attempt is never counted.
   */
  lemma AheadZoneForgetsAttempts(t: Table, k: Key, now: int, offset: int, windowMinutes: int)
    requires offset >= windowMinutes * 60
    ensures Attempts(Recorded(t, k, now), k, now + offset - windowMinutes * 60) == 0
  {
  }

  class Service {
    const maxAttempts: int
    const windowMinutes: int
    const blockMinutes: int
    /** The configured zone's distance from UTC, in seconds. */
    const offset: int
    /** `rate_limits`. */
    var rows: Table
    /** The `rate_limit_block` rows of `security_logs`, oldest first. */
    var logs: seq<BlockLog>

    constructor(table: Table, zoneOffset: int)
      ensures rows == table && logs == [] && offset == zoneOffset
      ensures maxAttempts == DefaultMaxAttempts && windowMinutes == DefaultWindowMinutes
      ensures blockMinutes == DefaultBlockMinutes
    {
      maxAttempts := DefaultMaxAttempts;
      windowMinutes := DefaultWindowMinutes;
      blockMinutes := DefaultBlockMinutes;
      offset := zoneOffset;
      rows := table;
      logs := [];
    }

    /** The window start PHP computes at database time `now`. */
    function WindowStart(now: int): int
      reads this
    {
      now + offset - windowMinutes * 60
    }

    /** `cleanup`. */
    method Cleanup(now: int)
      modifies this`rows
      ensures rows == Cleaned(old(rows), WindowStart(now), now)
    {
      rows := Cleaned(rows, WindowStart(now), now);
    }

    /** `isBlocked`. */
    method IsBlocked(ip: string, action: string, now: int) returns (b: bool)
      ensures b <==> Blocked(rows, Key(ip, action), now)
    {
      var k := Key(ip, action);
      b := k in rows && rows[k].blockedUntil.Some? && rows[k].blockedUntil.value > now;
    }

    /** `getAttempts`. */
    method GetAttempts(ip: string, action: string, now: int) returns (n: int)
      ensures n == Attempts(rows, Key(ip, action), WindowStart(now))
      ensures Key(ip, action) !in rows ==> n == 0
    {
      var k := Key(ip, action);
      n := 0;
      if k in rows && rows[k].lastAttemptAt > WindowStart(now) {
        n := rows[k].attempts;
      }
    }

    /**
     * `isAllowed`: after the cleanup, false while the pair is blocked and
     * otherwise whether its recent attempts are under the maximum.
     */
    method IsAllowed(ip: string, action: string, now: int) returns (ok: bool)
      modifies this`rows
      ensures rows == Cleaned(old(rows), WindowStart(now), now)
      ensures ok <==> !Blocked(rows, Key(ip, action), now)
                      && Attempts(rows, Key(ip, action), WindowStart(now)) < maxAttempts
      ensures Blocked(old(rows), Key(ip, action), now) ==> !ok
    {
      Cleanup(now);
      var blocked := IsBlocked(ip, action, now);
      if blocked {
        return false;
      }
      var attempts := GetAttempts(ip, action, now);
      ok := attempts < maxAttempts;
      if Blocked(old(rows), Key(ip, action), now) {
        CleanupKeepsBlocks(old(rows), Key(ip, action), WindowStart(now), now);
      }
    }

    /** `block`: the deadline is `blockMinutes` after PHP's time, and the block is logged. */
    method Block(ip: string, action: string, now: int)
      modifies this`rows, this`logs
      ensures rows == if Key(ip, action) in old(rows)
                      then old(rows)[Key(ip, action) := old(rows)[Key(ip, action)].(blockedUntil := Some(now + offset + blockMinutes * 60))]
                      else old(rows)
      ensures logs == old(logs) + [BlockLog(ip, action, maxAttempts, blockMinutes)]
    {
      var k := Key(ip, action);
      if k in rows {
        rows := rows[k := rows[k].(blockedUntil := Some(now + offset + blockMinutes * 60))];
      }
      logs := logs + [BlockLog(ip, action, maxAttempts, blockMinutes)];
    }

    /**
     * `recordAttempt`: one more attempt at the database time `now`; returns
     * the attempts left, and blocks the pair once the count read back
     * reaches the maximum.
     */
    method RecordAttempt(ip: string, action: string, now: int) returns (remaining: int)
      modifies this`rows, this`logs
      ensures var k := Key(ip, action);
        && remaining == Max(0, maxAttempts - Attempts(Recorded(old(rows), k, now), k, WindowStart(now)))
        && remaining >= 0
        && rows == AfterAttempt(old(rows), k, now, WindowStart(now), maxAttempts, now + offset + blockMinutes * 60)
        && logs == old(logs) + (if ReachesLimit(old(rows), k, now, WindowStart(now), maxAttempts)
                                then [BlockLog(ip, action, maxAttempts, blockMinutes)] else [])
    {
      var k := Key(ip, action);
      rows := Recorded(rows, k, now);
      var attempts := GetAttempts(ip, action, now);
      remaining := Max(0, maxAttempts - attempts);
      if attempts >= maxAttempts {
        Block(ip, action, now);
      }
    }

    /** `reset`: the pair's row is deleted, every other row kept. */
    method Reset(ip: string, action: string)
      modifies this`rows
      ensures rows == old(rows) - {Key(ip, action)}
      ensures forall now :: !Blocked(rows, Key(ip, action), now)
      ensures forall start :: Attempts(rows, Key(ip, action), start) == 0
    {
      rows := rows - {Key(ip, action)};
    }

    /**
     * `getBlockTimeRemaining`: 0 unless blocked; else the seconds from PHP's
     * time to the deadline, never negative.
     */
    method GetBlockTimeRemaining(ip: string, action: string, now: int) returns (s: int)
      ensures s == BlockTimeRemaining(rows, Key(ip, action), now, offset)
    {
      var blocked := IsBlocked(ip, action, now);
      if !blocked {
        return 0;
      }
      s := Max(0, rows[Key(ip, action)].blockedUntil.value - (now + offset));
    }
  }

  /**
   * On one clock, a pair blocked at database time `now` by `recordAttempt`
   * is refused by `isAllowed` for the following `blockMinutes`, and reports
   * the time left to the deadline.
   */
  lemma BlockHolds(t: Table, k: Key, now: int, later: int, blockMinutes: int, windowStart: int)
    requires k in t && t[k].blockedUntil == Some(now + blockMinutes * 60)
    requires now <= later < now + blockMinutes * 60
    ensures Blocked(t, k, later)
    ensures Blocked(Cleaned(t, windowStart, later), k, later)
    ensures BlockTimeRemaining(t, k, later, 0) == now + blockMinutes * 60 - later > 0
  {
    CleanupKeepsBlocks(t, k, windowStart, later);
  }
}
