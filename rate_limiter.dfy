/** The login rate limiter: a per-IP fixed-window attempt counter kept in
    process memory (lib/rate-limiter.ts).  The clock is the explicit `now`
    argument (milliseconds); the periodic clean-up timer is the `Sweep`
    method. */
module RateLimiter {
  import opened Common

  /** The table entry kept for one IP address. */
  datatype Entry = Entry(count: int, firstAttempt: int, lastAttempt: int)

  const FifteenMinutes: int := 15 * 60 * 1000
  const DefaultMaxAttempts: int := 5
  const DefaultWindowMs: int := FifteenMinutes

  /** The new table and the verdict of one `checkRateLimit` call. */
  datatype Decision = Decision(table: map<string, Entry>, allowed: bool)

  function Fresh(now: int): Entry {
    Entry(1, now, now)
  }

  /** One call of `checkRateLimit(ip, maxAttempts, windowMs)` at time `now`. */
  function Check(table: map<string, Entry>, ip: string, maxAttempts: int, windowMs: int, now: int): (d: Decision)
    ensures d.allowed <==> ip !in table || now - table[ip].firstAttempt > windowMs || table[ip].count < maxAttempts
    ensures ip in d.table && d.table[ip].lastAttempt == now
    ensures d.table.Keys == table.Keys + {ip}
    ensures forall other :: other in table && other != ip ==> d.table[other] == table[other]
    ensures d.allowed && (ip !in table || now - table[ip].firstAttempt > windowMs) ==> d.table[ip] == Fresh(now)
    ensures !d.allowed ==> d.table[ip].count == table[ip].count && d.table[ip].firstAttempt == table[ip].firstAttempt
    ensures ip in table && now - table[ip].firstAttempt <= windowMs && d.allowed ==>
              d.table[ip].count == table[ip].count + 1 && d.table[ip].firstAttempt == table[ip].firstAttempt
  {
    if ip !in table then
      Decision(table[ip := Fresh(now)], true)
    else
      var entry := table[ip];
      if now - entry.firstAttempt > windowMs then
        Decision(table[ip := Fresh(now)], true)
      else if entry.count >= maxAttempts then
        Decision(table[ip := entry.(lastAttempt := now)], false)
      else
        Decision(table[ip := entry.(count := entry.count + 1, lastAttempt := now)], true)
  }

  /** `getRemainingAttempts(ip, maxAttempts)` */
  function Remaining(table: map<string, Entry>, ip: string, maxAttempts: int): (r: int)
    ensures ip !in table ==> r == maxAttempts
    ensures ip in table ==> r == Max(0, maxAttempts - table[ip].count)
    ensures ip in table && table[ip].count >= 0 && maxAttempts >= 0 ==> 0 <= r <= maxAttempts
  {
    if ip !in table then maxAttempts else Max(0, maxAttempts - table[ip].count)
  }

  /** `getResetTime(ip, windowMs)` at time `now`. */
  function ResetTime(table: map<string, Entry>, ip: string, windowMs: int, now: int): (r: int)
    ensures ip !in table ==> r == 0
    ensures r >= 0
    ensures ip in table && now >= table[ip].firstAttempt && windowMs >= 0 ==> r <= windowMs
    ensures ip in table && r > 0 ==> now + r == table[ip].firstAttempt + windowMs
  {
    if ip !in table then 0 else Max(0, windowMs - (now - table[ip].firstAttempt))
  }

  /** True of an entry that the clean-up timer removes: idle for more than
      fifteen minutes, whatever window the callers use. */
  predicate Stale(e: Entry, now: int) {
    now - e.lastAttempt > FifteenMinutes
  }

  /** The table after one run of the clean-up timer. */
  function Swept(table: map<string, Entry>, now: int): (r: map<string, Entry>)
    ensures forall ip :: ip in r <==> ip in table && !Stale(table[ip], now)
    ensures forall ip :: ip in r ==> r[ip] == table[ip]
  {
    map ip | ip in table && !Stale(table[ip], now) :: table[ip]
  }

  /** Entries as `checkRateLimit` creates them, with a clock that has reached
      `now`: at least one attempt, first attempt no later than the last. */
  ghost predicate WellFormed(table: map<string, Entry>, now: int) {
    forall ip :: ip in table ==> 1 <= table[ip].count && table[ip].firstAttempt <= table[ip].lastAttempt <= now
  }

  /** With at least one allowed attempt, no counter ever exceeds the limit. */
  ghost predicate Bounded(table: map<string, Entry>, maxAttempts: int) {
    forall ip :: ip in table ==> 1 <= table[ip].count <= maxAttempts
  }

  lemma CheckKeepsInvariants(table: map<string, Entry>, ip: string, maxAttempts: int, windowMs: int, before: int, now: int)
    requires WellFormed(table, before) && before <= now
    requires maxAttempts >= 1 && Bounded(table, maxAttempts)
    ensures WellFormed(Check(table, ip, maxAttempts, windowMs, now).table, now)
    ensures Bounded(Check(table, ip, maxAttempts, windowMs, now).table, maxAttempts)
  {
  }

  /** The allowed attempts and the final table after calls at the times in
      `nows`, in order, all from the same IP. */
  function Run(table: map<string, Entry>, ip: string, maxAttempts: int, windowMs: int, nows: seq<int>): (r: (map<string, Entry>, nat))
    ensures r.1 <= |nows|
  {
    if nows == [] then (table, 0)
    else
      var (t, allowed) := Run(table, ip, maxAttempts, windowMs, nows[..|nows| - 1]);
      var d := Check(t, ip, maxAttempts, windowMs, nows[|nows| - 1]);
      (d.table, allowed + if d.allowed then 1 else 0)
  }

  /** Within one window, opened by the first of the calls, exactly
      min(calls, maxAttempts) calls are allowed: never more than the limit. */
  lemma {:induction false} AtMostMaxPerWindow(table: map<string, Entry>, ip: string, maxAttempts: int, windowMs: int, nows: seq<int>)
    requires maxAttempts >= 1 && nows != []
    requires ip !in table || nows[0] - table[ip].firstAttempt > windowMs
    requires forall i :: 0 <= i < |nows| ==> nows[i] - nows[0] <= windowMs
    ensures ip in Run(table, ip, maxAttempts, windowMs, nows).0
    ensures Run(table, ip, maxAttempts, windowMs, nows).0[ip].firstAttempt == nows[0]
    ensures Run(table, ip, maxAttempts, windowMs, nows).0[ip].count == Min(|nows|, maxAttempts)
    ensures Run(table, ip, maxAttempts, windowMs, nows).1 == Min(|nows|, maxAttempts)
  {
    var prefix := nows[..|nows| - 1];
    if prefix != [] {
      assert prefix[0] == nows[0];
      AtMostMaxPerWindow(table, ip, maxAttempts, windowMs, prefix);
    } else {
      assert Run(table, ip, maxAttempts, windowMs, prefix) == (table, 0);
    }
  }

  /** With the default fifteen-minute window (or any shorter one), removing
      stale entries never changes a later verdict: a stale entry's window
      has already run out. */
  lemma SweepPreservesVerdicts(table: map<string, Entry>, sweepTime: int, ip: string, maxAttempts: int, windowMs: int, now: int)
    requires WellFormed(table, sweepTime) && sweepTime <= now
    requires windowMs <= FifteenMinutes
    ensures Check(Swept(table, sweepTime), ip, maxAttempts, windowMs, now).allowed
         == Check(table, ip, maxAttempts, windowMs, now).allowed
  {
  }

  /** With a window longer than fifteen minutes the sweep can lift a block:
      an IP refused at minute 20 of a 60-minute window is allowed again after
      a sweep at minute 40. */
  lemma SweepLiftsLongWindowBlock()
    ensures var hour := 60 * 60 * 1000;
            var minute := 60 * 1000;
            var table := map["1.2.3.4" := Entry(5, 0, 20 * minute)];
            !Check(table, "1.2.3.4", 5, hour, 41 * minute).allowed &&
            Check(Swept(table, 40 * minute), "1.2.3.4", 5, hour, 41 * minute).allowed
  {
  }

  /** The limiter state of the login endpoint: one table for the process. */
  class LoginLimiter {
    var attempts: map<string, Entry>

    constructor ()
      ensures attempts == map[]
    {
      attempts := map[];
    }

    method CheckRateLimit(ip: string, maxAttempts: int, windowMs: int, now: int) returns (allowed: bool)
      modifies this
      ensures attempts == Check(old(attempts), ip, maxAttempts, windowMs, now).table
      ensures allowed == Check(old(attempts), ip, maxAttempts, windowMs, now).allowed
    {
      if ip !in attempts {
        attempts := attempts[ip := Entry(1, now, now)];
        return true;
      }
      var entry := attempts[ip];
      if now - entry.firstAttempt > windowMs {
        attempts := attempts[ip := Entry(1, now, now)];
        return true;
      }
      if entry.count >= maxAttempts {
        attempts := attempts[ip := entry.(lastAttempt := now)];
        return false;
      }
      attempts := attempts[ip := entry.(count := entry.count + 1, lastAttempt := now)];
      return true;
    }

    function RemainingAttempts(ip: string, maxAttempts: int): (r: int)
      reads this
      ensures ip !in attempts ==> r == maxAttempts
      ensures ip in attempts ==> r == Max(0, maxAttempts - attempts[ip].count)
    {
      Remaining(attempts, ip, maxAttempts)
    }

    function GetResetTime(ip: string, windowMs: int, now: int): (r: int)
      reads this
      ensures ip !in attempts ==> r == 0
      ensures r >= 0
      ensures ip in attempts && r > 0 ==> now + r == attempts[ip].firstAttempt + windowMs
    {
      ResetTime(attempts, ip, windowMs, now)
    }

    /** `clearRateLimit(ip)`: the IP's next check opens a fresh window and no
        other IP's entry changes. */
    method ClearRateLimit(ip: string)
      modifies this
      ensures attempts == old(attempts) - {ip}
      ensures forall maxAttempts, windowMs, now :: Check(attempts, ip, maxAttempts, windowMs, now).allowed
    {
      attempts := attempts - {ip};
    }

    /** One run of the thirty-minute clean-up timer at time `now`. */
    method Sweep(now: int)
      modifies this
      ensures attempts == Swept(old(attempts), now)
    {
      var pending := attempts.Keys;
      while pending != {}
        invariant pending <= old(attempts).Keys
        invariant attempts == map ip | ip in old(attempts) && (ip in pending || !Stale(old(attempts)[ip], now)) :: old(attempts)[ip]
        decreases pending
      {
        var ip :| ip in pending;
        if now - attempts[ip].lastAttempt > FifteenMinutes {
          attempts := attempts - {ip};
        }
        pending := pending - {ip};
      }
    }
  }
}
