/**
The write-security guard of internal/api/security_guard.go: one timed failure counter per
(scope, subject), reset by a quiet gap, escalated once, blocked for an interval, and
garbage-collected on the way.

A time is a count of nanoseconds in which 0 stands for Go's zero time.Time.
*/
module Throttle {

  type Time = nat

  const SECOND: nat := 1_000_000_000
  const MINUTE: nat := 60 * SECOND
  const PROBE_WINDOW: nat := 10 * MINUTE
  const RETENTION: nat := 2 * PROBE_WINDOW
  const WRITE_AUTH := Policy(2 * MINUTE, 5, 90 * SECOND)
  const WRITE_PROBE := Policy(PROBE_WINDOW, 3, 0)

  datatype Key = Key(scope: string, subject: string)

  datatype Policy = Policy(window: int, threshold: int, block: int)

  datatype Counter = Counter(count: nat, lastAt: Time, blockedUntil: Time, firstSeen: bool, escalated: bool)

  const FRESH := Counter(0, 0, 0, false, false)

  datatype Reply =
    | Observed(count: nat, blockedUntil: Time, first: bool, escalated: bool)
    | Cleared
    | Answer(blocked: bool, retryAfter: nat)

  // ----- what one counter does ---------------------------------------------------------

  predicate Blocking(c: Counter, now: Time) {
    c.blockedUntil != 0 && now < c.blockedUntil
  }

  predicate Quiet(c: Counter, now: Time, gap: int) {
    c.lastAt == 0 || now - c.lastAt > gap
  }

  /** The counter a failure is added to: a quiet gap outside a block starts afresh. */
  function Renewed(c: Counter, p: Policy, now: Time): Counter {
    if !Blocking(c, now) && Quiet(c, now, p.window) then FRESH else c
  }

  predicate Escalates(c: Counter, p: Policy) {
    p.threshold > 0 && c.count + 1 >= p.threshold && !c.escalated
  }

  /** One more failure on a counter that has already been renewed. */
  function Bumped(c: Counter, p: Policy, now: Time): Counter {
    Counter(c.count + 1, now,
            if Escalates(c, p) && p.block > 0 then now + p.block else c.blockedUntil,
            true, c.escalated || Escalates(c, p))
  }

  predicate Expired(c: Counter, now: Time) {
    !Blocking(c, now) && Quiet(c, now, RETENTION)
  }

  // ----- what the table of counters does -----------------------------------------------

  type Table = map<Key, Counter>

  function At(m: Table, key: Key): Counter {
    if key in m then m[key] else FRESH
  }

  function Prune(m: Table, now: Time): Table {
    map key | key in m && !Expired(m[key], now) :: m[key]
  }

  datatype Op =
    | Fail(key: Key, policy: Policy, at: Time)
    | Clear(key: Key, at: Time)
    | Ask(key: Key, at: Time)

  function Effect(m: Table, op: Op): Table {
    match op
    case Fail(key, p, now) => m[key := Bumped(Renewed(At(m, key), p, now), p, now)]
    case Clear(key, now) => m - {key}
    case Ask(_, _) => m
  }

  function ReplyTo(m: Table, op: Op): Reply {
    match op
    case Fail(key, p, now) =>
      var before := Renewed(At(m, key), p, now);
      var after := Bumped(before, p, now);
      Observed(after.count, after.blockedUntil, !before.firstSeen, Escalates(before, p))
    case Clear(_, _) => Cleared
    case Ask(key, now) =>
      if key in m && Blocking(m[key], now) then Answer(true, m[key].blockedUntil - now) else Answer(false, 0)
  }

  /** One call on the guard: failures and clears end with a sweep, a question does not. */
  function Step(m: Table, op: Op): Table {
    if op.Ask? then Effect(m, op) else Prune(Effect(m, op), op.at)
  }

  /** The guard itself. Each method is one of the three operations, done in place. */
  class WriteSecurityGuard {
    var counters: Table

    constructor ()
      ensures counters == map[]
    {
      counters := map[];
    }

    method Blocked(key: Key, now: Time) returns (blocked: bool, retryAfter: nat)
      ensures Answer(blocked, retryAfter) == ReplyTo(counters, Ask(key, now))
    {
      if key !in counters || counters[key].blockedUntil == 0 || !(now < counters[key].blockedUntil) {
        return false, 0;
      }
      return true, counters[key].blockedUntil - now;
    }

    method Clear(key: Key, now: Time)
      modifies this
      ensures counters == Step(old(counters), Op.Clear(key, now))
    {
      counters := counters - {key};
      PruneExpired(now);
    }

    method ObserveFailure(key: Key, p: Policy, now: Time)
      returns (count: nat, blockedUntil: Time, first: bool, escalated: bool)
      modifies this
      ensures counters == Step(old(counters), Fail(key, p, now))
      ensures Observed(count, blockedUntil, first, escalated) == ReplyTo(old(counters), Fail(key, p, now))
    {
      var tracker := if key in counters then counters[key] else FRESH;
      if tracker.blockedUntil == 0 || !(now < tracker.blockedUntil) {
        if tracker.lastAt == 0 || now - tracker.lastAt > p.window {
          tracker := FRESH;
        }
      }
      tracker := tracker.(count := tracker.count + 1, lastAt := now);
      first := false;
      if !tracker.firstSeen {
        tracker := tracker.(firstSeen := true);
        first := true;
      }
      escalated := false;
      if p.threshold > 0 && tracker.count >= p.threshold && !tracker.escalated {
        tracker := tracker.(escalated := true);
        escalated := true;
        if p.block > 0 {
          tracker := tracker.(blockedUntil := now + p.block);
        }
      }
      counters := counters[key := tracker];
      PruneExpired(now);
      count, blockedUntil := tracker.count, tracker.blockedUntil;
    }

    method PruneExpired(now: Time)
      modifies this
      ensures counters == Prune(old(counters), now)
    {
      var unseen := counters.Keys;
      while unseen != {}
        invariant unseen <= counters.Keys <= old(counters).Keys
        invariant forall k :: k in counters ==> counters[k] == old(counters)[k]
        invariant forall k :: k in old(counters) ==>
          (k in counters <==> k in unseen || !Expired(old(counters)[k], now))
        decreases unseen
      {
        var key :| key in unseen;
        unseen := unseen - {key};
        var tracker := counters[key];
        if tracker.blockedUntil != 0 && now < tracker.blockedUntil {
          continue;
        }
        if tracker.lastAt == 0 || now - tracker.lastAt > 2 * PROBE_WINDOW {
          counters := counters - {key};
        }
      }
    }
  }
}
