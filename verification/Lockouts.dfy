/** Brute-force lockout: failed attempts per identifier, and how long an identifier is locked. */
module Lockouts {

  /** How identifiers are normalised, how many failures lock one, and for how many seconds. */
  datatype Policy = Policy(norm: string -> string, maxFailures: int, duration: real)

  /** Times of failures and ends of locks, under normalised identifiers. */
  datatype Record = Record(failures: map<string, seq<real>>, lockedUntil: map<string, real>)

  function Recent(times: seq<real>, now: real, duration: real): (r: seq<real>)
    ensures forall t :: t in r <==> t in times && now - t <= duration
  {
    if times == [] then []
    else if now - times[0] <= duration then [times[0]] + Recent(times[1..], now, duration)
    else Recent(times[1..], now, duration)
  }

  function FailuresOf(failures: map<string, seq<real>>, key: string): seq<real> {
    if key in failures then failures[key] else []
  }

  predicate Locked(l: Record, key: string, now: real) {
    key in l.lockedUntil && l.lockedUntil[key] > now
  }

  /** A check forgets an expired lock with its failures, and failures that are too old. */
  function Checked(p: Policy, l: Record, key: string, now: real): Record {
    if Locked(l, key, now) then l
    else
      var kept := if key in l.lockedUntil then l.failures - {key} else l.failures;
      Record(kept[key := Recent(FailuresOf(kept, key), now, p.duration)], l.lockedUntil - {key})
  }

  function Failed(p: Policy, l: Record, key: string, now: real): Record {
    var recent := Recent(FailuresOf(l.failures, key), now, p.duration) + [now];
    Record(l.failures[key := recent],
           if |recent| >= p.maxFailures then l.lockedUntil[key := now + p.duration] else l.lockedUntil)
  }

  function Cleared(l: Record, key: string): Record {
    Record(l.failures - {key}, l.lockedUntil - {key})
  }

  class LockoutManager {
    const policy: Policy
    var failures: map<string, seq<real>>
    var lockedUntil: map<string, real>

    constructor (policy: Policy, l: Record)
      ensures this.policy == policy && View() == l
    {
      this.policy, failures, lockedUntil := policy, l.failures, l.lockedUntil;
    }

    ghost function View(): Record
      reads this
    {
      Record(failures, lockedUntil)
    }

    method CheckLockout(identifier: string, now: real) returns (locked: bool)
      modifies this
      ensures locked == Locked(old(View()), policy.norm(identifier), now)
      ensures View() == Checked(policy, old(View()), policy.norm(identifier), now)
    {
      var key := policy.norm(identifier);
      if key in lockedUntil && lockedUntil[key] > now {
        return true;
      }
      if key in lockedUntil {
        lockedUntil := lockedUntil - {key};
        failures := failures - {key};
      }
      failures := failures[key := Recent(FailuresOf(failures, key), now, policy.duration)];
      return false;
    }

    method RecordFailure(identifier: string, now: real)
      modifies this
      ensures View() == Failed(policy, old(View()), policy.norm(identifier), now)
    {
      var key := policy.norm(identifier);
      var recent := Recent(FailuresOf(failures, key), now, policy.duration) + [now];
      failures := failures[key := recent];
      if |recent| >= policy.maxFailures {
        lockedUntil := lockedUntil[key := now + policy.duration];
      }
    }

    method Reset(identifier: string)
      modifies this
      ensures View() == Cleared(old(View()), policy.norm(identifier))
    {
      var key := policy.norm(identifier);
      failures := failures - {key};
      lockedUntil := lockedUntil - {key};
    }
  }

  /** A check finds an identifier locked exactly until the end of its lock, and then changes nothing.  Otherwise it
      leaves no lock, all failures recent enough, or none where a lock has run out; other identifiers stay. */
  lemma CheckedExactly(p: Policy, l: Record, key: string, now: real)
    ensures Locked(l, key, now) ==> Checked(p, l, key, now) == l
    ensures !Locked(l, key, now) ==>
              var m := Checked(p, l, key, now);
              && key !in m.lockedUntil && key in m.failures
              && forall t :: t in m.failures[key] <==>
                   key !in l.lockedUntil && t in FailuresOf(l.failures, key) && now - t <= p.duration
    ensures OthersSame(l, Checked(p, l, key, now), key)
    ensures OthersSame(l, Failed(p, l, key, now), key) && OthersSame(l, Cleared(l, key), key)
  {
  }

  /** The two records agree on every identifier but one. */
  ghost predicate OthersSame(l: Record, m: Record, key: string) {
    forall k :: k != key ==>
      && (k in l.failures <==> k in m.failures) && (k in l.failures ==> l.failures[k] == m.failures[k])
      && (k in l.lockedUntil <==> k in m.lockedUntil) && (k in l.lockedUntil ==> l.lockedUntil[k] == m.lockedUntil[k])
  }

  /** Failures at the given times, one after the other. */
  function FailedAt(p: Policy, l: Record, key: string, times: seq<real>): Record {
    if times == [] then l
    else Failed(p, FailedAt(p, l, key, times[..|times| - 1]), key, times[|times| - 1])
  }

  /** The times lie within one lockout period and do not go back. */
  ghost predicate Burst(times: seq<real>, duration: real) {
    forall i, j :: 0 <= i <= j < |times| ==> 0.0 <= times[j] - times[i] <= duration
  }

  lemma {:induction false} RecentAll(times: seq<real>, now: real, duration: real)
    requires forall i :: 0 <= i < |times| ==> now - times[i] <= duration
    ensures Recent(times, now, duration) == times
  {
    if times != [] {
      RecentAll(times[1..], now, duration);
      assert now - times[0] <= duration;
    }
  }

  /** A burst of failures on a clean identifier is remembered in full, and locks it exactly when it is long
      enough: until one period after its last failure. */
  lemma {:induction false} BurstLocksExactly(p: Policy, l: Record, key: string, times: seq<real>)
    requires Burst(times, p.duration) && key !in l.failures && key !in l.lockedUntil && times != []
    ensures var after := FailedAt(p, l, key, times);
            && FailuresOf(after.failures, key) == times
            && (key in after.lockedUntil <==> |times| >= p.maxFailures)
            && (key in after.lockedUntil ==> after.lockedUntil[key] == times[|times| - 1] + p.duration)
  {
    var front, last := times[..|times| - 1], times[|times| - 1];
    var before := FailedAt(p, l, key, front);
    if front == [] {
      assert before == l;
    } else {
      BurstLocksExactly(p, l, key, front);
    }
    assert times == front + [last];
    forall i | 0 <= i < |front| ensures last - front[i] <= p.duration {
      assert times[i] == front[i];
    }
    FailedOnce(p, before, key, front, last);
  }

  lemma FailedOnce(p: Policy, l: Record, key: string, times: seq<real>, now: real)
    requires FailuresOf(l.failures, key) == times && forall i :: 0 <= i < |times| ==> now - times[i] <= p.duration
    ensures FailuresOf(Failed(p, l, key, now).failures, key) == times + [now]
    ensures Failed(p, l, key, now).lockedUntil ==
            if |times| + 1 >= p.maxFailures then l.lockedUntil[key := now + p.duration] else l.lockedUntil
  {
    RecentAll(times, now, p.duration);
  }
}
