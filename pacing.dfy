/**
 * The request pacer behind `safe_request`: a request counter and the time of
 * the last stamped request. A call first waits out whatever is missing from
 * the minimum spacing since the last stamp, stamps the current time, counts the
 * request, and after every tenth request sleeps a further random 15 to 30
 * seconds. Time is an abstract clock; a sleep advances it by its duration.
 */
module Pacing {

  const MinDelay: real := 5.0
  const CooldownEvery: nat := 10
  const CooldownMin: real := 15.0
  const CooldownMax: real := 30.0

  /** The wall clock: `time.time()` reads `now`, `time.sleep(d)` advances it by `d`. */
  class Clock {
    var now: real

    constructor (start: real)
      ensures now == start
    {
      now := start;
    }

    method Sleep(d: real)
      requires 0.0 <= d
      modifies this
      ensures now == old(now) + d
    {
      now := now + d;
    }
  }

  /** The pacer's state: requests issued so far and the time of the last stamp. */
  datatype Pacer = Pacer(count: nat, last: real)

  /** The state after one paced request and the clock reading when the call returns. */
  datatype Paced = Paced(state: Pacer, returnsAt: real)

  /** The wait before stamping: the least non-negative delay that brings the time since the last stamp up to `MinDelay`. */
  function Shortfall(elapsed: real): (w: real)
    ensures 0.0 <= w
    ensures MinDelay <= elapsed + w
    ensures w == 0.0 || elapsed + w == MinDelay
    ensures 0.0 <= elapsed ==> w <= MinDelay
  {
    if elapsed < MinDelay then MinDelay - elapsed else 0.0
  }

  predicate CooldownDue(count: nat)
  {
    count % CooldownEvery == 0
  }

  /**
   * One `safe_request` call arriving at clock time `now`, with `longWait` the
   * value the random draw would give for the cooldown.
   */
  function Throttle(p: Pacer, now: real, longWait: real): (r: Paced)
    requires CooldownMin <= longWait <= CooldownMax
    ensures r.state.count == p.count + 1
    ensures p.last + MinDelay <= r.state.last && now <= r.state.last
    ensures r.state.last == now || r.state.last == p.last + MinDelay
    ensures CooldownDue(r.state.count) ==> r.state.last + CooldownMin <= r.returnsAt <= r.state.last + CooldownMax
    ensures !CooldownDue(r.state.count) ==> r.returnsAt == r.state.last
  {
    var stamped := now + Shortfall(now - p.last);
    var count := p.count + 1;
    Paced(Pacer(count, stamped), if CooldownDue(count) then stamped + longWait else stamped)
  }

  /** A paced request as seen by the caller: time spent elsewhere before it, and its cooldown draw. */
  datatype Call = Call(gap: real, longWait: real)

  predicate WellFormed(calls: seq<Call>)
  {
    forall i :: 0 <= i < |calls| ==> 0.0 <= calls[i].gap && CooldownMin <= calls[i].longWait <= CooldownMax
  }

  /** A run of paced requests starting from state `p` at clock time `now`. */
  function Run(p: Pacer, now: real, calls: seq<Call>): Paced
    requires WellFormed(calls)
    decreases |calls|
  {
    if calls == [] then Paced(p, now)
    else
      var r := Throttle(p, now + calls[0].gap, calls[0].longWait);
      Run(r.state, r.returnsAt, calls[1..])
  }

  /** How many of the requests numbered `count + 1 .. count + n` are followed by a long cooldown. */
  function Cooldowns(count: nat, n: nat): nat
    decreases n
  {
    if n == 0 then 0 else (if CooldownDue(count + 1) then 1 else 0) + Cooldowns(count + 1, n - 1)
  }

  lemma {:induction false} CooldownsClosedForm(count: nat, n: nat)
    ensures Cooldowns(count, n) == (count + n) / CooldownEvery - count / CooldownEvery
    decreases n
  {
    if n > 0 {
      CooldownsClosedForm(count + 1, n - 1);
      assert (count + 1) / 10 == count / 10 + (if (count + 1) % 10 == 0 then 1 else 0);
    }
  }

  /**
   * Over any run of `n` requests the counter grows by exactly `n` and the stamps
   * are at least `MinDelay` apart, so the last stamp is `n * MinDelay` or more
   * after the stamp that preceded the run.
   */
  lemma {:induction false} RunSpacing(p: Pacer, now: real, calls: seq<Call>)
    requires WellFormed(calls)
    ensures Run(p, now, calls).state.count == p.count + |calls|
    ensures p.last + (|calls| as real) * MinDelay <= Run(p, now, calls).state.last
    decreases |calls|
  {
    if calls != [] {
      var r := Throttle(p, now + calls[0].gap, calls[0].longWait);
      assert WellFormed(calls[1..]) by {
        forall i | 0 <= i < |calls[1..]| ensures 0.0 <= calls[1..][i].gap && CooldownMin <= calls[1..][i].longWait <= CooldownMax {
          assert calls[1..][i] == calls[i + 1];
        }
      }
      RunSpacing(r.state, r.returnsAt, calls[1..]);
    }
  }

  /**
   * Every tenth request costs at least the minimum cooldown: a run of `n`
   * requests from counter `count` takes at least `15 * ((count + n) / 10 - count / 10)`
   * seconds of clock time.
   */
  lemma {:induction false} RunCooldownTime(p: Pacer, now: real, calls: seq<Call>)
    requires WellFormed(calls)
    ensures now + CooldownMin * (Cooldowns(p.count, |calls|) as real) <= Run(p, now, calls).returnsAt
    ensures now + CooldownMin * (((p.count + |calls|) / CooldownEvery - p.count / CooldownEvery) as real) <= Run(p, now, calls).returnsAt
    decreases |calls|
  {
    CooldownsClosedForm(p.count, |calls|);
    if calls != [] {
      var r := Throttle(p, now + calls[0].gap, calls[0].longWait);
      assert WellFormed(calls[1..]) by {
        forall i | 0 <= i < |calls[1..]| ensures 0.0 <= calls[1..][i].gap && CooldownMin <= calls[1..][i].longWait <= CooldownMax {
          assert calls[1..][i] == calls[i + 1];
        }
      }
      RunCooldownTime(r.state, r.returnsAt, calls[1..]);
      assert |calls[1..]| == |calls| - 1;
      assert r.returnsAt >= now + (if CooldownDue(p.count + 1) then CooldownMin else 0.0);
    }
  }
}
