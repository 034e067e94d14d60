/**
  A ticker that fires at most once per interval (src/utils/interval.rs).
  Times are milliseconds since the Unix epoch; the clock reading is a
  parameter `now` instead of a call to the system clock.
 */
module Intervals {

  /** The firing condition: more than `interval` milliseconds have passed since `last`. */
  predicate Fires(last: nat, interval: nat, now: nat) {
    last + interval < now
  }

  /** The delta a firing tick records: zero on the first ever firing, else the time since the last one. */
  function FiringDelta(last: nat, now: nat): nat
    requires last < now
  {
    if last != 0 then now - last else 0
  }

  /** The value of `last` after a tick at `now`. */
  function NextLast(last: nat, interval: nat, now: nat): (r: nat)
    ensures r >= last
    ensures Fires(last, interval, now) ==> r == now
    ensures !Fires(last, interval, now) ==> r == last
  {
    if Fires(last, interval, now) then now else last
  }

  /** A firing tick moves strictly forward in time, and a later firing records more than one interval. */
  lemma FiringAdvances(last: nat, interval: nat, now: nat)
    requires Fires(last, interval, now)
    ensures last < now
    ensures last != 0 ==> FiringDelta(last, now) > interval
    ensures last == 0 ==> FiringDelta(last, now) == 0
  {
  }

  /** The clock readings at which a run of ticks fires, starting from `last`. */
  function Firings(last: nat, interval: nat, nows: seq<nat>): seq<nat>
    decreases nows
  {
    if nows == [] then []
    else if Fires(last, interval, nows[0]) then [nows[0]] + Firings(nows[0], interval, nows[1..])
    else Firings(last, interval, nows[1..])
  }

  /** Consecutive firings are more than an interval apart, and the first is more than an interval after `last`. */
  lemma {:induction false} FiringsAreSpaced(last: nat, interval: nat, nows: seq<nat>)
    ensures var f := Firings(last, interval, nows);
      (|f| > 0 ==> last + interval < f[0]) &&
      forall k :: 0 < k < |f| ==> f[k - 1] + interval < f[k]
    decreases nows
  {
    if nows != [] {
      if Fires(last, interval, nows[0]) {
        FiringsAreSpaced(nows[0], interval, nows[1..]);
      } else {
        FiringsAreSpaced(last, interval, nows[1..]);
      }
    }
  }

  /** The value of `last` after a run of ticks at the readings `nows`, one `NextLast` per tick. */
  function LastAfter(last: nat, interval: nat, nows: seq<nat>): nat
    decreases nows
  {
    if nows == [] then last else LastAfter(NextLast(last, interval, nows[0]), interval, nows[1..])
  }

  /**
    The firings of a run are the ticks that change `last`: a run with no
    firing leaves `last` alone, and otherwise `last` ends at the latest firing.
   */
  lemma {:induction false} FiringsMatchTicks(last: nat, interval: nat, nows: seq<nat>)
    ensures var f := Firings(last, interval, nows);
      LastAfter(last, interval, nows) == if f == [] then last else f[|f| - 1]
    decreases nows
  {
    if nows != [] {
      if Fires(last, interval, nows[0]) {
        FiringsMatchTicks(nows[0], interval, nows[1..]);
      } else {
        FiringsMatchTicks(last, interval, nows[1..]);
      }
    }
  }

  class Interval {
    var interval: nat
    var last: nat
    var delta: nat

    /** `Interval::new(d)` for a duration of `millis` milliseconds. */
    constructor (millis: nat)
      ensures interval == millis && last == 0 && delta == 0
    {
      interval := millis;
      last := 0;
      delta := 0;
    }

    method Tick(now: nat) returns (fired: bool)
      modifies this
      ensures fired == Fires(old(last), interval, now)
      ensures interval == old(interval)
      ensures last == NextLast(old(last), interval, now)
      ensures fired ==> delta == FiringDelta(old(last), now)
      ensures !fired ==> last == old(last) && delta == old(delta)
    {
      if last + interval < now {
        delta := if last != 0 then now - last else 0;
        last := now;
        return true;
      }
      return false;
    }

    function Delta(): nat
      reads this
    {
      delta
    }
  }
}
