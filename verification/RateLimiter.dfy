/**
 Pacing calls: every caller reserves the next free slot under a lock and sleeps until it.
 */
module RateLimiter {

  /** The smallest distance between slots. */
  function Interval(count: nat, period: real): real
    requires count > 0
  {
    period / (count as real)
  }

  /** The earliest slot for the i-th reservation. */
  ghost function Earliest(interval: real, arrivals: seq<real>, slots: seq<real>, i: nat): real
    requires i < |arrivals| == |slots|
  {
    var free := if i == 0 then 0.0 else slots[i - 1] + interval;
    if free > arrivals[i] then free else arrivals[i]
  }

  /** Slots are handed out in order, each as early as the spacing and the caller's arrival allow. */
  ghost predicate Paced(interval: real, arrivals: seq<real>, slots: seq<real>) {
    |arrivals| == |slots| && forall i :: 0 <= i < |slots| ==> slots[i] == Earliest(interval, arrivals, slots, i)
  }

  class Limiter {
    const count: nat
    const period: real
    const minInterval: real
    var nextFree: real

    /** When each reservation was made, and the slot it got. */
    ghost var arrivals: seq<real>
    ghost var slots: seq<real>

    constructor (count: nat, period: real)
      requires count > 0 && period > 0.0
      ensures Valid() && this.count == count && this.period == period && slots == [] && nextFree == 0.0
    {
      this.count, this.period, nextFree := count, period, 0.0;
      minInterval := period / (count as real);
      arrivals, slots := [], [];
    }

    ghost predicate Valid()
      reads this
    {
      && count > 0 && period > 0.0 && minInterval == Interval(count, period) && minInterval > 0.0
      && Paced(minInterval, arrivals, slots)
      && nextFree == if slots == [] then 0.0 else slots[|slots| - 1] + minInterval
    }

    /** Reserve a slot; the caller sleeps until then. */
    method Acquire(now: real) returns (slot: real)
      requires Valid() && (arrivals != [] ==> arrivals[|arrivals| - 1] <= now)
      modifies this`nextFree, this`arrivals, this`slots
      ensures Valid() && arrivals == old(arrivals) + [now] && slots == old(slots) + [slot]
      ensures slot >= now && slot >= old(nextFree) && (slot == now || slot == old(nextFree))
    {
      var wait := nextFree - now;
      nextFree := (if nextFree > now then nextFree else now) + minInterval;
      slot := if wait > 0.0 then now + wait else now;
      arrivals, slots := arrivals + [now], slots + [slot];
      PacedNext(minInterval, old(arrivals), old(slots), now, slot);
    }
  }

  lemma SameEarliest(interval: real, arrivals: seq<real>, slots: seq<real>, now: real, slot: real, i: nat)
    requires |arrivals| == |slots| && i < |slots|
    ensures Earliest(interval, arrivals + [now], slots + [slot], i) == Earliest(interval, arrivals, slots, i)
  {
  }

  lemma PacedNext(interval: real, arrivals: seq<real>, slots: seq<real>, now: real, slot: real)
    requires Paced(interval, arrivals, slots)
    requires slot == Earliest(interval, arrivals + [now], slots + [slot], |slots|)
    ensures Paced(interval, arrivals + [now], slots + [slot])
  {
    hide Earliest;
    forall i | 0 <= i < |slots|
      ensures Earliest(interval, arrivals + [now], slots + [slot], i) == Earliest(interval, arrivals, slots, i)
    {
      SameEarliest(interval, arrivals, slots, now, slot, i);
    }
  }

  lemma OneApart(interval: real, arrivals: seq<real>, slots: seq<real>, i: nat)
    requires Paced(interval, arrivals, slots) && i + 1 < |slots|
    ensures slots[i + 1] >= slots[i] + interval
  {
    assert slots[i + 1] == Earliest(interval, arrivals, slots, i + 1);
  }

  /** Reservations k apart are at least k intervals apart. */
  lemma {:induction false} Apart(interval: real, arrivals: seq<real>, slots: seq<real>, i: nat, j: nat)
    requires Paced(interval, arrivals, slots) && interval > 0.0 && i <= j < |slots|
    ensures slots[j] - slots[i] >= Steps(j - i, interval)
    decreases j - i
  {
    hide Paced;
    if i < j {
      Apart(interval, arrivals, slots, i, j - 1);
      OneApart(interval, arrivals, slots, j - 1);
    }
  }

  /** k intervals. */
  ghost function Steps(k: nat, interval: real): real {
    if k == 0 then 0.0 else Steps(k - 1, interval) + interval
  }

  lemma {:induction false} StepsProduct(k: nat, interval: real)
    ensures Steps(k, interval) == (k as real) * interval
  {
    if k > 0 {
      StepsProduct(k - 1, interval);
      assert (k as real) == ((k - 1) as real) + 1.0;
      OneMoreInterval((k - 1) as real, interval);
    }
  }

  lemma OneMoreInterval(k: real, interval: real)
    ensures (k + 1.0) * interval == k * interval + interval
  {
  }

  /** As many intervals as the count make up the period. */
  lemma PeriodOfSteps(count: nat, period: real)
    requires count > 0
    ensures Steps(count, Interval(count, period)) == period
  {
    StepsProduct(count, Interval(count, period));
    var n := count as real;
    assert n * (period / n) == period;
  }

  lemma {:induction false} StepsGrow(k: nat, m: nat, interval: real)
    requires k <= m && interval > 0.0
    ensures Steps(k, interval) <= Steps(m, interval)
    decreases m
  {
    if k < m {
      StepsGrow(k, m - 1, interval);
    }
  }

  /** The reservations whose slots fall into the window [from, from + period). */
  ghost function InWindow(slots: seq<real>, from: real, period: real): set<nat> {
    set i: nat | i < |slots| && from <= slots[i] < from + period
  }

  lemma {:induction false} RangeCount(s: set<nat>, lo: nat, hi: nat)
    requires lo <= hi && forall i :: i in s ==> lo <= i < hi
    ensures |s| <= hi - lo
    decreases hi
  {
    if lo < hi {
      RangeCount(s - {hi - 1}, lo, hi - 1);
      assert s <= (s - {hi - 1}) + {hi - 1};
      assert |s| <= |s - {hi - 1}| + 1;
    } else {
      assert s == {};
    }
  }

  /** However callers arrive, no window as long as the period holds more than `count` slots. */
  lemma WindowBound(count: nat, period: real, arrivals: seq<real>, slots: seq<real>, from: real)
    requires count > 0 && period > 0.0 && Paced(Interval(count, period), arrivals, slots)
    ensures |InWindow(slots, from, period)| <= count
  {
    hide Interval, Paced, InWindow;
    var window := InWindow(slots, from, period);
    if window != {} {
      var first := Least(window);
      forall i | i in window ensures first <= i < first + count {
        WithinCount(count, period, arrivals, slots, from, first, i);
      }
      RangeCount(window, first, first + count);
    }
  }

  lemma WithinCount(count: nat, period: real, arrivals: seq<real>, slots: seq<real>, from: real, i: nat, j: nat)
    requires count > 0 && period > 0.0 && Paced(Interval(count, period), arrivals, slots)
    requires i in InWindow(slots, from, period) && j in InWindow(slots, from, period) && i <= j
    ensures j < i + count
  {
    hide Steps, Paced;
    var interval := Interval(count, period);
    if j >= i + count {
      Apart(interval, arrivals, slots, i, j);
      StepsGrow(count, j - i, interval);
      PeriodOfSteps(count, period);
      assert false;
    }
  }

  lemma {:induction false} Least(s: set<nat>) returns (m: nat)
    requires s != {}
    ensures m in s && forall i :: i in s ==> m <= i
  {
    var x :| x in s;
    if s == {x} {
      m := x;
    } else {
      assert s - {x} != {};
      m := Least(s - {x});
      assert forall i :: i in s ==> i == x || i in s - {x};
      if x < m {
        m := x;
      }
    }
  }

  /** Consecutive slots are exactly one interval apart just when the later caller is already waiting. */
  lemma ExactSpacing(interval: real, arrivals: seq<real>, slots: seq<real>, i: nat)
    requires Paced(interval, arrivals, slots) && interval > 0.0 && i + 1 < |slots|
    ensures slots[i + 1] - slots[i] >= interval
    ensures slots[i + 1] == slots[i] + interval <==> arrivals[i + 1] <= slots[i] + interval
  {
  }
}
