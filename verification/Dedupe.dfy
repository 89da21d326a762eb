/**
 The dedupe window of one (link, visitor) pair.

 The tracking script runs SET key NX EX 1800: the event counts exactly when the
 key does not exist, and a counted event creates the key for thirty minutes.
 This module describes that key, the subsequence of events it lets through, and
 proves that this greedy choice is the best possible one.
 */
module Dedupe {
  import opened Wrappers
  import opened Limits

  /** Whether SET NX succeeds at `now`, given the expiry of the key if it was ever set. */
  predicate Counts(expiry: Option<int>, now: int) {
    expiry.None? || expiry.value <= now
  }

  /** The expiry of the key after the script has run at `now`. */
  function Touch(expiry: Option<int>, now: int): Option<int> {
    if Counts(expiry, now) then Some(now + DEDUPE_WINDOW) else expiry
  }

  /** The times among `ts` at which the script counts a view. */
  function Counted(expiry: Option<int>, ts: seq<int>): seq<int>
    decreases |ts|
  {
    if ts == [] then []
    else (if Counts(expiry, ts[0]) then [ts[0]] else []) + Counted(Touch(expiry, ts[0]), ts[1..])
  }

  predicate Ordered(ts: seq<int>) {
    forall i, j :: 0 <= i < j < |ts| ==> ts[i] <= ts[j]
  }

  /** Consecutive picks are at least one window apart. */
  predicate Separated(us: seq<int>) {
    forall i :: 0 < i < |us| ==> us[i - 1] + DEDUPE_WINDOW <= us[i]
  }

  ghost predicate Subset(us: seq<int>, ts: seq<int>) {
    forall u :: u in us ==> u in ts
  }

  /** Counted views are one window apart, and the first one waits for the key to expire. */
  lemma {:induction false} CountedIsSeparated(expiry: Option<int>, ts: seq<int>)
    ensures Separated(Counted(expiry, ts))
    ensures Subset(Counted(expiry, ts), ts)
    ensures Counted(expiry, ts) != [] && expiry.Some? ==> expiry.value <= Counted(expiry, ts)[0]
    decreases |ts|
  {
    if ts != [] {
      CountedIsSeparated(Touch(expiry, ts[0]), ts[1..]);
    }
  }

  /** An event that is not counted falls inside the window opened by a counted one. */
  lemma {:induction false} UncountedIsCovered(expiry: Option<int>, ts: seq<int>, t: int)
    requires Ordered(ts) && t in ts && t !in Counted(expiry, ts)
    ensures (expiry.Some? && t < expiry.value)
         || exists c :: c in Counted(expiry, ts) && c <= t < c + DEDUPE_WINDOW
    decreases |ts|
  {
    var rest := Counted(Touch(expiry, ts[0]), ts[1..]);
    assert forall c :: c in rest ==> c in Counted(expiry, ts);
    if t == ts[0] {
    } else {
      UncountedIsCovered(Touch(expiry, ts[0]), ts[1..], t);
      if Counts(expiry, ts[0]) {
        assert ts[0] in Counted(expiry, ts);
      }
    }
  }

  /**
   No other choice of events one window apart, starting after the key expires, is
   larger. The greedy choice stays ahead: it takes the earliest event it can, so
   the rest of any other choice still starts after the greedy window closes.
   */
  lemma {:induction false} CountedIsLargest(expiry: Option<int>, ts: seq<int>, us: seq<int>)
    requires Ordered(ts) && Separated(us) && Subset(us, ts)
    requires us != [] && expiry.Some? ==> expiry.value <= us[0]
    ensures |us| <= |Counted(expiry, ts)|
    decreases |ts|
  {
    if us == [] {
    } else {
      assert us[0] in ts;
      var t, rest := ts[0], ts[1..];
      SeparatedIsIncreasing(us);
      if Counts(expiry, t) {
        forall u | u in us[1..] ensures u in rest { assert u in ts && u > us[0] >= t; }
        CountedIsLargest(Some(t + DEDUPE_WINDOW), rest, us[1..]);
      } else {
        forall u | u in us ensures u in rest { assert u in ts && u >= us[0] > t; }
        CountedIsLargest(expiry, rest, us);
      }
    }
  }

  lemma {:induction false} SeparatedIsIncreasing(us: seq<int>)
    requires Separated(us)
    ensures forall i, j :: 0 <= i < j < |us| ==> us[i] < us[j]
    decreases |us|
  {
    if |us| > 1 {
      SeparatedIsIncreasing(us[..|us| - 1]);
      forall i | 0 <= i < |us| - 1 ensures us[i] < us[|us| - 1] {
        assert us[i] <= us[|us| - 2];
      }
    }
  }
}
