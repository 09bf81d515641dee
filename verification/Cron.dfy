/** A cron expression, as far as the scheduler knows it: the least occurrence after an instant. */
module Cron {
  import opened Wrappers

  type Cron = int -> Option<int>

  /** `next(x)` is strictly after `x`, and nothing between the two has a different answer: it is
      the least occurrence after `x`. No occurrence after `x` means none after anything later. */
  ghost predicate IsCron(next: Cron) {
    (forall x :: next(x).Some? ==> x < next(x).value) &&
    (forall x, y :: x <= y && (next(x).Some? ==> y < next(x).value) ==> next(y) == next(x))
  }

  /** `t` is an occurrence: it is what follows the instant before it. */
  predicate Occurs(next: Cron, t: int) {
    next(t - 1) == Some(t)
  }

  lemma NextOccurs(next: Cron, x: int)
    requires IsCron(next) && next(x).Some?
    ensures Occurs(next, next(x).value)
  {
  }

  /** The next occurrence is the least one: any later occurrence is at or after it. */
  lemma NextIsLeast(next: Cron, x: int, t: int)
    requires IsCron(next) && x < t && Occurs(next, t)
    ensures next(x).Some? && next(x).value <= t
  {
  }

  /** What is due at `now` of a schedule that points at `from`: `from` and every occurrence after it. */
  function Due(next: Cron, from: int, now: int): (due: seq<int>)
    requires IsCron(next)
    ensures from <= now ==> |due| > 0 && due[0] == from
    decreases now - from
  {
    if from > now then []
    else [from] + match next(from) case None => [] case Some(n) => Due(next, n, now)
  }

  /** Each due point is followed by the next one, and the last by the least occurrence after `now`. */
  lemma {:induction false} DueChain(next: Cron, from: int, now: int, i: nat)
    requires IsCron(next) && from <= now && i < |Due(next, from, now)|
    ensures var due := Due(next, from, now);
            from <= due[i] <= now &&
            (i + 1 < |due| ==> next(due[i]) == Some(due[i + 1])) &&
            (i + 1 == |due| ==> next(due[i]) == next(now))
    decreases now - from
  {
    if next(from).None? || now < next(from).value {
      assert next(now) == next(from);
      assert Due(next, from, now) == [from];
    } else {
      var n := next(from).value;
      assert Due(next, from, now) == [from] + Due(next, n, now);
      if i > 0 {
        DueChain(next, n, now, i - 1);
      }
    }
  }

  /** The due points are the first one and exactly the occurrences after it up to `now`. */
  lemma {:induction false} DueAreTheOccurrences(next: Cron, from: int, now: int, t: int)
    requires IsCron(next) && from <= now
    ensures t in Due(next, from, now) <==> t == from || (from < t <= now && Occurs(next, t))
    decreases now - from
  {
    if from < t && Occurs(next, t) {
      NextIsLeast(next, from, t);
    }
    if next(from).Some? {
      var n := next(from).value;
      NextOccurs(next, from);
      if n <= now {
        DueAreTheOccurrences(next, n, now, t);
      }
    }
  }

  /** A later look at the same schedule sees the same points first. */
  lemma {:induction false} DueGrows(next: Cron, from: int, now: int, later: int)
    requires IsCron(next) && now <= later
    ensures Due(next, from, now) <= Due(next, from, later)
    decreases now - from
  {
    if from <= now && next(from).Some? {
      DueGrows(next, next(from).value, now, later);
    }
  }

  /** From the `k`-th due point on, what is due is the rest. */
  lemma {:induction false} DueFrom(next: Cron, from: int, now: int, k: nat)
    requires IsCron(next) && from <= now && k < |Due(next, from, now)|
    ensures Due(next, Due(next, from, now)[k], now) == Due(next, from, now)[k..]
    decreases k
  {
    if k > 0 {
      DueFrom(next, next(from).value, now, k - 1);
    }
  }
}
