/**
 * Index arithmetic shared by the three slide sets of the home page (the hero
 * carousel, the CTA carousels and the 3D gallery): each keeps one current
 * index and moves it with `setActive((index + count) % count)`.
 */
module Rotation {
  import opened Js

  /**
   * The index `setActive(index)` stores, exactly as written: `(index + count) % count`
   * with JavaScript's truncating `%`. It lands in range only when `index >= -count`.
   */
  function WrapAsWritten(index: int, count: int): (r: int)
    requires count > 0
    ensures index >= -count ==> 0 <= r < count
    ensures index < -count ==> -count < r <= 0
  {
    JsRem(index + count, count)
  }

  /** With five slides, an index of -6 (a dot whose attribute says "-6") is stored as -1: no slide is in range. */
  lemma WrapAsWrittenLeavesRange()
    ensures WrapAsWritten(-6, 5) == -1
    ensures !(0 <= WrapAsWritten(-6, 5) < 5)
  {
  }

  /**
   * The slide position an index denotes: `index` itself when it is in range,
   * and otherwise the position `count` steps closer (the mathematical modulo).
   */
  function Wrap(index: int, count: int): (r: int)
    requires count > 0
    ensures 0 <= r < count
    ensures 0 <= index < count ==> r == index
    decreases if index < 0 then -index else 0, if index < 0 then 0 else index
  {
    if 0 <= index < count then index
    else if index < 0 then Wrap(index + count, count)
    else Wrap(index - count, count)
  }

  /** Wrapping is periodic: indices `count` apart denote the same slide. */
  lemma WrapPeriodic(x: int, count: int)
    requires count > 0
    ensures Wrap(x + count, count) == Wrap(x, count)
    ensures Wrap(x - count, count) == Wrap(x, count)
  {
  }

  /** On a non-negative dividend JavaScript's `%` is the mathematical modulo. */
  lemma {:induction false} JsRemOfNonNegative(a: int, count: int)
    requires count > 0 && a >= 0
    ensures JsRem(a, count) == Wrap(a, count)
    decreases a
  {
    if a >= count {
      JsRemOfNonNegative(a - count, count);
    }
  }

  /** JavaScript's `%` always lands on the same slide as the dividend: its result is congruent to it modulo the count. */
  lemma {:induction false} JsRemCongruent(a: int, count: int)
    requires count > 0
    ensures Wrap(JsRem(a, count), count) == Wrap(a, count)
    decreases if a < 0 then -a else a
  {
    if a >= count {
      JsRemCongruent(a - count, count);
      WrapPeriodic(a - count, count);
    } else if a <= -count {
      JsRemCongruent(a + count, count);
      WrapPeriodic(a + count, count);
    }
  }

  /** For every index `next`, `prev` and in-range dots can produce, the corrected wrap is the one the scripts compute. */
  lemma WrapAgreesWithSource(index: int, count: int)
    requires count > 0 && index >= -count
    ensures Wrap(index, count) == WrapAsWritten(index, count)
  {
    JsRemOfNonNegative(index + count, count);
    WrapPeriodic(index, count);
  }

  /** Stepping from a wrapped index is the same as stepping first and wrapping afterwards. */
  lemma {:induction false} WrapStep(x: int, d: int, count: int)
    requires count > 0
    ensures Wrap(Wrap(x, count) + d, count) == Wrap(x + d, count)
    decreases if x < 0 then -x else 0, if x < 0 then 0 else x
  {
    if x < 0 {
      var y := x + count;
      calc {
        Wrap(Wrap(x, count) + d, count);
        { assert Wrap(x, count) == Wrap(y, count); }
        Wrap(Wrap(y, count) + d, count);
        { WrapStep(y, d, count); }
        Wrap(y + d, count);
        { WrapPeriodic(x + d, count); assert y + d == (x + d) + count; }
        Wrap(x + d, count);
      }
    } else if x >= count {
      var y := x - count;
      calc {
        Wrap(Wrap(x, count) + d, count);
        { assert Wrap(x, count) == Wrap(y, count); }
        Wrap(Wrap(y, count) + d, count);
        { WrapStep(y, d, count); }
        Wrap(y + d, count);
        { WrapPeriodic(x + d, count); assert y + d == (x + d) - count; }
        Wrap(x + d, count);
      }
    }
  }

  /** `prev` undoes `next` and `next` undoes `prev`. */
  lemma NextPrevInverse(k: int, count: int)
    requires count > 0 && 0 <= k < count
    ensures Wrap(Wrap(k + 1, count) - 1, count) == k
    ensures Wrap(Wrap(k - 1, count) + 1, count) == k
  {
    WrapStep(k + 1, -1, count);
    WrapStep(k - 1, 1, count);
  }

  /** The index reached from `k` after `m` calls of `next`. */
  function AfterNexts(k: int, m: nat, count: int): (r: int)
    requires count > 0 && 0 <= k < count
    ensures 0 <= r < count
  {
    if m == 0 then k else Wrap(AfterNexts(k, m - 1, count) + 1, count)
  }

  /** `m` calls of `next` advance the index by `m` modulo the count. */
  lemma {:induction false} AfterNextsIsWrap(k: int, m: nat, count: int)
    requires count > 0 && 0 <= k < count
    ensures AfterNexts(k, m, count) == Wrap(k + m, count)
  {
    if m > 0 {
      AfterNextsIsWrap(k, m - 1, count);
      WrapStep(k + m - 1, 1, count);
    }
  }

  /** `count` calls of `next` return every slide set to the index it started from. */
  lemma NextCycle(k: int, count: int)
    requires count > 0 && 0 <= k < count
    ensures AfterNexts(k, count, count) == k
  {
    AfterNextsIsWrap(k, count, count);
    WrapPeriodic(k, count);
  }

  /** `prev` from the first slide goes to the last (with five slides, from 0 to 4), in the source's arithmetic too. */
  lemma PrevFromFirst(count: int)
    requires count > 0
    ensures Wrap(0 - 1, count) == count - 1
    ensures WrapAsWritten(0 - 1, count) == count - 1
  {
  }
}
