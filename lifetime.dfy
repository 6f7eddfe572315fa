/**
 * Lifetime: a rule that maps the date an entry was cached (its anchor) to
 * the date it expires, and the closed date range between the two.
 * Dates are whole seconds.
 */
module Lifetimes {

  type Date = int

  /** The two bounds of a Swift `ClosedRange<Date>`, not yet checked for order. */
  datatype Bounds = Bounds(lowerBound: Date, upperBound: Date)
  {
    /** `ClosedRange.contains`: both bounds are inclusive. */
    predicate Contains(date: Date)
    {
      lowerBound <= date <= upperBound
    }
  }

  /** A range that `lower...upper` can build: Swift traps unless lower <= upper. */
  type ClosedRange = b: Bounds | b.lowerBound <= b.upperBound witness Bounds(0, 0)

  /** An immutable rule from the anchor date to the expiry date. */
  datatype Lifetime = Lifetime(makeExpiredDate: Date -> Date)
  {
    /** A lifetime that expires `timeInterval` seconds after its anchor. */
    static function Duration(timeInterval: int): (l: Lifetime)
      ensures forall anchor :: l.Admits(anchor) <==> 0 <= timeInterval
    {
      Lifetime(fromDate => fromDate + timeInterval)
    }

    /** A lifetime that expires at `date`, whatever the anchor. */
    static function Until(date: Date): (l: Lifetime)
      ensures forall a, b :: l.makeExpiredDate(a) == l.makeExpiredDate(b)
      ensures forall anchor :: l.Admits(anchor) <==> anchor <= date
    {
      Lifetime(_ => date)
    }

    /** True when `anchor...makeExpiredDate(anchor)` can be built without a trap. */
    predicate Admits(anchor: Date)
    {
      anchor <= makeExpiredDate(anchor)
    }

    /** `range(from:)`: the closed range from the anchor to its expiry. */
    function Range(anchor: Date): (r: ClosedRange)
      requires Admits(anchor)
      ensures r.lowerBound == anchor && r.upperBound == makeExpiredDate(anchor)
      ensures r.Contains(anchor) && r.Contains(makeExpiredDate(anchor))
      ensures forall date :: r.Contains(date) <==> anchor <= date <= makeExpiredDate(anchor)
    {
      Bounds(anchor, makeExpiredDate(anchor))
    }
  }

  /** `duration(d).range(from: t)` is `t...t + d`. */
  lemma DurationRange(timeInterval: int, anchor: Date)
    requires 0 <= timeInterval
    ensures Lifetime.Duration(timeInterval).Admits(anchor)
    ensures Lifetime.Duration(timeInterval).Range(anchor) == Bounds(anchor, anchor + timeInterval)
  {
  }

  /** `until(e).range(from: t)` is `t...e`. */
  lemma UntilRange(date: Date, anchor: Date)
    requires anchor <= date
    ensures Lifetime.Until(date).Admits(anchor)
    ensures Lifetime.Until(date).Range(anchor) == Bounds(anchor, date)
  {
  }

  /** The ranges an `until` lifetime gives two anchors share their upper bound. */
  lemma UntilExpiryIgnoresAnchor(date: Date, anchor1: Date, anchor2: Date)
    requires anchor1 <= date && anchor2 <= date
    ensures Lifetime.Until(date).Range(anchor1).upperBound == Lifetime.Until(date).Range(anchor2).upperBound == date
  {
  }
}
