/** The booking conflict rule: the three patterns of the overlap query run
    before a booking is saved, and their relation to ordinary half-open
    interval overlap. */
module Conflict {
  import opened Bookings

  /** Pattern 1: the existing booking starts in `[s, e)`. */
  predicate StartsWithin(b: Booking, s: Day, e: Day)
  {
    s <= b.start < e
  }

  /** Pattern 2: the existing booking ends in `(s, e]`. */
  predicate EndsWithin(b: Booking, s: Day, e: Day)
  {
    s < b.end <= e
  }

  /** Pattern 3: the existing booking covers `[s, e]`. */
  predicate Covers(b: Booking, s: Day, e: Day)
  {
    b.start <= s && e <= b.end
  }

  /** The existing booking `b` blocks a new trip from `s` to `e`. */
  predicate Conflicts(b: Booking, s: Day, e: Day)
  {
    StartsWithin(b, s, e) || EndsWithin(b, s, e) || Covers(b, s, e)
  }

  /** Half-open ranges `[s1, e1)` and `[s2, e2)` share a day. */
  predicate RangesOverlap(s1: Day, e1: Day, s2: Day, e2: Day)
  {
    s1 < e2 && s2 < e1
  }

  /** The existing booking `b` overlaps `[s, e)` as a half-open range. */
  predicate Overlaps(b: Booking, s: Day, e: Day)
  {
    RangesOverlap(b.start, b.end, s, e)
  }

  /** `b` is a booking of `user` that blocks a new trip from `s` to `e`. */
  predicate Blocks(b: Booking, user: string, s: Day, e: Day)
  {
    b.user == user && Conflicts(b, s, e)
  }

  /** Whether some booking in `bs` blocks `user` from booking `s` to `e`:
      the query looks only at bookings of the same user and ignores the tour. */
  function AnyConflict(bs: seq<Booking>, user: string, s: Day, e: Day): (found: bool)
    ensures found <==> exists b :: b in bs && Blocks(b, user, s, e)
  {
    if |bs| == 0 then false
    else
      var rest := AnyConflict(bs[1..], user, s, e);
      assert forall b :: b in bs <==> b == bs[0] || b in bs[1..];
      Blocks(bs[0], user, s, e) || rest
  }

  /** Half-open overlap always trips one of the three patterns, whatever the
      durations. */
  lemma OverlapIsConflict(b: Booking, s: Day, e: Day)
    requires Overlaps(b, s, e)
    ensures Conflicts(b, s, e)
  {
    if b.start < s {
      if b.end <= e {
        assert EndsWithin(b, s, e);
      } else {
        assert Covers(b, s, e);
      }
    } else {
      assert StartsWithin(b, s, e);
    }
  }

  /** When both trips last at least one day, the three patterns hold exactly
      when the half-open ranges overlap. */
  lemma ConflictIffOverlap(b: Booking, s: Day, e: Day)
    requires PositiveDuration(b) && s < e
    ensures Conflicts(b, s, e) <==> Overlaps(b, s, e)
  {
    if Overlaps(b, s, e) {
      OverlapIsConflict(b, s, e);
    }
  }

  /** A trip that begins on the day an existing trip ends, or ends on the day
      it begins, is accepted. */
  lemma TouchingIsNoConflict(b: Booking, s: Day, e: Day)
    requires PositiveDuration(b) && s < e
    requires s == b.end || e == b.start
    ensures !Conflicts(b, s, e)
  {
  }

  /** Without positive durations the equivalence fails: a zero-day booking on
      day 5 blocks the trip [5, 9] although the half-open ranges are disjoint. */
  lemma ZeroDayBookingBlocksWithoutOverlap(b: Booking)
    requires b.start == 5 && b.end == 5
    ensures Conflicts(b, 5, 9) && !Overlaps(b, 5, 9)
  {
  }

  /** A zero-day request on the day an existing trip ends is rejected, although
      a longer trip starting that same day is accepted. */
  lemma ZeroDayRequestOnEndDayConflicts(b: Booking)
    requires b.start == 1 && b.end == 5
    ensures Conflicts(b, 5, 5) && !Conflicts(b, 5, 9)
  {
  }

  /** A negative duration is not rejected by the rule itself: the request
      [8, 3] is blocked by the trip [1, 5] only through the covering pattern,
      with no half-open overlap. */
  lemma NegativeRequestCoveredWithoutOverlap(b: Booking)
    requires b.start == 1 && b.end == 5
    ensures Covers(b, 8, 3) && !StartsWithin(b, 8, 3) && !EndsWithin(b, 8, 3)
    ensures !Overlaps(b, 8, 3)
  {
  }
}
