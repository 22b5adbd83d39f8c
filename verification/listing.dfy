/** Listing a user's bookings: the bookings of that user, ordered by
    ascending start date. */
module Listing {
  import opened Bookings
  import opened BookingStore

  /** The bookings of `user`, in store order. */
  function ForUser(bs: seq<Booking>, user: string): (r: seq<Booking>)
    ensures forall b :: b in r <==> b in bs && b.user == user
    ensures forall b :: multiset(r)[b] == if b.user == user then multiset(bs)[b] else 0
    ensures |r| <= |bs|
  {
    if |bs| == 0 then []
    else
      var rest := ForUser(bs[1..], user);
      assert bs == [bs[0]] + bs[1..];
      assert forall b :: b in bs <==> b == bs[0] || b in bs[1..];
      if bs[0].user == user then [bs[0]] + rest else rest
  }

  /** Start dates never decrease along `bs`. */
  predicate SortedByStart(bs: seq<Booking>)
  {
    forall i, j :: 0 <= i < j < |bs| ==> bs[i].start <= bs[j].start
  }

  /** The tail of a start-ordered list is start-ordered. */
  lemma SortedTail(bs: seq<Booking>)
    requires |bs| > 0 && SortedByStart(bs)
    ensures SortedByStart(bs[1..])
  {
    forall i, j | 0 <= i < j < |bs[1..]| ensures bs[1..][i].start <= bs[1..][j].start {
      assert bs[1..][i] == bs[i + 1] && bs[1..][j] == bs[j + 1];
    }
  }

  /** A booking starting no later than every booking of a start-ordered list
      may be put in front of it. */
  lemma SortedCons(x: Booking, rest: seq<Booking>)
    requires SortedByStart(rest)
    requires forall y :: y in rest ==> x.start <= y.start
    ensures SortedByStart([x] + rest)
  {
    var r := [x] + rest;
    forall i, j | 0 <= i < j < |r| ensures r[i].start <= r[j].start {
      assert r[j] == rest[j - 1];
      if i > 0 {
        assert r[i] == rest[i - 1];
      } else {
        assert rest[j - 1] in rest;
      }
    }
  }

  /** `b` placed into the start-ordered `sorted` before the first booking
      that starts no earlier than it. */
  function InsertByStart(b: Booking, sorted: seq<Booking>): (r: seq<Booking>)
    requires SortedByStart(sorted)
    ensures SortedByStart(r)
    ensures multiset(r) == multiset(sorted) + multiset{b}
    ensures forall x :: x in r <==> x == b || x in sorted
  {
    if |sorted| == 0 then [b]
    else if b.start <= sorted[0].start then
      assert forall y :: y in sorted ==> sorted[0].start <= y.start;
      SortedCons(b, sorted);
      [b] + sorted
    else
      assert sorted == [sorted[0]] + sorted[1..];
      SortedTail(sorted);
      var rest := InsertByStart(b, sorted[1..]);
      assert forall y :: y in sorted[1..] ==> sorted[0].start <= y.start;
      SortedCons(sorted[0], rest);
      [sorted[0]] + rest
  }

  /** `bs` reordered by ascending start date; bookings with equal starts keep
      their store order. */
  function SortByStart(bs: seq<Booking>): (r: seq<Booking>)
    ensures SortedByStart(r)
    ensures multiset(r) == multiset(bs)
  {
    if |bs| == 0 then []
    else
      assert bs == [bs[0]] + bs[1..];
      InsertByStart(bs[0], SortByStart(bs[1..]))
  }

  /** The bookings of `user` ordered by ascending start date. */
  function ListBookings(st: Store, user: string): (r: seq<Booking>)
    ensures SortedByStart(r)
    ensures multiset(r) == multiset(ForUser(st.bookings, user))
    ensures forall b :: b in r <==> b in st.bookings && b.user == user
  {
    var r := SortByStart(ForUser(st.bookings, user));
    assert forall b :: b in r <==> b in multiset(r);
    r
  }

  /** A booking list already in start order is returned as it is. */
  lemma {:induction false} SortOfSortedIsIdentity(bs: seq<Booking>)
    requires SortedByStart(bs)
    ensures SortByStart(bs) == bs
  {
    if |bs| > 0 {
      var tail := bs[1..];
      SortedTail(bs);
      SortOfSortedIsIdentity(tail);
      assert SortByStart(bs) == InsertByStart(bs[0], tail);
      if |tail| > 0 {
        assert bs[0].start <= tail[0].start;
      }
      assert InsertByStart(bs[0], tail) == [bs[0]] + tail;
      assert bs == [bs[0]] + tail;
    }
  }

  /** A confirmed booking shows up in its user's list. */
  lemma ConfirmedIsListed(st: Store, user: string, tour: string, start: Day, duration: int,
                          price: int, title: string, image: string, now: int)
    requires CreateBooking(st, user, tour, start, duration, price, title, image, now).response
          == BookingConfirmed
    ensures var st' := CreateBooking(st, user, tour, start, duration, price, title, image, now).store;
            st'.bookings[|st.bookings|] in ListBookings(st', user)
  {
  }

  /** After a cancellation, no listed booking has the cancelled identifier. */
  lemma CancelledIsNotListed(st: Store, id: BookingId, user: string)
    ensures forall b :: b in ListBookings(CancelBooking(st, id), user) ==> b.id != id
  {
  }
}
