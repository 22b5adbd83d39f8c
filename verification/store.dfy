/** The booking store and the two operations that change it: creating a
    booking behind the conflict check, and cancelling one by identifier. */
module BookingStore {
  import opened Bookings
  import opened Conflict

  /** The saved bookings, in insertion order, and the identifier the store
      will hand to the next booking it saves. */
  datatype Store = Store(bookings: seq<Booking>, nextId: BookingId)

  /** The store before any booking is made. */
  const Empty: Store := Store([], 0)

  /** The two outcomes of a creation request. */
  datatype Response = BookingConflict | BookingConfirmed

  /** A creation outcome together with the store after it. */
  datatype Outcome = Outcome(response: Response, store: Store)

  /** No two saved bookings share an identifier. */
  predicate IdsUnique(bs: seq<Booking>)
  {
    forall i, j :: 0 <= i < j < |bs| ==> bs[i].id != bs[j].id
  }

  /** Every saved identifier was handed out before `next`. */
  predicate IdsBelow(bs: seq<Booking>, next: BookingId)
  {
    forall b :: b in bs ==> b.id < next
  }

  /** No two distinct bookings of the same user overlap as half-open ranges. */
  predicate NoOverlap(bs: seq<Booking>)
  {
    forall a, b ::
      a in bs && b in bs && a.id != b.id && a.user == b.user ==>
        !RangesOverlap(a.start, a.end, b.start, b.end)
  }

  /** The invariant the store keeps. */
  predicate Valid(st: Store)
  {
    IdsUnique(st.bookings) && IdsBelow(st.bookings, st.nextId) && NoOverlap(st.bookings)
  }

  /** Every saved trip lasts at least one day. */
  predicate AllPositive(bs: seq<Booking>)
  {
    forall b :: b in bs ==> PositiveDuration(b)
  }

  /** The booking request of `user` for `tour`, starting on `start` and lasting
      `duration` days: rejected when a booking of the same user trips one of
      the three conflict patterns, otherwise saved as a new confirmed booking
      at the end of the store. */
  function CreateBooking(st: Store, user: string, tour: string, start: Day, duration: int,
                         price: int, tourTitle: string, tourImage: string, now: int): (r: Outcome)
    ensures r.response == BookingConflict <==>
              exists b :: b in st.bookings && b.user == user && Conflicts(b, start, start + duration)
    ensures r.response == BookingConflict ==> r.store == st
    ensures r.response == BookingConfirmed ==>
              && |r.store.bookings| == |st.bookings| + 1
              && r.store.bookings[..|st.bookings|] == st.bookings
              && r.store.nextId > st.nextId
    ensures r.response == BookingConfirmed ==>
              var nb := r.store.bookings[|st.bookings|];
              && nb.id == st.nextId
              && nb.user == user && nb.tour == tour
              && nb.tourTitle == tourTitle && nb.tourImage == tourImage
              && nb.start == start && nb.end - nb.start == duration
              && nb.totalPrice == price && nb.status == Confirmed && nb.createdAt == now
  {
    var end := EndOf(start, duration);
    if AnyConflict(st.bookings, user, start, end) then
      Outcome(BookingConflict, st)
    else
      var nb := Booking(st.nextId, user, tour, tourTitle, tourImage, start, end, price, Confirmed, now);
      Outcome(BookingConfirmed, Store(st.bookings + [nb], st.nextId + 1))
  }

  /** The bookings of `bs` other than the one(s) with identifier `id`, in order. */
  function Without(bs: seq<Booking>, id: BookingId): (r: seq<Booking>)
    ensures forall b :: b in r <==> b in bs && b.id != id
    ensures |r| <= |bs|
  {
    if |bs| == 0 then []
    else
      var rest := Without(bs[1..], id);
      assert forall b :: b in bs <==> b == bs[0] || b in bs[1..];
      if bs[0].id == id then rest else [bs[0]] + rest
  }

  /** Cancels the booking with identifier `id`. It always succeeds: an unknown
      identifier leaves the store as it was. */
  function CancelBooking(st: Store, id: BookingId): (r: Store)
    ensures r.nextId == st.nextId
    ensures forall b :: b in r.bookings <==> b in st.bookings && b.id != id
  {
    Store(Without(st.bookings, id), st.nextId)
  }

  // ----- Creation -----

  /** A conflict depends only on the requesting user's own bookings: adding,
      removing or changing bookings of other users never changes the answer,
      and the tour plays no part. */
  lemma OnlySameUserBlocks(st1: Store, st2: Store, user: string, tour1: string, tour2: string,
                           start: Day, duration: int, price: int, title: string, image: string, now: int)
    requires forall b: Booking :: b.user == user ==> (b in st1.bookings <==> b in st2.bookings)
    ensures CreateBooking(st1, user, tour1, start, duration, price, title, image, now).response
         == CreateBooking(st2, user, tour2, start, duration, price, title, image, now).response
  {
  }

  /** A user with no saved bookings is never refused. */
  lemma FirstBookingConfirmed(st: Store, user: string, tour: string, start: Day, duration: int,
                              price: int, title: string, image: string, now: int)
    requires forall b :: b in st.bookings ==> b.user != user
    ensures CreateBooking(st, user, tour, start, duration, price, title, image, now).response
         == BookingConfirmed
  {
  }

  /** When every trip lasts at least a day, a request is refused exactly when
      it overlaps one of the same user's trips as half-open ranges. */
  lemma ConflictExactlyOnOverlap(st: Store, user: string, tour: string, start: Day, duration: int,
                                 price: int, title: string, image: string, now: int)
    requires AllPositive(st.bookings) && duration >= 1
    ensures CreateBooking(st, user, tour, start, duration, price, title, image, now).response
              == BookingConflict
            <==> exists b :: b in st.bookings && b.user == user && Overlaps(b, start, start + duration)
  {
    forall b | b in st.bookings
      ensures Conflicts(b, start, start + duration) <==> Overlaps(b, start, start + duration)
    {
      ConflictIffOverlap(b, start, start + duration);
    }
  }

  /** A confirmed booking never overlaps a trip the same user already has,
      whatever the durations involved. */
  lemma ConfirmedNeverOverlaps(st: Store, user: string, tour: string, start: Day, duration: int,
                               price: int, title: string, image: string, now: int)
    requires CreateBooking(st, user, tour, start, duration, price, title, image, now).response
          == BookingConfirmed
    ensures forall b :: b in st.bookings && b.user == user ==>
              !Overlaps(b, start, start + duration)
  {
    forall b | b in st.bookings && b.user == user
      ensures !Overlaps(b, start, start + duration)
    {
      if Overlaps(b, start, start + duration) {
        OverlapIsConflict(b, start, start + duration);
      }
    }
  }

  /** Creation keeps the store valid: identifiers stay unique and below the
      counter, and no user ends up with two overlapping trips. */
  lemma CreatePreservesValid(st: Store, user: string, tour: string, start: Day, duration: int,
                             price: int, title: string, image: string, now: int)
    requires Valid(st)
    ensures Valid(CreateBooking(st, user, tour, start, duration, price, title, image, now).store)
  {
    var r := CreateBooking(st, user, tour, start, duration, price, title, image, now);
    if r.response == BookingConfirmed {
      var bs := st.bookings;
      var nb := r.store.bookings[|bs|];
      assert r.store.bookings == bs + [nb];
      ConfirmedNeverOverlaps(st, user, tour, start, duration, price, title, image, now);
      assert nb !in bs;
      forall a, b | a in r.store.bookings && b in r.store.bookings && a.id != b.id && a.user == b.user
        ensures !RangesOverlap(a.start, a.end, b.start, b.end)
      {
        if a == nb {
          assert b in bs;
        } else if b == nb {
          assert a in bs;
        }
      }
    }
  }

  /** Creation keeps every trip at least a day long when the request is. */
  lemma CreatePreservesPositive(st: Store, user: string, tour: string, start: Day, duration: int,
                                price: int, title: string, image: string, now: int)
    requires AllPositive(st.bookings) && duration >= 1
    ensures AllPositive(CreateBooking(st, user, tour, start, duration, price, title, image, now).store.bookings)
  {
  }

  // ----- Cancellation -----

  /** Cancelling an identifier that is not saved leaves the store unchanged. */
  lemma {:induction false} WithoutMissingIsIdentity(bs: seq<Booking>, id: BookingId)
    requires forall b :: b in bs ==> b.id != id
    ensures Without(bs, id) == bs
  {
    if |bs| > 0 {
      WithoutMissingIsIdentity(bs[1..], id);
      assert bs == [bs[0]] + bs[1..];
    }
  }

  lemma CancelMissingIsNoop(st: Store, id: BookingId)
    requires forall b :: b in st.bookings ==> b.id != id
    ensures CancelBooking(st, id) == st
  {
    WithoutMissingIsIdentity(st.bookings, id);
  }

  /** Cancelling twice gives the same store as cancelling once. */
  lemma CancelIdempotent(st: Store, id: BookingId)
    ensures CancelBooking(CancelBooking(st, id), id) == CancelBooking(st, id)
  {
    WithoutMissingIsIdentity(Without(st.bookings, id), id);
  }

  /** The tail of a store with unique identifiers has unique identifiers, none
      of them the head's. */
  lemma IdsUniqueTail(bs: seq<Booking>)
    requires |bs| > 0 && IdsUnique(bs)
    ensures IdsUnique(bs[1..])
    ensures forall b :: b in bs[1..] ==> b.id != bs[0].id
  {
    forall b | b in bs[1..] ensures b.id != bs[0].id {
      var k :| 0 <= k < |bs[1..]| && bs[1..][k] == b;
      assert bs[k + 1] == b;
    }
  }

  /** Putting a booking with a fresh identifier in front keeps identifiers unique. */
  lemma IdsUniqueCons(x: Booking, rest: seq<Booking>)
    requires IdsUnique(rest)
    requires forall b :: b in rest ==> b.id != x.id
    ensures IdsUnique([x] + rest)
  {
    var r := [x] + rest;
    forall i, j | 0 <= i < j < |r| ensures r[i].id != r[j].id {
      assert r[j] == rest[j - 1];
      if i > 0 {
        assert r[i] == rest[i - 1];
      }
    }
  }

  /** Removing bookings keeps identifiers unique. */
  lemma {:induction false} WithoutKeepsIdsUnique(bs: seq<Booking>, id: BookingId)
    requires IdsUnique(bs)
    ensures IdsUnique(Without(bs, id))
  {
    if |bs| > 0 {
      IdsUniqueTail(bs);
      WithoutKeepsIdsUnique(bs[1..], id);
      if bs[0].id != id {
        IdsUniqueCons(bs[0], Without(bs[1..], id));
      }
    }
  }

  /** With unique identifiers, cancelling a saved booking removes exactly one. */
  lemma {:induction false} WithoutRemovesOne(bs: seq<Booking>, id: BookingId)
    requires IdsUnique(bs)
    requires exists b :: b in bs && b.id == id
    ensures |Without(bs, id)| == |bs| - 1
  {
    IdsUniqueTail(bs);
    if bs[0].id == id {
      WithoutMissingIsIdentity(bs[1..], id);
    } else {
      var b :| b in bs && b.id == id;
      assert b in bs[1..];
      WithoutRemovesOne(bs[1..], id);
    }
  }

  lemma CancelRemovesExactlyOne(st: Store, id: BookingId)
    requires Valid(st)
    requires exists b :: b in st.bookings && b.id == id
    ensures |CancelBooking(st, id).bookings| == |st.bookings| - 1
  {
    WithoutRemovesOne(st.bookings, id);
  }

  /** Cancellation keeps the store valid. */
  lemma CancelPreservesValid(st: Store, id: BookingId)
    requires Valid(st)
    ensures Valid(CancelBooking(st, id))
  {
    WithoutKeepsIdsUnique(st.bookings, id);
  }

  // ----- Sequences of requests -----

  /** A request that changes the store. */
  datatype Request =
    | Create(user: string, tour: string, start: Day, duration: int,
             price: int, tourTitle: string, tourImage: string, now: int)
    | Cancel(id: BookingId)

  /** The store after serving one request. */
  function Step(st: Store, req: Request): Store
  {
    match req
    case Create(user, tour, start, duration, price, title, image, now) =>
      CreateBooking(st, user, tour, start, duration, price, title, image, now).store
    case Cancel(id) => CancelBooking(st, id)
  }

  /** The store after serving `reqs` one at a time, in order. */
  function Run(st: Store, reqs: seq<Request>): Store
    decreases |reqs|
  {
    if |reqs| == 0 then st else Run(Step(st, reqs[0]), reqs[1..])
  }

  /** Served one after another, any sequence of requests keeps the store valid;
      in particular no user ever holds two overlapping trips. */
  lemma {:induction false} RunPreservesValid(st: Store, reqs: seq<Request>)
    requires Valid(st)
    ensures Valid(Run(st, reqs))
    decreases |reqs|
  {
    if |reqs| > 0 {
      match reqs[0] {
      case Create(user, tour, start, duration, price, title, image, now) =>
        CreatePreservesValid(st, user, tour, start, duration, price, title, image, now);
      case Cancel(id) =>
        CancelPreservesValid(st, id);
      }
      RunPreservesValid(Step(st, reqs[0]), reqs[1..]);
    }
  }

  lemma ReachableStoresValid(reqs: seq<Request>)
    ensures Valid(Run(Empty, reqs))
  {
    RunPreservesValid(Empty, reqs);
  }
}
