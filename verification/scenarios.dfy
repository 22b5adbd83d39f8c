/** Concrete booking scenarios, with dates written as day numbers of 2024
    (1 January is day 1). */
module Scenarios {
  import opened Bookings
  import opened Conflict
  import opened BookingStore
  import opened Listing

  /** The store after `user` books one trip on an empty store. */
  function OneTrip(user: string, start: Day, duration: int): Store
  {
    CreateBooking(Empty, user, "tour", start, duration, 100, "Title", "img", 0).store
  }

  /** A trip of 1-5 January followed by one of 5-9 January: the second starts
      on the day the first ends and is accepted. */
  lemma BackToBackTripsAccepted()
    ensures var st := OneTrip("u", 1, 4);
            CreateBooking(st, "u", "tour", 5, 4, 100, "Title", "img", 1).response == BookingConfirmed
  {
    var st := OneTrip("u", 1, 4);
    assert st.bookings[0].start == 1 && st.bookings[0].end == 5;
    assert st.bookings == [st.bookings[0]];
  }

  /** A trip of 3-6 January inside one of 1-10 January is refused. */
  lemma NestedTripRefused()
    ensures var st := OneTrip("u", 1, 9);
            CreateBooking(st, "u", "tour", 3, 3, 100, "Title", "img", 1).response == BookingConflict
  {
    var st := OneTrip("u", 1, 9);
    assert Covers(st.bookings[0], 3, 6);
  }

  /** The same dates booked by another user are accepted. */
  lemma OtherUserSameDatesAccepted()
    ensures var st := OneTrip("u", 1, 9);
            CreateBooking(st, "v", "tour", 1, 9, 100, "Title", "img", 1).response == BookingConfirmed
  {
    var st := OneTrip("u", 1, 9);
    assert st.bookings == [st.bookings[0]];
  }

  /** Booking 1 June 2024 (day 153) for seven days stores an end date of
      8 June (day 160) and the status "Confirmed". */
  lemma SevenDayTripEndDate()
    ensures var st := OneTrip("u", 153, 7);
            |st.bookings| == 1 && st.bookings[0].end == 160 && st.bookings[0].status == Confirmed
  {
  }

  const Mar5: Booking := Booking(0, "u", "t", "", "", 65, 67, 0, Confirmed, 0)
  const Jan1: Booking := Booking(1, "u", "t", "", "", 1, 3, 0, Confirmed, 1)
  const Feb10: Booking := Booking(2, "u", "t", "", "", 41, 43, 0, Confirmed, 2)

  lemma ThreeTripsForUser()
    ensures ForUser([Mar5, Jan1, Feb10], "u") == [Mar5, Jan1, Feb10]
  {
    assert ForUser([Feb10], "u") == [Feb10];
    assert [Jan1, Feb10][1..] == [Feb10];
    assert ForUser([Jan1, Feb10], "u") == [Jan1, Feb10];
    assert [Mar5, Jan1, Feb10][1..] == [Jan1, Feb10];
  }

  lemma ThreeTripsSorted()
    ensures SortByStart([Mar5, Jan1, Feb10]) == [Jan1, Feb10, Mar5]
  {
    assert SortByStart([Feb10]) == [Feb10];
    assert [Jan1, Feb10][1..] == [Feb10];
    assert SortByStart([Jan1, Feb10]) == [Jan1, Feb10];
    assert InsertByStart(Mar5, [Feb10]) == [Feb10, Mar5];
    assert InsertByStart(Mar5, [Jan1, Feb10]) == [Jan1, Feb10, Mar5];
    assert [Mar5, Jan1, Feb10][1..] == [Jan1, Feb10];
  }

  /** Three creation requests of one user, for trips starting 5 March,
      1 January and 10 February. */
  const ThreeRequests: seq<Request> := [Create("u", "t", 65, 2, 0, "", "", 0),
                                        Create("u", "t", 1, 2, 0, "", "", 1),
                                        Create("u", "t", 41, 2, 0, "", "", 2)]

  /** Served from the empty store, all three are confirmed and saved in
      request order with identifiers 0, 1 and 2. */
  lemma ThreeTripsCreated()
    ensures Run(Empty, ThreeRequests) == Store([Mar5, Jan1, Feb10], 3)
  {
    var st1 := CreateBooking(Empty, "u", "t", 65, 2, 0, "", "", 0).store;
    assert st1 == Store([Mar5], 1);
    var st2 := CreateBooking(st1, "u", "t", 1, 2, 0, "", "", 1).store;
    assert st2 == Store([Mar5, Jan1], 2);
    var st3 := CreateBooking(st2, "u", "t", 41, 2, 0, "", "", 2).store;
    assert st3 == Store([Mar5, Jan1, Feb10], 3);
    assert ThreeRequests[1..][1..][1..] == [];
    assert Run(st3, []) == st3;
    assert Run(st2, ThreeRequests[1..][1..]) == st3;
    assert Run(st1, ThreeRequests[1..]) == st3;
  }

  /** Trips created in the order 5 March, 1 January, 10 February are listed
      in the order 1 January, 10 February, 5 March. */
  lemma ListOrderedByStart()
    ensures var l := ListBookings(Run(Empty, ThreeRequests), "u");
            |l| == 3 && l[0].start == 1 && l[1].start == 41 && l[2].start == 65
  {
    ThreeTripsCreated();
    ThreeTripsForUser();
    ThreeTripsSorted();
  }
}
