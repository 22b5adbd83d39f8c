/** The booking record the travel server stores, and the day arithmetic that
    fixes a trip's end date. Calendar dates are whole day numbers. */
module Bookings {

  /** A calendar date, as a day number. */
  type Day = int

  /** The identifier the store assigns to a booking when it is saved. */
  type BookingId = nat

  /** The status a booking receives when it is created; no operation changes it. */
  const Confirmed: string := "Confirmed"

  /** One stored booking. `tourTitle`, `tourImage` and `totalPrice` are the
      title, image and price the client sent with the request, unchecked
      against the tour; `createdAt` is the clock reading at creation. */
  datatype Booking = Booking(
    id: BookingId,
    user: string,
    tour: string,
    tourTitle: string,
    tourImage: string,
    start: Day,
    end: Day,
    totalPrice: int,
    status: string,
    createdAt: int
  )

  /** The end date of a trip of `duration` days that begins on `start`. */
  function EndOf(start: Day, duration: int): Day
  {
    start + duration
  }

  /** The trip lasts at least one day. */
  predicate PositiveDuration(b: Booking)
  {
    b.start < b.end
  }
}
