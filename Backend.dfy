/** The shapes the frontend exchanges with the remote booking service: the
    `Booking` record and one value per remote call it can issue. */
module Backend {

  type StationId = string
  /** Nanoseconds since the epoch. */
  type Time = int
  type BookingId = int

  datatype Booking = Booking(
    startTime: Time,
    bookingId: BookingId,
    endTime: Time,
    userId: string,
    stationId: StationId,
    portNumber: int)

  /** One call on the backend actor, with its arguments. */
  datatype Call =
    | AddStation(name: string, location: string, ports: int, openHour: int, closeHour: int)
    | BookSlot(stationId: StationId, portNumber: int, startTime: Time)
    | CancelBooking(bookingId: BookingId)
    | GetAvailableSlots(stationId: StationId, date: Time)
    | GetMyBookings
}
