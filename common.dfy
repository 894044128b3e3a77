/** Types shared by the ride engine, the ride service and the wallet ledger. */
module Common {

  datatype Option<+T> = None | Some(value: T)

  /** An operation that either yields a value or fails with the message the source throws. */
  datatype Result<+T> = Ok(value: T) | Err(msg: string)

  /** Document identities of the store, modelled as natural numbers. */
  type UserId = nat
  type RideId = nat

  /** A live connection's handle (`socket.id`). */
  type SocketId = nat

  /** An opaque clock reading (`new Date()`), supplied by the caller. */
  type Time = nat

  /** A geographic position; `lat` and `lng` are numbers, of which 0 is falsy in the handlers. */
  datatype Coord = Coord(lat: real, lng: real)

  /** The `from` / `to` sub-document of a ride. */
  datatype Place = Place(address: string, at: Coord)

  datatype Role = Passenger | Driver | Admin

  /** Every status string the handlers write. The ride schema's enum has only the first five;
      `RideshareWaiting` ("rideshare_waiting") is written by the pooling handler and `Started`
      ("started") by the ride service. */
  datatype RideStatus =
    | Requested | Accepted | InProgress | Completed | Cancelled
    | RideshareWaiting | Started
}
