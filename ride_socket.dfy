/** The real-time ride engine: the handlers of the ride socket, over a ride table and the
    user table they read and update. Outbound events are returned as (recipient, event)
    records instead of being sent. */
module RideSocket {
  import opened Common

  /** Offers and polls reach drivers at most this many metres from the pickup. */
  const Radius: nat := 5000

  /** The assumed average speed, in metres per second, behind every ETA. */
  const SpeedMps: nat := 10

  /** The pool size a rideshare gets when the creator does not give one. */
  const DefaultMaxPassengers: int := 3

  /** A user document, as far as the handlers read or write it. */
  datatype User = User(role: Role, socketId: Option<SocketId>, location: Coord, lastUpdated: Option<Time>)

  datatype PaymentStatus = Pending | Paid

  /** The pooling fields of a shared ride: who has joined, the capacity and each one's share. */
  datatype Pool = Pool(passengers: seq<UserId>, maxPassengers: int, sharedFare: Option<real>)

  /** A ride document. `pool` is present exactly for shared rides. */
  datatype Ride = Ride(
    passenger: UserId,
    driver: Option<UserId>,
    from: Place,
    to: Place,
    distanceKm: Option<real>,
    fare: real,
    status: RideStatus,
    paymentStatus: PaymentStatus,
    startedAt: Option<Time>,
    completedAt: Option<Time>,
    pool: Option<Pool>)

  /** The extra fields a status change sets besides the status (`driver` may be set to null). */
  datatype Patch = Patch(
    driver: Option<Option<UserId>>,
    startedAt: Option<Time>,
    completedAt: Option<Time>,
    fare: Option<real>)

  const NoPatch: Patch := Patch(None, None, None, None)

  /** The outcome of a call into the ledger. */
  datatype Outcome = Pass | Fail(msg: string)

  datatype EtaKind = ToPickup | ToDropoff

  /** Where an event goes: the calling connection, a user's room, a connection by its handle,
      every connection, or the room of a rideshare. */
  datatype Recipient = Caller | UserRoom(UserId) | Socket(SocketId) | Everyone | PoolRoom(RideId)

  /** Outbound events; a ride document is represented by its id. */
  datatype Event =
    | RideNew(RideId)
    | RideList(seq<RideId>)
    | RideAccepted(RideId)
    | RideRemove(RideId)
    | RideStatusChanged(RideId)
    | RideUpdate(RideId)
    | DriverLocationUpdate(UserId, Coord)
    | EtaUpdate(ride: RideId, target: EtaKind, etaSeconds: nat, distanceMeters: nat)
    | PaymentFailed(RideId)
    | WalletUpdate
    | RideshareNew(RideId)
    | RideshareUpdate(RideId)
    | ShareReady(RideId)
    | ErrorNotice(kind: string, message: string)

  datatype Emit = Emit(to: Recipient, event: Event)

  /** The TypeError a handler throws when a populated passenger reference came back null
      (the ride names a passenger who is no user) and its `_id` is read. */
  const NullPassengerMessage: string := "Cannot read properties of null (reading '_id')"

  function ErrorTo(kind: string, message: string): Emit
  {
    Emit(Caller, ErrorNotice(kind, message))
  }

  /** A driver gets an offer for a pickup at `pickup`: a connected driver whose stored
      latitude and longitude are both truthy (non-zero) and who is within the radius. */
  predicate Offered(u: User, pickup: Coord, dist: (Coord, Coord) -> nat)
  {
    && u.role == Driver
    && u.socketId.Some?
    && u.location.lat != 0.0 && u.location.lng != 0.0
    && dist(pickup, u.location) <= Radius
  }

  /** Every connected driver other than `accepter`, who is told to drop a taken offer. */
  predicate TakesRemoval(id: UserId, u: User, accepter: UserId)
  {
    u.role == Driver && id != accepter && u.socketId.Some?
  }

  /** One event per listed user, addressed to that user's connection. */
  function SocketEmits(users: map<UserId, User>, ids: seq<UserId>, ev: Event): seq<Emit>
    requires forall i :: 0 <= i < |ids| ==> ids[i] in users && users[ids[i]].socketId.Some?
  {
    seq(|ids|, i requires 0 <= i < |ids| => Emit(Socket(users[ids[i]].socketId.value), ev))
  }

  /** The loop over the users a query returns: sends `ev` to the connection of each user
      `keep` admits, each exactly once, and reports whom it reached. The store returns users
      in no specified order, so the order of `sent` is left open. */
  method SendToEach(users: map<UserId, User>, keep: (UserId, User) -> bool, ev: Event)
    returns (sent: seq<UserId>, out: seq<Emit>)
    requires forall d :: d in users && keep(d, users[d]) ==> users[d].socketId.Some?
    ensures forall d :: d in sent <==> d in users && keep(d, users[d])
    ensures forall i :: 0 <= i < |sent| ==> sent[i] in users && users[sent[i]].socketId.Some?
    ensures forall i, j :: 0 <= i < j < |sent| ==> sent[i] != sent[j]
    ensures out == SocketEmits(users, sent, ev)
  {
    sent, out := [], [];
    var pending := users.Keys;
    while pending != {}
      invariant pending <= users.Keys
      invariant forall d :: d in sent <==> d in users && d !in pending && keep(d, users[d])
      invariant forall i :: 0 <= i < |sent| ==> sent[i] in users && users[sent[i]].socketId.Some?
      invariant forall i, j :: 0 <= i < j < |sent| ==> sent[i] != sent[j]
      invariant out == SocketEmits(users, sent, ev)
      decreases pending
    {
      var d :| d in pending;
      if keep(d, users[d]) {
        sent := sent + [d];
        out := out + [Emit(Socket(users[d].socketId.value), ev)];
      }
      pending := pending - {d};
    }
  }

  /** The rides among the first `n` that a driver at `at` is shown on a poll: requested ones
      whose pickup is within the radius, in store order. Unlike offers, a zero coordinate
      does not exclude anything here. */
  function Nearby(rides: map<RideId, Ride>, n: nat, at: Coord, dist: (Coord, Coord) -> nat): (r: seq<RideId>)
    requires forall id: RideId :: id < n ==> id in rides
    ensures forall id: RideId :: id in r <==>
      id < n && rides[id].status == Requested && dist(rides[id].from.at, at) <= Radius
    ensures forall i, j :: 0 <= i < j < |r| ==> r[i] < r[j]
  {
    if n == 0 then []
    else
      var earlier := Nearby(rides, n - 1, at, dist);
      assert forall k :: 0 <= k < |earlier| ==> earlier[k] < n - 1 by {
        forall k | 0 <= k < |earlier| ensures earlier[k] < n - 1 {
          assert earlier[k] in earlier;
        }
      }
      var ride := rides[n - 1];
      if ride.status == Requested && dist(ride.from.at, at) <= Radius then earlier + [n - 1] else earlier
  }

  /** `driver` is carrying out `r`: assigned to it and accepted or under way. */
  predicate ActiveFor(r: Ride, driver: UserId)
  {
    r.driver == Some(driver) && r.status in {Accepted, InProgress}
  }

  /** The ride the driver-location handler finds for `driver` among the first `n`: the first
      in store order that is active for it, if any. */
  function ActiveRideOf(rides: map<RideId, Ride>, n: nat, driver: UserId): (r: Option<RideId>)
    requires forall id: RideId :: id < n ==> id in rides
    ensures r.Some? ==> r.value < n && ActiveFor(rides[r.value], driver)
    ensures r.Some? ==> forall id: RideId :: id < r.value ==> !ActiveFor(rides[id], driver)
    ensures r.None? ==> forall id: RideId :: id < n ==> !ActiveFor(rides[id], driver)
  {
    if n == 0 then None
    else
      var earlier := ActiveRideOf(rides, n - 1, driver);
      if earlier.Some? then earlier
      else if ActiveFor(rides[n - 1], driver) then Some(n - 1)
      else None
  }

  /** The ETA target of an active ride: the pickup before it starts, the drop-off after. */
  function EtaTarget(r: Ride): (t: Option<(EtaKind, Place)>)
    ensures t.Some? <==> r.status in {Accepted, InProgress}
    ensures r.status == Accepted ==> t == Some((ToPickup, r.from))
    ensures r.status == InProgress ==> t == Some((ToDropoff, r.to))
  {
    if r.status == Accepted then Some((ToPickup, r.from))
    else if r.status == InProgress then Some((ToDropoff, r.to))
    else None
  }

  /** `Math.round(distance / speed)`: the nearest whole number of seconds, halves rounded up. */
  function EtaSeconds(distanceMeters: nat): (eta: nat)
    ensures (eta as real) - 0.5 <= (distanceMeters as real) / (SpeedMps as real) < (eta as real) + 0.5
  {
    var e := (distanceMeters + SpeedMps / 2) / SpeedMps;
    assert SpeedMps * e <= distanceMeters + 5 < SpeedMps * e + SpeedMps;
    assert (SpeedMps * e) as real == 10.0 * (e as real);
    e
  }

  /** The ride record after a status change: the new status, the patched fields, and
      everything else as it was. */
  function Apply(r: Ride, status: RideStatus, p: Patch): (a: Ride)
    ensures a.status == status
    ensures a.driver == (if p.driver.Some? then p.driver.value else r.driver)
    ensures a.startedAt == (if p.startedAt.Some? then p.startedAt else r.startedAt)
    ensures a.completedAt == (if p.completedAt.Some? then p.completedAt else r.completedAt)
    ensures a.fare == (if p.fare.Some? then p.fare.value else r.fare)
    ensures a.(status := r.status, driver := r.driver, startedAt := r.startedAt,
               completedAt := r.completedAt, fare := r.fare) == r
    ensures p == NoPatch ==> a == r.(status := status)
  {
    r.(status := status,
       driver := if p.driver.Some? then p.driver.value else r.driver,
       startedAt := if p.startedAt.Some? then p.startedAt else r.startedAt,
       completedAt := if p.completedAt.Some? then p.completedAt else r.completedAt,
       fare := if p.fare.Some? then p.fare.value else r.fare)
  }

  function AcceptPatch(driver: UserId, now: Time): Patch
  {
    Patch(Some(Some(driver)), Some(now), None, None)
  }

  /** What every successful status change announces: the new state to the passenger, to the
      driver when the ride names one who is a user (otherwise the populated reference is null
      and the event goes to no room), and to everyone. */
  function StatusEmits(id: RideId, r: Ride, users: map<UserId, User>): seq<Emit>
  {
    [Emit(UserRoom(r.passenger), RideStatusChanged(id))]
    + (if r.driver.Some? && r.driver.value in users
       then [Emit(UserRoom(r.driver.value), RideStatusChanged(id))] else [])
    + [Emit(Everyone, RideUpdate(id))]
  }

  /** The invariant the pooling handlers keep for a shared ride: its passengers are distinct,
      no more than its capacity, and each share is the fare divided among them. */
  ghost predicate PoolOk(r: Ride)
  {
    r.pool.Some? ==>
      var pl := r.pool.value;
      && |pl.passengers| <= pl.maxPassengers
      && (forall i, j :: 0 <= i < j < |pl.passengers| ==> pl.passengers[i] != pl.passengers[j])
      && (pl.sharedFare.Some? ==> pl.sharedFare.value * (|pl.passengers| as real) == r.fare)
  }

  /** Status changes are unguarded: a second accept of the same ride does not fail, it
      leaves the ride exactly as if only the second driver had accepted it. */
  lemma SecondAcceptOverwrites(r: Ride, first: UserId, second: UserId, t1: Time, t2: Time)
    ensures Apply(Apply(r, Accepted, AcceptPatch(first, t1)), Accepted, AcceptPatch(second, t2))
            == Apply(r, Accepted, AcceptPatch(second, t2))
    ensures Apply(Apply(r, Accepted, AcceptPatch(first, t1)), Accepted, AcceptPatch(second, t2)).driver
            == Some(second)
  {
  }

  /** Push and pull agree for drivers who get offers: a driver offered a ride that is still
      requested finds it when polling from the same stored location. */
  lemma OfferedRideIsPolled(rides: map<RideId, Ride>, n: nat, id: RideId, u: User, dist: (Coord, Coord) -> nat)
    requires forall k: RideId :: k < n ==> k in rides
    requires id < n && rides[id].status == Requested
    requires Offered(u, rides[id].from.at, dist)
    ensures id in Nearby(rides, n, u.location, dist)
  {
  }

  class RideEngine {
    var rides: map<RideId, Ride>
    var users: map<UserId, User>
    var nextId: RideId
    /** The great-circle distance between two points, in whole metres. */
    const dist: (Coord, Coord) -> nat

    /** Rides are numbered in creation order and never deleted. */
    ghost predicate Valid()
      reads this
    {
      forall id: RideId :: id in rides <==> id < nextId
    }

    constructor (knownUsers: map<UserId, User>, distance: (Coord, Coord) -> nat)
      ensures Valid()
      ensures rides == map[] && users == knownUsers && nextId == 0 && dist == distance
    {
      rides := map[];
      users := knownUsers;
      nextId := 0;
      dist := distance;
    }

    /** joinRoom: records the caller's connection handle on the user, if the user exists. */
    method JoinRoom(sock: SocketId, userId: UserId)
      requires Valid()
      modifies this
      ensures Valid() && rides == old(rides) && nextId == old(nextId)
      ensures users == if userId in old(users)
                       then old(users)[userId := old(users)[userId].(socketId := Some(sock))]
                       else old(users)
    {
      if userId in users {
        users := users[userId := users[userId].(socketId := Some(sock))];
      }
    }

    /** disconnect: clears the handle of one user holding the closing connection's handle;
        nobody else is touched. */
    method Disconnect(sock: SocketId)
      requires Valid()
      modifies this
      ensures Valid() && rides == old(rides) && nextId == old(nextId)
      ensures (forall u :: u in old(users) ==> old(users)[u].socketId != Some(sock)) ==> users == old(users)
      ensures (exists u :: u in old(users) && old(users)[u].socketId == Some(sock)) ==>
        exists u :: && u in old(users)
                    && old(users)[u].socketId == Some(sock)
                    && users == old(users)[u := old(users)[u].(socketId := None)]
      ensures users.Keys == old(users).Keys
    {
      if u :| u in users && users[u].socketId == Some(sock) {
        users := users[u := users[u].(socketId := None)];
      }
    }

    /** ride:request: stores a requested ride, offers it to every driver Offered admits,
        and tells the requester when nobody was reached. The ride exists either way. */
    method RequestRide(passengerId: UserId, from: Place, to: Place, distanceKm: real, fare: real)
      returns (id: RideId, sent: seq<UserId>, out: seq<Emit>)
      requires Valid()
      modifies this
      ensures Valid() && users == old(users)
      ensures id == old(nextId) && id !in old(rides) && nextId == old(nextId) + 1
      ensures rides == old(rides)[id := Ride(passengerId, None, from, to, Some(distanceKm), fare,
                                             Requested, Pending, None, None, None)]
      ensures forall d :: d in sent <==> d in users && Offered(users[d], from.at, dist)
      ensures forall i :: 0 <= i < |sent| ==> sent[i] in users && users[sent[i]].socketId.Some?
      ensures forall i, j :: 0 <= i < j < |sent| ==> sent[i] != sent[j]
      ensures out == SocketEmits(users, sent, RideNew(id))
                     + if sent == [] then [ErrorTo("ride:request", "No nearby drivers found.")] else []
    {
      id := nextId;
      rides := rides[id := Ride(passengerId, None, from, to, Some(distanceKm), fare,
                                Requested, Pending, None, None, None)];
      nextId := nextId + 1;
      var distance := dist;
      var pickup := from.at;
      sent, out := SendToEach(users, (d: UserId, u: User) => Offered(u, pickup, distance), RideNew(id));
      if |sent| == 0 {
        out := out + [ErrorTo("ride:request", "No nearby drivers found.")];
      }
    }

    /** driver:nearby: stores the supplied location first, then lists the requested rides
        near the driver's stored location; an unknown driver is an error. */
    method DriverNearby(driverId: UserId, location: Option<Coord>)
      returns (r: Result<seq<RideId>>, out: seq<Emit>)
      requires Valid()
      modifies this
      ensures Valid() && rides == old(rides) && nextId == old(nextId)
      ensures users == if location.Some? && driverId in old(users)
                       then old(users)[driverId := old(users)[driverId].(location := location.value)]
                       else old(users)
      ensures driverId !in users ==>
        r == Err("Driver not found") && out == [ErrorTo("driver:nearby", "Driver not found")]
      ensures driverId in users ==>
        && r == Ok(Nearby(rides, nextId, users[driverId].location, dist))
        && out == [Emit(Caller, RideList(r.value))]
    {
      if location.Some? && driverId in users {
        users := users[driverId := users[driverId].(location := location.value)];
      }
      if driverId !in users {
        return Err("Driver not found"), [ErrorTo("driver:nearby", "Driver not found")];
      }
      var driver := users[driverId];
      var nearbyRides := Nearby(rides, nextId, driver.location, dist);
      r := Ok(nearbyRides);
      out := [Emit(Caller, RideList(nearbyRides))];
    }

    /** updateRideStatus: sets the status and the extra fields of an existing ride, whatever
        its current status, and announces the new state. The write happens before the ride's
        passenger is read, so a ride whose passenger is no user is still updated, and the
        read then throws before anything is announced. */
    method UpdateRideStatus(rideId: RideId, status: RideStatus, extra: Patch)
      returns (r: Result<Ride>, out: seq<Emit>)
      requires Valid()
      modifies this
      ensures Valid() && users == old(users) && nextId == old(nextId)
      ensures rideId !in old(rides) ==>
        r == Err("Ride not found") && rides == old(rides) && out == []
      ensures rideId in old(rides) ==>
        && rides == old(rides)[rideId := Apply(old(rides)[rideId], status, extra)]
        && (rides[rideId].passenger in users ==>
              r == Ok(rides[rideId]) && out == StatusEmits(rideId, rides[rideId], users))
        && (rides[rideId].passenger !in users ==> r == Err(NullPassengerMessage) && out == [])
    {
      if rideId !in rides {
        return Err("Ride not found"), [];
      }
      var ride := Apply(rides[rideId], status, extra);
      rides := rides[rideId := ride];
      if ride.passenger !in users {
        return Err(NullPassengerMessage), [];
      }
      r := Ok(ride);
      out := StatusEmits(rideId, ride, users);
    }

    /** ride:accept: records the driver and the start time with no check of the current status
        (a second accept replaces the first driver), tells the passenger, and withdraws the
        offer from every other connected driver. */
    method AcceptRide(rideId: RideId, driverId: UserId, now: Time)
      returns (removed: seq<UserId>, out: seq<Emit>)
      requires Valid()
      modifies this
      ensures Valid() && users == old(users) && nextId == old(nextId)
      ensures rideId !in old(rides) ==>
        rides == old(rides) && removed == [] && out == [ErrorTo("ride:accept", "Ride not found")]
      ensures rideId in old(rides) ==>
        && rides == old(rides)[rideId := Apply(old(rides)[rideId], Accepted, AcceptPatch(driverId, now))]
        && rides[rideId].driver == Some(driverId) && rides[rideId].status == Accepted
        && (rides[rideId].passenger !in users ==>
              removed == [] && out == [ErrorTo("ride:accept", NullPassengerMessage)])
        && (rides[rideId].passenger in users ==>
              && (forall d :: d in removed <==> d in users && TakesRemoval(d, users[d], driverId))
              && (forall i :: 0 <= i < |removed| ==> removed[i] in users && users[removed[i]].socketId.Some?)
              && (forall i, j :: 0 <= i < j < |removed| ==> removed[i] != removed[j])
              && out == StatusEmits(rideId, rides[rideId], users)
                        + [Emit(UserRoom(rides[rideId].passenger), RideAccepted(rideId))]
                        + SocketEmits(users, removed, RideRemove(rideId)))
    {
      var r, statusOut := UpdateRideStatus(rideId, Accepted, AcceptPatch(driverId, now));
      if r.Err? {
        return [], [ErrorTo("ride:accept", r.msg)];
      }
      var head := statusOut + [Emit(UserRoom(r.value.passenger), RideAccepted(rideId))];
      var removals;
      removed, removals := SendToEach(users, (d: UserId, u: User) => TakesRemoval(d, u, driverId), RideRemove(rideId));
      out := head + removals;
    }

    /** ride:reject: puts the ride back to requested with no driver. */
    method RejectRide(rideId: RideId) returns (out: seq<Emit>)
      requires Valid()
      modifies this
      ensures Valid() && users == old(users) && nextId == old(nextId)
      ensures rideId !in old(rides) ==>
        rides == old(rides) && out == [ErrorTo("ride:reject", "Ride not found")]
      ensures rideId in old(rides) ==>
        && rides == old(rides)[rideId := old(rides)[rideId].(status := Requested, driver := None)]
        && out == if rides[rideId].passenger in users then StatusEmits(rideId, rides[rideId], users)
                  else [ErrorTo("ride:reject", NullPassengerMessage)]
    {
      var r;
      r, out := UpdateRideStatus(rideId, Requested, Patch(Some(None), None, None, None));
      if r.Err? {
        out := [ErrorTo("ride:reject", r.msg)];
      }
    }

    /** ride:start: marks the ride in progress and stamps a new start time. */
    method StartRide(rideId: RideId, now: Time) returns (out: seq<Emit>)
      requires Valid()
      modifies this
      ensures Valid() && users == old(users) && nextId == old(nextId)
      ensures rideId !in old(rides) ==>
        rides == old(rides) && out == [ErrorTo("ride:start", "Ride not found")]
      ensures rideId in old(rides) ==>
        && rides == old(rides)[rideId := old(rides)[rideId].(status := InProgress, startedAt := Some(now))]
        && out == if rides[rideId].passenger in users then StatusEmits(rideId, rides[rideId], users)
                  else [ErrorTo("ride:start", NullPassengerMessage)]
    {
      var r;
      r, out := UpdateRideStatus(rideId, InProgress, Patch(None, Some(now), None, None));
      if r.Err? {
        out := [ErrorTo("ride:start", r.msg)];
      }
    }

    /** ride:cancel: marks the ride cancelled, from any status. */
    method CancelRide(rideId: RideId) returns (out: seq<Emit>)
      requires Valid()
      modifies this
      ensures Valid() && users == old(users) && nextId == old(nextId)
      ensures rideId !in old(rides) ==>
        rides == old(rides) && out == [ErrorTo("ride:cancel", "Ride not found")]
      ensures rideId in old(rides) ==>
        && rides == old(rides)[rideId := old(rides)[rideId].(status := Cancelled)]
        && out == if rides[rideId].passenger in users then StatusEmits(rideId, rides[rideId], users)
                  else [ErrorTo("ride:cancel", NullPassengerMessage)]
    {
      var r;
      r, out := UpdateRideStatus(rideId, Cancelled, NoPatch);
      if r.Err? {
        out := [ErrorTo("ride:cancel", r.msg)];
      }
    }

    /** driver:location: stores the position, broadcasts it, and, when the driver has an
        active ride, sends the ETA to the ride's target to the driver and the passenger. */
    method DriverLocation(driverId: UserId, lat: real, lng: real, now: Time) returns (out: seq<Emit>)
      requires Valid()
      modifies this
      ensures Valid() && rides == old(rides) && nextId == old(nextId)
      ensures users == if driverId in old(users)
                       then old(users)[driverId := old(users)[driverId].(location := Coord(lat, lng), lastUpdated := Some(now))]
                       else old(users)
      ensures |out| >= 1 && out[0] == Emit(Everyone, DriverLocationUpdate(driverId, Coord(lat, lng)))
      ensures ActiveRideOf(rides, nextId, driverId).None? ==> |out| == 1
      ensures ActiveRideOf(rides, nextId, driverId).Some? ==>
        var id := ActiveRideOf(rides, nextId, driverId).value;
        var target := EtaTarget(rides[id]).value;
        var meters := dist(Coord(lat, lng), target.1.at);
        var ev := EtaUpdate(id, target.0, EtaSeconds(meters), meters);
        out == [out[0], Emit(UserRoom(driverId), ev),
                if rides[id].passenger in users then Emit(UserRoom(rides[id].passenger), ev)
                else ErrorTo("driver:location", NullPassengerMessage)]
    {
      if driverId in users {
        users := users[driverId := users[driverId].(location := Coord(lat, lng), lastUpdated := Some(now))];
      }
      out := [Emit(Everyone, DriverLocationUpdate(driverId, Coord(lat, lng)))];
      var activeRide := ActiveRideOf(rides, nextId, driverId);
      if activeRide.Some? {
        var ride := rides[activeRide.value];
        var target := EtaTarget(ride);
        if target.Some? {
          var distanceMeters := dist(Coord(lat, lng), target.value.1.at);
          var etaSeconds := EtaSeconds(distanceMeters);
          var ev := EtaUpdate(activeRide.value, target.value.0, etaSeconds, distanceMeters);
          out := out + [Emit(UserRoom(driverId), ev)];
          if ride.passenger !in users {
            return out + [ErrorTo("driver:location", NullPassengerMessage)];
          }
          out := out + [Emit(UserRoom(ride.passenger), ev)];
        }
      }
    }

    /** ride:complete: marks the ride completed with the given fare, then asks the ledger to
        charge the passenger; a failed charge is reported to the caller and the passenger and
        leaves the ride completed. */
    method CompleteRide(rideId: RideId, fare: real, now: Time, payForRide: (UserId, RideId, real) -> Outcome)
      returns (out: seq<Emit>)
      requires Valid()
      modifies this
      ensures Valid() && users == old(users) && nextId == old(nextId)
      ensures rideId !in old(rides) ==>
        rides == old(rides) && out == [ErrorTo("ride:complete", "Ride not found")]
      ensures rideId in old(rides) ==>
        && rides == old(rides)[rideId := old(rides)[rideId].(status := Completed, completedAt := Some(now), fare := fare)]
        && rides[rideId].status == Completed
      ensures rideId in old(rides) && rides[rideId].passenger !in users ==>
        out == [ErrorTo("ride:complete", NullPassengerMessage)]
      ensures rideId in old(rides) && rides[rideId].passenger in users ==>
        var passenger := rides[rideId].passenger;
        out == StatusEmits(rideId, rides[rideId], users) +
                  match payForRide(passenger, rideId, fare)
                  case Pass => []
                  case Fail(msg) => [ErrorTo("ride:payment", msg), Emit(UserRoom(passenger), PaymentFailed(rideId))]
    {
      var r;
      r, out := UpdateRideStatus(rideId, Completed, Patch(None, None, Some(now), Some(fare)));
      if r.Err? {
        return [ErrorTo("ride:complete", r.msg)];
      }
      var ride := r.value;
      var paid := payForRide(ride.passenger, rideId, ride.fare);
      if paid.Fail? {
        out := out + [ErrorTo("ride:payment", paid.msg), Emit(UserRoom(ride.passenger), PaymentFailed(rideId))];
      }
    }

    /** ride:tip: asks the ledger to credit the driver, then tells the driver; no ride or user
        changes here. */
    method TipDriver(driverId: UserId, rideId: RideId, amount: real, tipDriver: (UserId, RideId, real) -> Outcome)
      returns (out: seq<Emit>)
      ensures tipDriver(driverId, rideId, amount).Pass? ==> out == [Emit(UserRoom(driverId), WalletUpdate)]
      ensures tipDriver(driverId, rideId, amount).Fail? ==>
        out == [ErrorTo("ride:tip", tipDriver(driverId, rideId, amount).msg)]
    {
      var tipped := tipDriver(driverId, rideId, amount);
      if tipped.Fail? {
        return [ErrorTo("ride:tip", tipped.msg)];
      }
      out := [Emit(UserRoom(driverId), WalletUpdate)];
    }

    /** rideshare:create: stores a shared ride waiting for passengers, with its creator as the
        only passenger and a capacity of three unless given, and announces it. */
    method CreateRideshare(passengerId: UserId, from: Place, to: Place, fare: real, maxPassengers: Option<int>)
      returns (id: RideId, out: seq<Emit>)
      requires Valid()
      modifies this
      ensures Valid() && users == old(users)
      ensures id == old(nextId) && id !in old(rides) && nextId == old(nextId) + 1
      ensures rides == old(rides)[id := Ride(passengerId, None, from, to, None, fare, RideshareWaiting, Pending,
                                             None, None, Some(Pool([passengerId],
                                               if maxPassengers.Some? then maxPassengers.value else DefaultMaxPassengers, None)))]
      ensures PoolOk(rides[id]) <==> maxPassengers.None? || maxPassengers.value >= 1
      ensures out == [Emit(Everyone, RideshareNew(id))]
    {
      var capacity := if maxPassengers.Some? then maxPassengers.value else DefaultMaxPassengers;
      id := nextId;
      rides := rides[id := Ride(passengerId, None, from, to, None, fare, RideshareWaiting, Pending,
                                None, None, Some(Pool([passengerId], capacity, None)))];
      nextId := nextId + 1;
      out := [Emit(Everyone, RideshareNew(id))];
    }

    /** rideshare:join: refuses a missing or unshared ride, a passenger already in the pool and
        a full pool, in that order; otherwise appends the passenger, recomputes the share, and
        once the pool is full puts the ride up for matching. */
    method JoinRideshare(rideId: RideId, passengerId: UserId) returns (out: seq<Emit>)
      requires Valid()
      modifies this
      ensures Valid() && users == old(users) && nextId == old(nextId)
      ensures rideId !in old(rides) || old(rides)[rideId].pool.None? ==>
        rides == old(rides) && out == [ErrorTo("rideshare:join", "Ride share not found")]
      ensures rideId in old(rides) && old(rides)[rideId].pool.Some? ==>
        var ride := old(rides)[rideId];
        var pl := ride.pool.value;
        var joined := pl.passengers + [passengerId];
        var full := |joined| == pl.maxPassengers;
        && (passengerId in pl.passengers ==>
              rides == old(rides) && out == [ErrorTo("rideshare:join", "Already joined")])
        && (passengerId !in pl.passengers && |pl.passengers| >= pl.maxPassengers ==>
              rides == old(rides) && out == [ErrorTo("rideshare:join", "Ride share full")])
        && (passengerId !in pl.passengers && |pl.passengers| < pl.maxPassengers ==>
              && rides == old(rides)[rideId := ride.(
                   pool := Some(pl.(passengers := joined, sharedFare := Some(ride.fare / (|joined| as real)))),
                   status := if full then Requested else ride.status)]
              && out == [Emit(PoolRoom(rideId), RideshareUpdate(rideId))]
                        + (if full then [Emit(Everyone, ShareReady(rideId))] else [])
              && (PoolOk(ride) ==> PoolOk(rides[rideId])))
    {
      if rideId !in rides || rides[rideId].pool.None? {
        return [ErrorTo("rideshare:join", "Ride share not found")];
      }
      var ride := rides[rideId];
      var pl := ride.pool.value;
      if passengerId in pl.passengers {
        return [ErrorTo("rideshare:join", "Already joined")];
      }
      if |pl.passengers| >= pl.maxPassengers {
        return [ErrorTo("rideshare:join", "Ride share full")];
      }
      var passengers := pl.passengers + [passengerId];
      var sharedFare := ride.fare / (|passengers| as real);
      ride := ride.(pool := Some(pl.(passengers := passengers, sharedFare := Some(sharedFare))));
      rides := rides[rideId := ride];
      out := [Emit(PoolRoom(rideId), RideshareUpdate(rideId))];
      if |passengers| == pl.maxPassengers {
        ride := ride.(status := Requested);
        rides := rides[rideId := ride];
        out := out + [Emit(Everyone, ShareReady(rideId))];
      }
      assert ride.pool.value.passengers == passengers;
      assert (|passengers| as real) > 0.0;
    }
  }
}
