/** The ride service: a ride table with a guarded driver assignment, unguarded status
    changes, and two queries. Notifications go out only once a socket namespace has been
    attached. */
module RideService {
  import opened Common

  /** A ride document as this service stores it: rider, pickup and drop-off, assigned driver,
      status, start and end times and fare. */
  datatype ServiceRide = ServiceRide(
    rider: UserId,
    pickup: Place,
    dropoff: Place,
    driver: Option<UserId>,
    status: RideStatus,
    startTime: Option<Time>,
    endTime: Option<Time>,
    fare: Option<real>)

  /** The events the service emits on the ride namespace. */
  datatype Notice =
    | NewRideRequest(ride: RideId, rider: UserId, pickup: Place, dropoff: Place)
    | RideAccepted(ride: RideId, driver: UserId, status: RideStatus)
    | RideStarted(ride: RideId, status: RideStatus)
    | RideCompleted(ride: RideId, fare: Option<real>)
    | RideCancelled(ride: RideId, cancelledBy: string)

  /** Who receives a notice: every connection of the namespace, or the ride's room. */
  datatype Audience = Namespace | RideRoom(RideId)

  datatype Notification = Notification(to: Audience, notice: Notice)

  /** The ride involves `u` as rider or as driver. */
  predicate Involves(r: ServiceRide, u: UserId)
  {
    r.rider == u || r.driver == Some(u)
  }

  predicate IsActive(r: ServiceRide)
  {
    r.status in {Requested, Accepted, Started}
  }

  /** getUserRides over the rides created first (ids below `n`): the rides of user `u`,
      newest first. */
  function UserRides(rides: map<RideId, ServiceRide>, n: nat, u: UserId): (r: seq<RideId>)
    requires forall id: RideId :: id < n ==> id in rides
    ensures forall id: RideId :: id in r <==> id < n && Involves(rides[id], u)
    ensures forall i, j :: 0 <= i < j < |r| ==> r[i] > r[j]
  {
    if n == 0 then []
    else
      var older := UserRides(rides, n - 1, u);
      assert forall k :: 0 <= k < |older| ==> older[k] < n - 1 by {
        forall k | 0 <= k < |older| ensures older[k] < n - 1 {
          assert older[k] in older;
        }
      }
      if Involves(rides[n - 1], u) then [n - 1] + older else older
  }

  /** getActiveRides over the rides with ids below `n`: those requested, accepted or started,
      in creation order. */
  function ActiveRides(rides: map<RideId, ServiceRide>, n: nat): (r: seq<RideId>)
    requires forall id: RideId :: id < n ==> id in rides
    ensures forall id: RideId :: id in r <==> id < n && IsActive(rides[id])
    ensures forall i, j :: 0 <= i < j < |r| ==> r[i] < r[j]
  {
    if n == 0 then []
    else
      var earlier := ActiveRides(rides, n - 1);
      assert forall k :: 0 <= k < |earlier| ==> earlier[k] < n - 1 by {
        forall k | 0 <= k < |earlier| ensures earlier[k] < n - 1 {
          assert earlier[k] in earlier;
        }
      }
      if IsActive(rides[n - 1]) then earlier + [n - 1] else earlier
  }

  class RideStore {
    var rides: map<RideId, ServiceRide>
    var nextId: RideId
    /** Whether setSocketInstance has run, so that notices are emitted. */
    var ioAttached: bool

    /** Rides are numbered in creation order and never deleted. */
    ghost predicate Valid()
      reads this
    {
      forall id: RideId :: id in rides <==> id < nextId
    }

    constructor ()
      ensures Valid()
      ensures rides == map[] && nextId == 0 && !ioAttached
    {
      rides := map[];
      nextId := 0;
      ioAttached := false;
    }

    /** The notices actually sent: none until a namespace is attached. */
    function Sent(n: Notification): seq<Notification>
      reads this
    {
      if ioAttached then [n] else []
    }

    /** setSocketInstance */
    method SetSocketInstance()
      modifies this
      ensures ioAttached
      ensures rides == old(rides) && nextId == old(nextId)
    {
      ioAttached := true;
    }

    /** createRide: stores a new requested ride and announces it to every connection. */
    method CreateRide(riderId: UserId, pickup: Place, dropoff: Place)
      returns (id: RideId, out: seq<Notification>)
      requires Valid()
      modifies this
      ensures Valid() && ioAttached == old(ioAttached)
      ensures id == old(nextId) && id !in old(rides) && nextId == old(nextId) + 1
      ensures rides == old(rides)[id := ServiceRide(riderId, pickup, dropoff, None, Requested, None, None, None)]
      ensures out == Sent(Notification(Namespace, NewRideRequest(id, riderId, pickup, dropoff)))
    {
      id := nextId;
      rides := rides[id := ServiceRide(riderId, pickup, dropoff, None, Requested, None, None, None)];
      nextId := nextId + 1;
      out := Sent(Notification(Namespace, NewRideRequest(id, riderId, pickup, dropoff)));
    }

    /** assignDriver: the one guarded transition; only a requested ride takes a driver, so a
        second assignment of the same ride fails and leaves it as it was. */
    method AssignDriver(rideId: RideId, driverId: UserId)
      returns (r: Result<ServiceRide>, out: seq<Notification>)
      requires Valid()
      modifies this
      ensures Valid() && nextId == old(nextId) && ioAttached == old(ioAttached)
      ensures rideId !in old(rides) ==>
        r == Err("Ride not found") && rides == old(rides) && out == []
      ensures rideId in old(rides) && old(rides)[rideId].status != Requested ==>
        r == Err("Ride not available") && rides == old(rides) && out == []
      ensures rideId in old(rides) && old(rides)[rideId].status == Requested ==>
        && r == Ok(old(rides)[rideId].(driver := Some(driverId), status := Accepted))
        && rides == old(rides)[rideId := r.value]
        && out == Sent(Notification(RideRoom(rideId), RideAccepted(rideId, driverId, Accepted)))
    {
      if rideId !in rides {
        return Err("Ride not found"), [];
      }
      var ride := rides[rideId];
      if ride.status != Requested {
        return Err("Ride not available"), [];
      }
      ride := ride.(driver := Some(driverId));
      ride := ride.(status := Accepted);
      rides := rides[rideId := ride];
      r := Ok(ride);
      out := Sent(Notification(RideRoom(rideId), RideAccepted(rideId, driverId, ride.status)));
    }

    /** startRide: marks any existing ride started, whatever its status. */
    method StartRide(rideId: RideId, now: Time)
      returns (r: Result<ServiceRide>, out: seq<Notification>)
      requires Valid()
      modifies this
      ensures Valid() && nextId == old(nextId) && ioAttached == old(ioAttached)
      ensures rideId !in old(rides) ==>
        r == Err("Ride not found") && rides == old(rides) && out == []
      ensures rideId in old(rides) ==>
        && r == Ok(old(rides)[rideId].(status := Started, startTime := Some(now)))
        && rides == old(rides)[rideId := r.value]
        && out == Sent(Notification(RideRoom(rideId), RideStarted(rideId, Started)))
    {
      if rideId !in rides {
        return Err("Ride not found"), [];
      }
      var ride := rides[rideId];
      ride := ride.(status := Started);
      ride := ride.(startTime := Some(now));
      rides := rides[rideId := ride];
      r := Ok(ride);
      out := Sent(Notification(RideRoom(rideId), RideStarted(rideId, ride.status)));
    }

    /** completeRide: marks any existing ride completed; the fare is replaced only by a truthy
        argument (present and non-zero). */
    method CompleteRide(rideId: RideId, fare: Option<real>, now: Time)
      returns (r: Result<ServiceRide>, out: seq<Notification>)
      requires Valid()
      modifies this
      ensures Valid() && nextId == old(nextId) && ioAttached == old(ioAttached)
      ensures rideId !in old(rides) ==>
        r == Err("Ride not found") && rides == old(rides) && out == []
      ensures rideId in old(rides) ==>
        && r.Ok?
        && r.value.status == Completed && r.value.endTime == Some(now)
        && r.value.fare == (if fare.Some? && fare.value != 0.0 then fare else old(rides)[rideId].fare)
        && r.value.(status := old(rides)[rideId].status, endTime := old(rides)[rideId].endTime,
                    fare := old(rides)[rideId].fare) == old(rides)[rideId]
        && rides == old(rides)[rideId := r.value]
        && out == Sent(Notification(RideRoom(rideId), RideCompleted(rideId, r.value.fare)))
    {
      if rideId !in rides {
        return Err("Ride not found"), [];
      }
      var ride := rides[rideId];
      ride := ride.(status := Completed);
      ride := ride.(endTime := Some(now));
      ride := ride.(fare := if fare.Some? && fare.value != 0.0 then fare else ride.fare);
      rides := rides[rideId := ride];
      r := Ok(ride);
      out := Sent(Notification(RideRoom(rideId), RideCompleted(rideId, ride.fare)));
    }

    /** cancelRide: marks any existing ride cancelled; who cancelled (default "system") only
        appears in the notice. */
    method CancelRide(rideId: RideId, cancelledBy: Option<string>)
      returns (r: Result<ServiceRide>, out: seq<Notification>)
      requires Valid()
      modifies this
      ensures Valid() && nextId == old(nextId) && ioAttached == old(ioAttached)
      ensures rideId !in old(rides) ==>
        r == Err("Ride not found") && rides == old(rides) && out == []
      ensures rideId in old(rides) ==>
        && r == Ok(old(rides)[rideId].(status := Cancelled))
        && rides == old(rides)[rideId := r.value]
        && out == Sent(Notification(RideRoom(rideId),
                   RideCancelled(rideId, if cancelledBy.Some? then cancelledBy.value else "system")))
    {
      var canceller := if cancelledBy.Some? then cancelledBy.value else "system";
      if rideId !in rides {
        return Err("Ride not found"), [];
      }
      var ride := rides[rideId];
      ride := ride.(status := Cancelled);
      rides := rides[rideId := ride];
      r := Ok(ride);
      out := Sent(Notification(RideRoom(rideId), RideCancelled(rideId, canceller)));
    }
  }
}
