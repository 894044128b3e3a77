# TeleRide backend core, modelled in Dafny

This project models the core of the TeleRide ride-hailing backend:

- **The real-time ride engine** (`RideSocket`, file `ride_socket.dfy`). It is a class
  `RideEngine` that holds the ride table, the user table (role, connection handle, location)
  and the distance function. It has one method per socket event handler:
  `joinRoom`, `ride:request`, `driver:nearby`, `ride:accept`, `ride:reject`, `ride:start`,
  `driver:location`, `ride:complete`, `ride:tip`, `ride:cancel`, `rideshare:create`,
  `rideshare:join` and `disconnect`. The accept, reject, start, complete and cancel
  handlers change the status through the shared `updateRideStatus` helper. `rideshare:join`
  sets the status of a full pool itself. The pure parts are functions: the nearby-ride filter, the
  search for a driver's active ride, the ETA target and the ETA rounding. The loop that sends
  an event to each matching driver is the method `SendToEach`. Outbound events are returned
  as `(recipient, event)` records.
- **The ride service** (`RideService`, file `ride_service.dfy`). It is a second ride table.
  Driver assignment is its only guarded transition. Start, complete and cancel overwrite the
  status. It also has two filter queries. The ride model this service imports
  (`models/Ride.js`) is not part of this model's sources. The fields of `ServiceRide`
  (rider, pickup, dropoff, driver, status, startTime, endTime, fare) are the ones the
  service itself reads and writes.
- **The wallet ledger** (`WalletService`, file `wallet_service.dfy`). It maps each user to a
  balance and keeps an append-only transaction log. The class invariant says that every
  balance equals its opening balance plus the net change the log records for that user. Each
  operation commits its transaction in the corrected form described under "## Findings".
- **The Telegram Mini App init-data check** (`VerifyTelegram`, file `verify_telegram.dfy`).
  It follows the Telegram Bot API procedure "Validating data received via the Mini App".
  Every field except `hash` is written as `key=value`. The entries are sorted, joined with
  line feeds and compared, through HMAC-SHA-256, with the received `hash`. The sort and the
  string order it uses are in `StringOrder` (file `string_order.dfy`). Shared types are in
  `Common` (file `common.dfy`).

The socket handlers check nothing about a ride's current status. A second `ride:accept`
replaces the first driver, and a completed or cancelled ride can be moved to any status. The
model keeps this behaviour (`SecondAcceptOverwrites`, `UpdateRideStatus`). It does not add
a first-accept-wins guard (accept only a `requested` ride) to the socket handlers. Only the
ride service's `assignDriver` has such a guard.

Nothing checks that the passenger named in `ride:request` is a user. For such a ride,
`updateRideStatus` writes the new state and then reads the populated passenger, which is
null. The read throws, so nothing is announced and the caller gets the error. The model
keeps this branch (`NullPassengerMessage`). A driver id that is no user gets no
`ride:status`, because the populated driver is null and the event goes to no room.

Where the schemas and the handler code disagree, the model follows the handlers:

- `rideshare_waiting` and `started` are written although the ride schema's enum does not
  list them.
- The pooling fields (`passengers`, `maxPassengers`, `shared`, `sharedFare`) are stored
  although the ride schema does not declare them.
- The driver's `lastUpdated` time is stored although the user schema does not declare it.
  Nothing reads it.
- The transaction documents differ from the transaction schema in three ways. They carry
  `user` and `balanceAfter`, which the schema does not declare. They lack `wallet`, which the
  schema requires. They use the type `"payment"`, which the schema's enum does not list (it
  has `"ride_payment"`). As written, validation therefore rejects every transaction before
  the wallet is saved (see "## Findings"). The ledger models the evidently intended
  behaviour: the document names the wallet and uses the schema's type string, and the
  undeclared fields are kept in the log.

## Model

| member | source | states |
|---|---|---|
| `RideSocket.SendToEach` | sockets/rideSocket.js:66-84 | An event goes to exactly the users the filter admits, once each, at each one's connection handle. `sentCount` is the length of the returned list. |
| `RideSocket.Nearby` | sockets/rideSocket.js:99-110 | Returns exactly the rides whose status is `requested` and whose pickup is at most 5000 m from the given point, in store order. |
| `RideSocket.ActiveRideOf` | sockets/rideSocket.js:174-177 | Returns the first ride in store order that is assigned to the driver and is `accepted` or `in_progress`, or none when no such ride exists. |
| `RideSocket.EtaTarget` | sockets/rideSocket.js:181-192 | The target is the pickup when the ride is `accepted` and the drop-off when it is `in_progress`. Any other status has no target. |
| `RideSocket.EtaSeconds` | sockets/rideSocket.js:199-200 | The ETA is `Math.round(distance / 10)`: the whole number within one half of the quotient, with halves rounded up. |
| `RideSocket.Apply` | sockets/rideSocket.js:336-339 | The stored ride after `{ status, ...extra }`: the new status and each field the patch gives, including a driver set to null. Every other field is unchanged. |
| `RideSocket.SecondAcceptOverwrites` | sockets/rideSocket.js:119-124 | A second accept does not fail. It leaves the ride as if only the second driver had accepted. |
| `RideSocket.OfferedRideIsPolled` | sockets/rideSocket.js:66-110 | A driver who is offered a ride that is still requested also finds that ride when polling from the same stored location. |
| `RideSocket.RideEngine.JoinRoom` | sockets/rideSocket.js:39-47 | Sets the user's connection handle if the user exists. Nothing else changes. |
| `RideSocket.RideEngine.Disconnect` | sockets/rideSocket.js:325-332 | When some user holds the closing handle, exactly one such user has it cleared and nobody else changes. Nothing changes when no user holds that handle. |
| `RideSocket.RideEngine.RequestRide` | sockets/rideSocket.js:50-92 | Always creates a new `requested` ride with the given fields. The offer goes to exactly the connected drivers with truthy coordinates within 5000 m. "No nearby drivers found." is sent exactly when nobody was reached. |
| `RideSocket.RideEngine.DriverNearby` | sockets/rideSocket.js:95-116 | Stores the supplied location first. Fails with "Driver not found" for an unknown driver. Otherwise lists the nearby requested rides for the driver's stored location. |
| `RideSocket.RideEngine.UpdateRideStatus` | sockets/rideSocket.js:335-348 | Fails with "Ride not found" for an absent ride and changes nothing. Otherwise it sets the status and the extra fields from any prior status and changes nothing else. It then notifies the passenger, the driver (if a user) and everyone. If the passenger is no user, it fails with the null-reference error after the write and sends nothing. |
| `RideSocket.RideEngine.AcceptRide` | sockets/rideSocket.js:119-142 | Records the driver and the start time, from any status. The passenger is told. `ride:remove` goes to every connected driver except the one who accepted. If the passenger is no user, the ride is still updated and only the error is sent. |
| `RideSocket.RideEngine.RejectRide` | sockets/rideSocket.js:145-151 | Puts the ride back to `requested` with no driver. Nothing else changes. The status notices go out, or the error if the passenger is no user. |
| `RideSocket.RideEngine.StartRide` | sockets/rideSocket.js:154-160 | Sets `in_progress` and a new start time, from any status. The status notices go out, or the error if the passenger is no user. |
| `RideSocket.RideEngine.CancelRide` | sockets/rideSocket.js:253-259 | Sets `cancelled` from any status. Nothing else changes. The status notices go out, or the error if the passenger is no user. |
| `RideSocket.RideEngine.DriverLocation` | sockets/rideSocket.js:163-221 | Stores the location and broadcasts it. The ETA goes to the driver and the passenger only when the driver has an active ride. It is measured from the reported position to that ride's target. If the passenger is no user, the driver's ETA is followed by the error instead. |
| `RideSocket.RideEngine.CompleteRide` | sockets/rideSocket.js:224-240 | Sets `completed`, the completion time and the fare. A failed payment leaves the ride completed. On failure the caller gets the error and the passenger gets `payment:failed`. If the passenger is no user, no payment is attempted and only the error is sent. |
| `RideSocket.RideEngine.TipDriver` | sockets/rideSocket.js:243-250 | A successful tip sends `wallet:update` to the driver. A failed tip sends only the error to the caller. |
| `RideSocket.RideEngine.CreateRideshare` | sockets/rideSocket.js:262-284 | Creates a shared ride in `rideshare_waiting` with the creator as the only passenger. Capacity is 3 unless given. The pool invariant holds exactly when the capacity is at least 1. |
| `RideSocket.RideEngine.JoinRideshare` | sockets/rideSocket.js:287-322 | Rejects, in this order: missing or not shared, already joined, full. On success it appends the passenger and sets `sharedFare = fare / count`. A full pool turns `requested`. The pool invariant is preserved. |
| `RideService.UserRides` | services/rideService.js:118-122 | Returns exactly the rides where the user is rider or driver, newest first. |
| `RideService.ActiveRides` | services/rideService.js:124-127 | Returns exactly the rides whose status is `requested`, `accepted` or `started`, in store order. |
| `RideService.RideStore.SetSocketInstance` | services/rideService.js:6-8 | Once attached, later operations send their notices. |
| `RideService.RideStore.CreateRide` | services/rideService.js:11-30 | Stores a new ride with status `requested` and announces it when a namespace is attached. |
| `RideService.RideStore.AssignDriver` | services/rideService.js:32-51 | Fails with "Ride not found", or with "Ride not available" when the status is not `requested`. Both failures leave the table unchanged. Otherwise it sets the driver and `accepted`, so a second assignment fails. |
| `RideService.RideStore.StartRide` | services/rideService.js:53-70 | Sets `started` and the start time for any existing ride, whatever its status. |
| `RideService.RideStore.CompleteRide` | services/rideService.js:72-89 | Sets `completed` and the end time. The fare is replaced only by a present, non-zero argument. Nothing else changes. |
| `RideService.RideStore.CancelRide` | services/rideService.js:91-106 | Sets `cancelled` from any status. The canceller (default `"system"`) appears only in the notice. |
| `WalletService.Commit` | services/walletService.js:13-20 | `Transaction.create` validates the document before `wallet.save()`. The stored balance changes exactly when the schema accepts the document. A rejected document fails with a validation error and leaves the balances as they were. |
| `WalletService.AsWrittenNeverCommits` | services/walletService.js:13-18 | As written, the document for any transaction is rejected, so no operation saves a balance. |
| `WalletService.CorrectedCommits` | services/walletService.js:13-20 | With the wallet named and the schema's type string, every transaction's new balance is saved. |
| `WalletService.NetIgnoresOthers` | services/walletService.js:7-59 | Transactions logged for other users do not change a user's net balance change. |
| `WalletService.NetWithoutPaymentsNonNegative` | services/walletService.js:10-47 | With positive amounts, a user whose log holds only top-ups and tips has a net change of at least zero. |
| `WalletService.Ledger.NoPaymentNoLoss` | services/walletService.js:6-59 | A wallet from which no payment was ever taken holds at least its opening balance. |
| `WalletService.Ledger.OthersLeaveBalance` | services/walletService.js:6-59 | Operations on other wallets never move a wallet's balance. |
| `WalletService.Ledger.TopUpWallet` | services/walletService.js:6-22 | Fails with "Wallet not found" and changes nothing. Otherwise it raises only that wallet by exactly `amount` and logs one `topup` whose `balanceAfter` is the new balance. |
| `WalletService.Ledger.PayForRide` | services/walletService.js:24-41 | Fails with "Wallet not found" or "Insufficient balance" and changes nothing. Otherwise it lowers only that wallet by exactly `amount` and logs one `payment` for the ride. Non-negative balances stay non-negative. |
| `WalletService.Ledger.TipDriver` | services/walletService.js:43-59 | Fails with "Driver wallet not found" and changes nothing. Otherwise it credits only the driver's wallet and logs one `tip` for the ride. |
| `StringOrder.Leq` | utils/verifyTelegram.js:11 | The default string comparison of `sort()`. A prefix sorts first, and when both strings are non-empty, the first characters are in order. |
| `StringOrder.LeqLexicographic` | utils/verifyTelegram.js:11 | `a` sorts no later than `b` exactly when `a` is a prefix of `b` or, at the first position where they differ, `a` has the smaller character. |
| `StringOrder.Insert` | utils/verifyTelegram.js:11 | Inserting into a sorted list gives a sorted list with exactly one more element. |
| `StringOrder.Sort` | utils/verifyTelegram.js:11 | The sort's outcome is sorted and is a permutation of its input. |
| `StringOrder.SortedUnique` | utils/verifyTelegram.js:11 | Two sorted lists with the same elements are equal, so the sorted outcome is unique. |
| `StringOrder.SortPermutationInvariant` | utils/verifyTelegram.js:11 | Sorting two permutations of one list gives the same result. |
| `VerifyTelegram.HashParam` | utils/verifyTelegram.js:22 | Returns the value of the first field named `hash`. It is absent exactly when no field has that name. |
| `VerifyTelegram.Entries` | utils/verifyTelegram.js:7-9 | The `key=value` entries pushed for the fields not named `hash`. There are at most as many entries as fields, and each entry comes from such a field. |
| `VerifyTelegram.Join` | utils/verifyTelegram.js:12 | `join("\n")`: the first entry, followed by a line feed when more entries follow. |
| `VerifyTelegram.EntriesMembership` | utils/verifyTelegram.js:7-9 | An entry exists exactly for some field not named `hash`, written `key=value`. |
| `VerifyTelegram.EntriesCount` | utils/verifyTelegram.js:7-9 | There are at most as many entries as fields. There are exactly as many exactly when no field is named `hash`. |
| `VerifyTelegram.EntriesMultiplicity` | utils/verifyTelegram.js:7-9 | Each field not named `hash` yields exactly one entry. An entry occurs as often as there are such fields written that way, repeated fields included. |
| `VerifyTelegram.EntriesPermutation` | utils/verifyTelegram.js:7-9 | Reordering the fields reorders the entries and changes nothing else. |
| `VerifyTelegram.DataCheckStringOrderIndependent` | utils/verifyTelegram.js:7-12 | The data-check string does not depend on the order of the fields. |
| `VerifyTelegram.JoinSnoc` | utils/verifyTelegram.js:12 | Separators go only between entries. There is none after the last entry. |
| `VerifyTelegram.SplitJoin` | utils/verifyTelegram.js:12 | Cutting the joined string at line feeds gives the entries back, when no entry contains a line feed. |
| `VerifyTelegram.DataCheckStringLines` | utils/verifyTelegram.js:7-12 | The lines of the data-check string are the entries, sorted, each as often as it was produced. |
| `VerifyTelegram.VerifyTelegramAuth` | utils/verifyTelegram.js:3-25 | Returns true exactly when the first `hash` field equals hex(HMAC(HMAC("WebAppData", botToken), dataCheckString)). A missing `hash` always gives false. |

## Findings

| source | as written | input that shows it | evidently intended | confidence | as-written member | corrected member |
|---|---|---|---|---|---|---|
| services/walletService.js:13-18 | `Transaction.create` gets no `wallet`, which the schema requires (models/transaction.model.js:4). For a payment it also gets the type `"payment"`, which the schema's enum does not list. Validation throws before `wallet.save()` runs. The same holds at lines 31-37 and 49-55. | `topUpWallet(u, 10)` for a user who has a wallet: the in-memory balance rises, the create throws, and the stored balance is unchanged. | The document names the wallet and uses `"ride_payment"`. The balance is saved. | not executed | `WalletService.AsWrittenNeverCommits` | `WalletService.CorrectedCommits` |

## Left out

- Socket transport: the handshake authentication, room joins, logging and the actual delivery
  of events are not modelled. Events are returned as records. A ride document in an event is
  represented by its id.
- Persistence: the store is an in-memory map. Rides are numbered in creation order and never
  deleted, so the store's natural order is id order. `getUserRides` sorts by `createdAt`,
  which the model takes as creation order. Field projection is not modelled, and `populate`
  only as far as a reference to a missing user comes back null.
- Schema validation is not enforced. The handlers write values the schemas would reject (see
  above).
- The haversine library is not modelled. Distance is the engine's `dist` parameter, a
  function to whole metres. Its symmetry and its value on equal points are not claimed.
- RideSocket.EtaSeconds: rounds a distance in whole metres, not the library's floating-point
  distance.
- Floating-point numbers: coordinates, fares, `sharedFare` and balances are exact `real`
  numbers, so rounding errors are not modelled. NaN and `undefined` coordinates are not
  modelled. Of JavaScript's falsy values, only 0 is.
- Timestamps are opaque clock values passed in by the caller.
- Concurrency: races between simultaneous events are not modelled. Every handler runs to
  completion before the next one starts.
- Settlement and tips in the socket engine: `payForRide` and `tipDriver` are called there but
  never imported, so as written each call throws before reaching a ledger. The model passes
  them in as external calls that may fail. It does not connect them to `WalletService`.
- RideSocket.SendToEach: the store returns users in no specified order, so the order of the
  offers and removals is left open.
- RideSocket.RideEngine.Disconnect: the cleared user is one of the users holding the handle,
  not necessarily the first in store order.
- A ride with no driver, or with a driver id that is no user: the model sends no
  `ride:status` to a driver room. This covers a ride after `ride:reject` and a ride
  cancelled before any accept. The populated driver is null then, so socket.io sends the
  event to a room named `undefined`, which nobody joins.
- Unusual argument values: `maxPassengers` is either absent or an integer. `fare` in
  `ride:complete` is always present.
- `updateDriverLocation` in the ride service only sends a notice and changes nothing, so it
  is not modelled.
- The wallet HTTP layer: its `amount > 0` check is a precondition of the three wallet
  operations. Wallet creation and `getWalletByUser` are not part of the service.
- Telegram parsing and cryptography: fields arrive already URL-decoded as (key, value)
  pairs. HMAC-SHA-256, UTF-8 encoding and hexadecimal rendering are parameters (`Crypto`).
- StringOrder.Sort: the model compares strings by Unicode scalar value. JavaScript compares
  UTF-16 code units, which gives a different order only for characters outside the Basic
  Multilingual Plane. The sort's outcome is modelled, not its in-place algorithm.
