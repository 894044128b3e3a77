/** The wallet ledger: one balance per user's wallet and an append-only log of the
    transactions recorded against them. */
module WalletService {
  import opened Common

  /** The `type` a transaction record is created with. */
  datatype TxnKind = TopUp | Payment | Tip

  /** A Transaction document: whose wallet, the ride it pays for (payments and tips), its kind,
      the amount, and the wallet's balance once it was applied. */
  datatype Txn = Txn(user: UserId, ride: Option<RideId>, kind: TxnKind, amount: real, balanceAfter: real)

  /** A Transaction document as the schema validates it: the wallet it belongs to (required),
      its `type` string, its amount and the ride. The schema declares no `user` and no
      `balanceAfter`. */
  datatype TxnDoc = TxnDoc(wallet: Option<UserId>, kind: string, amount: real, ride: Option<RideId>)

  /** The schema's validation: a wallet is present and the type is one the enum lists. */
  predicate SchemaAccepts(d: TxnDoc)
  {
    d.wallet.Some? && d.kind in {"topup", "ride_payment", "tip"}
  }

  /** The document the service hands to `Transaction.create`, as written: no wallet, and the
      type "payment" for a ride payment. */
  function DocAsWritten(t: Txn): TxnDoc
  {
    TxnDoc(None, match t.kind case TopUp => "topup" case Payment => "payment" case Tip => "tip",
           t.amount, t.ride)
  }

  /** The document the schema asks for: the wallet, named by its owner (each user has at most
      one wallet), and the type "ride_payment" for a ride payment. */
  function DocCorrected(t: Txn): TxnDoc
  {
    TxnDoc(Some(t.user), match t.kind case TopUp => "topup" case Payment => "ride_payment" case Tip => "tip",
           t.amount, t.ride)
  }

  /** The stored balances once an operation has passed its wallet checks: `Transaction.create`
      validates `doc` first, and only an accepted document lets `wallet.save()` run. */
  function Commit(balances: map<UserId, real>, t: Txn, doc: TxnDoc): (r: Result<map<UserId, real>>)
    ensures r.Ok? <==> SchemaAccepts(doc)
    ensures r.Ok? ==> r.value == balances[t.user := t.balanceAfter]
    ensures r.Err? ==> r.msg == "Transaction validation failed"
  {
    if SchemaAccepts(doc) then Ok(balances[t.user := t.balanceAfter])
    else Err("Transaction validation failed")
  }

  /** As written, no wallet operation ever saves a balance: its document never names the
      wallet, so validation rejects it before `wallet.save()`. */
  lemma AsWrittenNeverCommits(balances: map<UserId, real>, t: Txn)
    ensures Commit(balances, t, DocAsWritten(t)) == Err("Transaction validation failed")
  {
  }

  /** With the wallet named and the schema's type string, every operation commits its
      transaction to the stored balance. */
  lemma CorrectedCommits(balances: map<UserId, real>, t: Txn)
    ensures Commit(balances, t, DocCorrected(t)) == Ok(balances[t.user := t.balanceAfter])
  {
  }

  /** How much transaction `t` moves user `u`'s balance: payments debit, top-ups and tips credit. */
  function Effect(t: Txn, u: UserId): real
  {
    if t.user != u then 0.0
    else if t.kind == Payment then -t.amount
    else t.amount
  }

  /** The net change the whole log records for user `u`. */
  function Net(log: seq<Txn>, u: UserId): real
  {
    if log == [] then 0.0
    else Net(log[..|log| - 1], u) + Effect(log[|log| - 1], u)
  }

  lemma NetSnoc(log: seq<Txn>, t: Txn, u: UserId)
    ensures Net(log + [t], u) == Net(log, u) + Effect(t, u)
  {
    assert (log + [t])[..|log|] == log;
  }

  /** Transactions of other users leave a user's net change alone. */
  lemma {:induction false} NetIgnoresOthers(log: seq<Txn>, extra: seq<Txn>, u: UserId)
    requires forall k :: 0 <= k < |extra| ==> extra[k].user != u
    ensures Net(log + extra, u) == Net(log, u)
    decreases |extra|
  {
    if extra == [] {
      assert log + extra == log;
    } else {
      var init := extra[..|extra| - 1];
      NetIgnoresOthers(log, init, u);
      assert (log + extra)[..|log + extra| - 1] == log + init;
      assert (log + extra)[|log + extra| - 1] == extra[|extra| - 1];
    }
  }

  class Ledger {
    /** Wallet.balance of every user that has a wallet. */
    var balances: map<UserId, real>
    /** The Transaction documents, in creation order. */
    var log: seq<Txn>
    /** Each wallet's balance before the first logged transaction. */
    ghost var opening: map<UserId, real>

    /** Every balance is its opening balance plus what the log records for it, and every
        logged amount is positive (each operation refuses any other). */
    ghost predicate Valid()
      reads this
    {
      && balances.Keys == opening.Keys
      && (forall u :: u in balances ==> balances[u] == opening[u] + Net(log, u))
      && (forall k :: 0 <= k < |log| ==> log[k].amount > 0.0)
    }

    constructor (wallets: map<UserId, real>)
      ensures Valid()
      ensures balances == wallets && log == []
    {
      balances := wallets;
      opening := wallets;
      log := [];
    }

    /** Applies `t` to its own user's wallet and appends it to the log, recording the document
        the schema accepts. */
    method Record(t: Txn)
      requires Valid()
      requires t.user in balances
      requires t.amount > 0.0
      requires t.balanceAfter == balances[t.user] + Effect(t, t.user)
      modifies this
      ensures Valid()
      ensures balances == old(balances)[t.user := t.balanceAfter]
      ensures log == old(log) + [t]
      ensures opening == old(opening)
    {
      CorrectedCommits(balances, t);
      balances := Commit(balances, t, DocCorrected(t)).value;
      log := log + [t];
      forall u | u in balances
        ensures balances[u] == opening[u] + Net(log, u)
      {
        NetSnoc(old(log), t, u);
      }
    }

    /** A wallet that no payment has been taken from holds at least its opening balance. */
    lemma NoPaymentNoLoss(u: UserId)
      requires Valid() && u in balances
      requires forall k :: 0 <= k < |log| ==> log[k].user == u ==> log[k].kind != Payment
      ensures balances[u] >= opening[u]
    {
      NetWithoutPaymentsNonNegative(log, u);
    }

    /** Whatever other users have recorded since the log read `before` leaves `u`'s balance
        where `before` put it. */
    lemma OthersLeaveBalance(u: UserId, before: seq<Txn>, since: seq<Txn>)
      requires Valid() && u in balances
      requires log == before + since
      requires forall k :: 0 <= k < |since| ==> since[k].user != u
      ensures balances[u] == opening[u] + Net(before, u)
    {
      NetIgnoresOthers(before, since, u);
    }

    /** topUpWallet: credits `amount` to the user's wallet and logs a top-up. */
    method TopUpWallet(userId: UserId, amount: real) returns (r: Result<Txn>)
      requires Valid()
      requires amount > 0.0
      modifies this
      ensures Valid()
      ensures userId !in old(balances) ==>
        r == Err("Wallet not found") && balances == old(balances) && log == old(log)
      ensures userId in old(balances) ==>
        && r == Ok(Txn(userId, None, TopUp, amount, old(balances)[userId] + amount))
        && balances == old(balances)[userId := old(balances)[userId] + amount]
        && log == old(log) + [r.value]
    {
      if userId !in balances {
        return Err("Wallet not found");
      }
      var txn := Txn(userId, None, TopUp, amount, balances[userId] + amount);
      Record(txn);
      r := Ok(txn);
    }

    /** payForRide: debits `amount` from the user's wallet when the balance covers it and
        logs a payment for the ride. */
    method PayForRide(userId: UserId, rideId: RideId, amount: real) returns (r: Result<Txn>)
      requires Valid()
      requires amount > 0.0
      modifies this
      ensures Valid()
      ensures userId !in old(balances) ==>
        r == Err("Wallet not found") && balances == old(balances) && log == old(log)
      ensures userId in old(balances) && old(balances)[userId] < amount ==>
        r == Err("Insufficient balance") && balances == old(balances) && log == old(log)
      ensures userId in old(balances) && old(balances)[userId] >= amount ==>
        && r == Ok(Txn(userId, Some(rideId), Payment, amount, old(balances)[userId] - amount))
        && balances == old(balances)[userId := old(balances)[userId] - amount]
        && log == old(log) + [r.value]
      ensures (forall u :: u in old(balances) ==> old(balances)[u] >= 0.0) ==>
        forall u :: u in balances ==> balances[u] >= 0.0
    {
      if userId !in balances {
        return Err("Wallet not found");
      }
      if balances[userId] < amount {
        return Err("Insufficient balance");
      }
      var txn := Txn(userId, Some(rideId), Payment, amount, balances[userId] - amount);
      Record(txn);
      r := Ok(txn);
    }

    /** tipDriver: credits `amount` to the driver's wallet and logs a tip for the ride. */
    method TipDriver(driverId: UserId, rideId: RideId, amount: real) returns (r: Result<Txn>)
      requires Valid()
      requires amount > 0.0
      modifies this
      ensures Valid()
      ensures driverId !in old(balances) ==>
        r == Err("Driver wallet not found") && balances == old(balances) && log == old(log)
      ensures driverId in old(balances) ==>
        && r == Ok(Txn(driverId, Some(rideId), Tip, amount, old(balances)[driverId] + amount))
        && balances == old(balances)[driverId := old(balances)[driverId] + amount]
        && log == old(log) + [r.value]
    {
      if driverId !in balances {
        return Err("Driver wallet not found");
      }
      var txn := Txn(driverId, Some(rideId), Tip, amount, balances[driverId] + amount);
      Record(txn);
      r := Ok(txn);
    }
  }

  /** Credits never lower a balance and a payment lowers it by its amount: with positive
      amounts, a user whose log holds no payment has at least the opening balance. */
  lemma {:induction false} NetWithoutPaymentsNonNegative(log: seq<Txn>, u: UserId)
    requires forall k :: 0 <= k < |log| ==> log[k].amount > 0.0
    requires forall k :: 0 <= k < |log| ==> log[k].user == u ==> log[k].kind != Payment
    ensures Net(log, u) >= 0.0
    decreases |log|
  {
    if log != [] {
      NetWithoutPaymentsNonNegative(log[..|log| - 1], u);
    }
  }
}
