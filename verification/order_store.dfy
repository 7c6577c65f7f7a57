/** The order service over a mutable store: the orders table, the reservation
    ledger, the wallet table and the expiration queue are fields, and the
    service operations update them step by step. Each operation is proved to
    have exactly the result and the effect of its specification in OrderService. */
module OrderStore {
  import opened Types
  import opened OrderService
  import opened OrderProperties

  class Store {
    var orders: seq<Order>
    var ledger: map<Slot, string>
    var wallets: seq<WalletAddress>
    var jobs: seq<ExpiryJob>

    /** The store as a value. */
    function State(): Db
      reads this
    {
      Db(orders, ledger, wallets, jobs)
    }

    /** An empty store over a wallet table. */
    constructor (walletTable: seq<WalletAddress>)
      ensures State() == Db([], map[], walletTable, [])
      ensures Valid(State()) && PendingHeld(State())
    {
      orders, ledger, wallets, jobs := [], map[], walletTable, [];
    }

    /** The allocator: pick the wallet, add the jitter, then probe at most 100
        candidates on that wallet, stepping by 0.0001 while the ledger holds the
        pair. Returns Err(WalletIndexOutOfRange) where the source indexes the
        wallet list with -1; `lookups` counts the ledger queries. */
    method CalculateAvailableWalletAndAmount(amount: int, walletAddress: seq<WalletAddress>,
                                             preferredAddress: string, fraction: int, pick: nat)
      returns (r: Result<Allocation>, ghost lookups: nat)
      requires MinFraction <= fraction <= MaxFraction
      requires pick < |walletAddress|
      ensures r == Allocate(ledger, amount, walletAddress, preferredAddress, fraction, pick)
      ensures lookups <= IncrementalMaximumNumber
      ensures r.Ok? && r.value.token != "" ==> lookups == r.value.amount - (amount + fraction) + 1
      ensures r.Ok? && r.value.token == "" ==> lookups == IncrementalMaximumNumber
    {
      var availableToken := "";
      var availableAmount := amount + fraction;
      var index: int := pick;
      if preferredAddress != "" {
        index := IndexOfToken(walletAddress, preferredAddress);
      }
      lookups := 0;
      if index < 0 {
        // walletAddress[-1]: the source panics on the first probe.
        return Err(WalletIndexOutOfRange), lookups;
      }
      ghost var token := walletAddress[index].token;
      ghost var first := amount + fraction;
      var i := 0;
      while i < IncrementalMaximumNumber
        invariant 0 <= i <= IncrementalMaximumNumber
        invariant availableAmount == first + i && lookups == i && availableToken == ""
        invariant Probe(ledger, token, first, IncrementalMaximumNumber)
               == Probe(ledger, token, availableAmount, IncrementalMaximumNumber - i)
      {
        var t := CheckWallet(ledger, walletAddress[index].token, availableAmount);
        lookups := lookups + 1;
        if t == "" {
          availableAmount := availableAmount + UsdtAmountPerIncrement;
          i := i + 1;
          continue;
        }
        availableToken := t;
        break;
      }
      r := Ok(Allocation(availableToken, availableAmount));
    }

    /** Order creation: the checks in source order, then the order row, the
        reservation and the expiration job. */
    method CreateTransaction(req: CreateTransactionRequest, env: Env) returns (r: Result<CreateTransactionResponse>)
      requires CreateReady(State(), req, env)
      modifies this
      ensures r == Create(old(State()), req, env).result
      ensures State() == Create(old(State()), req, env).db
      ensures Valid(old(State())) ==> Valid(State())
      ensures Valid(old(State())) && PendingHeld(old(State())) ==> PendingHeld(State())
    {
      ghost var before := State();
      var conv := ConvertAmount(req.amount, env.config.usdtRate, req.forceUsdtRate);
      if conv.Err? {
        return Err(conv.error);
      }
      var exist := FindOrder(orders, ByOrderId(req.orderId));
      if exist.Some? {
        return Err(OrderAlreadyExists);
      }
      var walletAddress := EnabledWallets(wallets);
      if |walletAddress| <= 0 {
        return Err(NotAvailableWalletAddress);
      }
      CreateAfterChecks(before, req, env);
      var alloc;
      ghost var lookups;
      alloc, lookups := CalculateAvailableWalletAndAmount(conv.value.usdtUnits, walletAddress, req.preferredAddress,
                                                          env.draws.fraction, env.draws.walletPick);
      if alloc.Err? {
        return Err(alloc.error);
      }
      if alloc.value.token == "" {
        return Err(NotAvailableAmountErr);
      }
      assert Create(before, req, env) == Commit(before, req, env, alloc.value);
      r := CommitOrder(req, env, alloc.value);
      if Valid(before) && PendingHeld(before) {
        CreatePreservesPendingHeld(before, req, env);
      }
    }

    /** The writes of a creation, in one database transaction: the order row
        under a new trade id, the reservation of the allocated pair, and the
        expiration job; then the response. An insert whose trade id is taken
        fails and the transaction is rolled back. */
    method CommitOrder(req: CreateTransactionRequest, env: Env, alloc: Allocation)
      returns (r: Result<CreateTransactionResponse>)
      requires ValidClock(env.clock) && env.draws.suffix < 1000
      modifies this
      ensures r == Commit(old(State()), req, env, alloc).result
      ensures State() == Commit(old(State()), req, env, alloc).db
      ensures Valid(old(State())) && FindOrder(old(orders), ByOrderId(req.orderId)).None? ==> Valid(State())
      ensures PendingHeld(old(State())) && Slot(alloc.token, alloc.amount) !in old(ledger) ==> PendingHeld(State())
    {
      ghost var before := State();
      if Valid(before) && FindOrder(before.orders, ByOrderId(req.orderId)).None? {
        CommitPreservesValid(before, req, env, alloc);
      }
      if PendingHeld(before) && Slot(alloc.token, alloc.amount) !in before.ledger {
        CommitPreservesPendingHeld(before, req, env, alloc);
      }
      var tradeId := GenerateCode(env.clock, env.draws.suffix);
      if FindOrder(orders, ByTradeId(tradeId)).Some? {
        // The insert fails and the transaction is rolled back.
        return Err(TradeIdTaken);
      }
      var order := NewOrder(req, tradeId, alloc);
      orders := orders + [order];
      ledger := ledger[Slot(alloc.token, alloc.amount) := tradeId];
      if env.enqueued {
        jobs := jobs + [ExpiryJob(tradeId, env.config.expirationMinutes)];
      }
      var expirationTime := env.clock.unixSeconds + 60 * env.config.expirationMinutes;
      r := Ok(CreateTransactionResponse(order.tradeId, order.orderId, order.amount, order.actualAmount, order.token,
                                        expirationTime, PaymentUrl(env.config.appUri, order.tradeId)));
      assert State() == Commit(before, req, env, alloc).db;
    }

    /** Order finalisation: reject a block transaction id already recorded,
        otherwise mark the order paid and release its reservation. */
    method OrderProcessing(req: OrderProcessingRequest) returns (r: Result<()>)
      modifies this
      ensures r == Finalise(old(State()), req).result
      ensures State() == Finalise(old(State()), req).db
      ensures Valid(old(State())) ==> Valid(State())
      ensures PendingHeld(old(State())) && ReleasesOwnPair(old(State()), req) ==> PendingHeld(State())
    {
      ghost var before := State();
      if Valid(before) {
        FinalisePreservesValid(before, req);
      }
      if PendingHeld(before) && ReleasesOwnPair(before, req) {
        FinalisePreservesPendingHeld(before, req);
      }
      var exist := FindOrder(orders, ByBlockId(req.blockTransactionId));
      if exist.Some? {
        return Err(OrderBlockAlreadyProcess);
      }
      orders := MarkPaid(orders, req.tradeId, req.blockTransactionId);
      ledger := Release(ledger, req.token, req.amount);
      r := Ok(());
    }

    /** The order with a trade id, or OrderNotExists when no row has it. */
    function GetOrderInfoByTradeId(tradeId: string): (r: Result<Order>)
      reads this
      ensures r.Ok? ==> r.value in orders && r.value.tradeId == tradeId
      ensures r.Err? <==> forall o :: o in orders ==> o.tradeId != tradeId
      ensures r.Err? ==> r.error == OrderNotExists
      ensures Valid(State()) && r.Ok? ==>
                forall i :: 0 <= i < |orders| && orders[i].tradeId == tradeId ==> orders[i] == r.value
    {
      var found := FindOrder(orders, ByTradeId(tradeId));
      if found.None? then Err(OrderNotExists) else Ok(found.value)
    }
  }
}
