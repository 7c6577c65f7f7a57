/** Properties of order creation and order finalisation: the order of the
    checks, that a failure writes nothing, what a success writes, that the
    store invariant (and with it the collision-freedom of reservations) is
    preserved, and the two idempotency guards. */
module OrderProperties {
  import opened Types
  import opened Decimals
  import opened OrderService

  // ---------------------------------------------------------------------------
  // Conversion

  /** With a forced rate, the configured rate plays no part. */
  lemma ForcedRateTakesPrecedence(amount: real, rate: real, configA: real, configB: real)
    requires rate != 0.0
    ensures ConvertAmount(amount, configA, Some(rate)) == ConvertAmount(amount, configB, Some(rate))
  {
  }

  /** 10.00 at the rate 7.2 passes both minimums and converts to 1.3889. */
  lemma ConversionExample()
    ensures ConvertAmount(10.0, 7.2, None).Ok?
    ensures ConvertAmount(10.0, 7.2, None).value.payUnits == 100000
    ensures ConvertAmount(10.0, 7.2, None).value.usdtUnits == 13889
  {
    assert Round4(10.0) == 100000 by { Round4OfUnits(100000); }
  }

  // ---------------------------------------------------------------------------
  // Creation: the checks and their order

  /** Each failure of creation, in the order the checks run, and the fact that
      no failure writes anything. */
  lemma CreateChecksInOrder(db: Db, req: CreateTransactionRequest, env: Env)
    requires CreateReady(db, req, env)
    ensures var s := Create(db, req, env);
      var conv := ConvertAmount(req.amount, env.config.usdtRate, req.forceUsdtRate);
      var duplicate := exists o :: o in db.orders && o.orderId == req.orderId;
      var poolEmpty := forall w :: w in db.wallets ==> w.status != Enabled;
      && (s.result.Err? ==> s.db == db)
      && (s.result == Err(PayAmountErr) <==> conv.Err?)
      && (s.result == Err(OrderAlreadyExists) <==> conv.Ok? && duplicate)
      && (s.result == Err(NotAvailableWalletAddress) <==> conv.Ok? && !duplicate && poolEmpty)
      && (s.result == Err(WalletIndexOutOfRange) <==>
            && conv.Ok? && !duplicate && !poolEmpty
            && req.preferredAddress != ""
            && forall w :: w in db.wallets && w.status == Enabled ==> w.token != req.preferredAddress)
  {
    var conv := ConvertAmount(req.amount, env.config.usdtRate, req.forceUsdtRate);
    var wallets := EnabledWallets(db.wallets);
    if |wallets| > 0 {
      assert wallets[0] in wallets;
      if req.preferredAddress != "" {
        var index := IndexOfToken(wallets, req.preferredAddress);
        if index >= 0 {
          assert wallets[index] in wallets;
        } else {
          forall w | w in db.wallets && w.status == Enabled
            ensures w.token != req.preferredAddress
          {
            var j :| 0 <= j < |wallets| && wallets[j] == w;
          }
        }
      }
    }
    if conv.Ok? && FindOrder(db.orders, ByOrderId(req.orderId)).None? && |wallets| > 0 {
      var alloc := Allocate(db.ledger, conv.value.usdtUnits, wallets, req.preferredAddress,
                            env.draws.fraction, env.draws.walletPick);
      AllocateFinds(db.ledger, conv.value.usdtUnits, wallets, req.preferredAddress,
                    env.draws.fraction, env.draws.walletPick);
    }
  }

  /** Creation fails with NotAvailableAmountErr exactly when all 100 candidates
      from round4(usdt) + jitter upward are reserved on the chosen wallet (a
      wallet with an empty token counts as having none free). */
  lemma CreateExhausted(db: Db, req: CreateTransactionRequest, env: Env)
    requires CreateReady(db, req, env)
    requires ConvertAmount(req.amount, env.config.usdtRate, req.forceUsdtRate).Ok?
    requires forall o :: o in db.orders ==> o.orderId != req.orderId
    requires |EnabledWallets(db.wallets)| > 0
    requires WalletIndex(EnabledWallets(db.wallets), req.preferredAddress, env.draws.walletPick) >= 0
    ensures var wallets := EnabledWallets(db.wallets);
      var token := wallets[WalletIndex(wallets, req.preferredAddress, env.draws.walletPick)].token;
      var first := ConvertAmount(req.amount, env.config.usdtRate, req.forceUsdtRate).value.usdtUnits + env.draws.fraction;
      Create(db, req, env).result == Err(NotAvailableAmountErr) <==>
        forall a :: first <= a < first + IncrementalMaximumNumber ==> token == "" || Reserved(db.ledger, token, a)
  {
    var conv := ConvertAmount(req.amount, env.config.usdtRate, req.forceUsdtRate).value;
    var wallets := EnabledWallets(db.wallets);
    assert FindOrder(db.orders, ByOrderId(req.orderId)).None?;
    CreateAfterChecks(db, req, env);
    AllocateFinds(db.ledger, conv.usdtUnits, wallets, req.preferredAddress, env.draws.fraction, env.draws.walletPick);
    var r := Allocate(db.ledger, conv.usdtUnits, wallets, req.preferredAddress, env.draws.fraction, env.draws.walletPick);
    assert r.Ok?;
    if r.value.token != "" {
      assert !Reserved(db.ledger, r.value.token, r.value.amount);
      assert Create(db, req, env).result.Ok? || Create(db, req, env).result == Err(TradeIdTaken);
    }
  }

  /** Once the amount, duplicate and pool checks pass, creation is the
      allocation followed by Commit. */
  lemma CreateAfterChecks(db: Db, req: CreateTransactionRequest, env: Env)
    requires CreateReady(db, req, env)
    requires ConvertAmount(req.amount, env.config.usdtRate, req.forceUsdtRate).Ok?
    requires FindOrder(db.orders, ByOrderId(req.orderId)).None?
    requires |EnabledWallets(db.wallets)| > 0
    ensures var conv := ConvertAmount(req.amount, env.config.usdtRate, req.forceUsdtRate).value;
      var alloc := Allocate(db.ledger, conv.usdtUnits, EnabledWallets(db.wallets), req.preferredAddress,
                            env.draws.fraction, env.draws.walletPick);
      Create(db, req, env) ==
        if alloc.Err? then Step(Err(alloc.error), db)
        else if alloc.value.token == "" then Step(Err(NotAvailableAmountErr), db)
        else Commit(db, req, env, alloc.value)
  {
  }

  // ---------------------------------------------------------------------------
  // Creation: what a success writes

  /** A successful creation inserts exactly one WaitPay order carrying the
      allocated token and amount, reserves exactly that (token, amount) pair,
      which was free, for the new trade id, queues the expiration job when the
      queue accepts it, and changes nothing else. */
  lemma CreateWrites(db: Db, req: CreateTransactionRequest, env: Env)
    requires CreateReady(db, req, env) && Valid(db)
    requires Create(db, req, env).result.Ok?
    ensures var s := Create(db, req, env);
      var resp := s.result.value;
      var slot := Slot(resp.token, resp.actualAmount);
      && resp.tradeId == GenerateCode(env.clock, env.draws.suffix)
      && resp.orderId == req.orderId && resp.amount == req.amount
      && s.db.orders == db.orders + [NewOrder(req, resp.tradeId, Allocation(resp.token, resp.actualAmount))]
      && s.db.orders[|db.orders|].status == WaitPay
      && slot !in db.ledger
      && s.db.ledger == db.ledger[slot := resp.tradeId]
      && |s.db.ledger| == |db.ledger| + 1
      && s.db.wallets == db.wallets
      && s.db.jobs == (if env.enqueued then db.jobs + [ExpiryJob(resp.tradeId, env.config.expirationMinutes)] else db.jobs)
      && resp.expirationTime == env.clock.unixSeconds + 60 * env.config.expirationMinutes
      && resp.paymentUrl == PaymentUrl(env.config.appUri, resp.tradeId)
  {
    var conv := ConvertAmount(req.amount, env.config.usdtRate, req.forceUsdtRate).value;
    var wallets := EnabledWallets(db.wallets);
    AllocateFinds(db.ledger, conv.usdtUnits, wallets, req.preferredAddress, env.draws.fraction, env.draws.walletPick);
    var resp := Create(db, req, env).result.value;
    var slot := Slot(resp.token, resp.actualAmount);
    assert !Reserved(db.ledger, resp.token, resp.actualAmount);
    assert slot !in db.ledger;
  }

  /** The actual amount of a new order is round4(usdt) + f + k ten-thousandths
      with 5 <= f <= 99 the jitter and k < 100, on an enabled wallet, and every
      candidate below it on that wallet was reserved. */
  lemma CreateAllocates(db: Db, req: CreateTransactionRequest, env: Env)
    requires CreateReady(db, req, env)
    requires Create(db, req, env).result.Ok?
    ensures var resp := Create(db, req, env).result.value;
      var conv := ConvertAmount(req.amount, env.config.usdtRate, req.forceUsdtRate);
      var first := conv.value.usdtUnits + env.draws.fraction;
      && conv.Ok?
      && conv.value.usdtUnits + MinFraction <= first <= conv.value.usdtUnits + MaxFraction
      && first <= resp.actualAmount < first + IncrementalMaximumNumber
      && WalletAddress(resp.token, Enabled) in db.wallets
      && (req.preferredAddress != "" ==> resp.token == req.preferredAddress)
      && !Reserved(db.ledger, resp.token, resp.actualAmount)
      && forall a :: first <= a < resp.actualAmount ==> Reserved(db.ledger, resp.token, a)
  {
    var conv := ConvertAmount(req.amount, env.config.usdtRate, req.forceUsdtRate).value;
    var wallets := EnabledWallets(db.wallets);
    AllocateFinds(db.ledger, conv.usdtUnits, wallets, req.preferredAddress, env.draws.fraction, env.draws.walletPick);
    var index := WalletIndex(wallets, req.preferredAddress, env.draws.walletPick);
    assert wallets[index] in wallets;
  }

  /** A second creation with the same merchant order id and configuration fails
      with OrderAlreadyExists and writes nothing, so one order is stored. */
  lemma CreateTwiceSameOrderId(db: Db, req: CreateTransactionRequest, env1: Env, env2: Env)
    requires CreateReady(db, req, env1)
    requires Create(db, req, env1).result.Ok?
    requires env2.config == env1.config && CreateReady(Create(db, req, env1).db, req, env2)
    ensures var s1 := Create(db, req, env1);
      var s2 := Create(s1.db, req, env2);
      s2.result == Err(OrderAlreadyExists) && s2.db == s1.db
  {
    var s1 := Create(db, req, env1);
    var o := s1.db.orders[|db.orders|];
    assert o in s1.db.orders && Matches(o, ByOrderId(req.orderId));
  }

  // ---------------------------------------------------------------------------
  // The store invariant

  /** The writes keep the store invariant when the merchant order id is new:
      the trade id is checked fresh, and the new reservation is held by the new
      order. */
  lemma CommitPreservesValid(db: Db, req: CreateTransactionRequest, env: Env, alloc: Allocation)
    requires ValidClock(env.clock) && env.draws.suffix < 1000 && Valid(db)
    requires FindOrder(db.orders, ByOrderId(req.orderId)).None?
    ensures Valid(Commit(db, req, env, alloc).db)
  {
    var tradeId := GenerateCode(env.clock, env.draws.suffix);
    if FindOrder(db.orders, ByTradeId(tradeId)).None? {
      var s := Commit(db, req, env, alloc);
      var order := NewOrder(req, tradeId, alloc);
      var orders := s.db.orders;
      var n := |db.orders|;
      assert orders == db.orders + [order];
      forall i | 0 <= i < n
        ensures orders[i] == db.orders[i]
        ensures orders[i].orderId != order.orderId && orders[i].tradeId != order.tradeId
      {
        assert db.orders[i] in db.orders;
        assert !Matches(db.orders[i], ByOrderId(req.orderId));
        assert !Matches(db.orders[i], ByTradeId(tradeId));
      }
      var slot := Slot(alloc.token, alloc.amount);
      forall sl | sl in s.db.ledger
        ensures s.db.ledger[sl] != "" && exists i :: 0 <= i < |orders| && Holds(orders[i], sl, s.db.ledger[sl])
      {
        if sl == slot {
          assert Holds(orders[n], sl, s.db.ledger[sl]);
        } else {
          var i :| 0 <= i < n && Holds(db.orders[i], sl, db.ledger[sl]);
          assert Holds(orders[i], sl, s.db.ledger[sl]);
        }
      }
    }
  }

  /** Creation keeps the store invariant: a failure writes nothing, and a
      success is Commit with a merchant order id that was checked new. */
  lemma CreatePreservesValid(db: Db, req: CreateTransactionRequest, env: Env)
    requires CreateReady(db, req, env) && Valid(db)
    ensures Valid(Create(db, req, env).db)
  {
    var conv := ConvertAmount(req.amount, env.config.usdtRate, req.forceUsdtRate);
    var wallets := EnabledWallets(db.wallets);
    if conv.Ok? && FindOrder(db.orders, ByOrderId(req.orderId)).None? && |wallets| > 0 {
      CreateAfterChecks(db, req, env);
      var alloc := Allocate(db.ledger, conv.value.usdtUnits, wallets, req.preferredAddress,
                            env.draws.fraction, env.draws.walletPick);
      if alloc.Ok? && alloc.value.token != "" {
        CommitPreservesValid(db, req, env, alloc.value);
      }
    }
  }

  /** Finalisation keeps the store invariant: it changes only status and block
      transaction id, and only removes reservations. */
  lemma FinalisePreservesValid(db: Db, req: OrderProcessingRequest)
    requires Valid(db)
    ensures Valid(Finalise(db, req).db)
  {
    var s := Finalise(db, req);
    if s.result.Ok? {
      var orders := s.db.orders;
      assert forall i :: 0 <= i < |orders| ==>
        orders[i].orderId == db.orders[i].orderId && orders[i].tradeId == db.orders[i].tradeId
        && orders[i].token == db.orders[i].token && orders[i].actualAmount == db.orders[i].actualAmount;
      forall sl | sl in s.db.ledger
        ensures s.db.ledger[sl] != "" && exists i :: 0 <= i < |orders| && Holds(orders[i], sl, s.db.ledger[sl])
      {
        var i :| 0 <= i < |db.orders| && Holds(db.orders[i], sl, db.ledger[sl]);
        assert Holds(orders[i], sl, s.db.ledger[sl]);
      }
    }
  }

  /** The writes keep every waiting order holding its reservation when the
      allocated pair was not reserved: the new order holds the new pair, and
      the pairs of the older waiting orders are untouched. */
  lemma CommitPreservesPendingHeld(db: Db, req: CreateTransactionRequest, env: Env, alloc: Allocation)
    requires ValidClock(env.clock) && env.draws.suffix < 1000 && PendingHeld(db)
    requires Slot(alloc.token, alloc.amount) !in db.ledger
    ensures PendingHeld(Commit(db, req, env, alloc).db)
  {
    var tradeId := GenerateCode(env.clock, env.draws.suffix);
    if FindOrder(db.orders, ByTradeId(tradeId)).None? {
      var s := Commit(db, req, env, alloc);
      var n := |db.orders|;
      assert s.db.orders == db.orders + [NewOrder(req, tradeId, alloc)];
      forall i | 0 <= i < |s.db.orders| && s.db.orders[i].status == WaitPay
        ensures Live(s.db, i)
      {
        if i < n {
          assert s.db.orders[i] == db.orders[i] && Live(db, i);
        }
      }
    }
  }

  /** Creation keeps every waiting order holding its reservation: the pair it
      allocates was free, so no older waiting order loses its pair. */
  lemma CreatePreservesPendingHeld(db: Db, req: CreateTransactionRequest, env: Env)
    requires CreateReady(db, req, env) && Valid(db) && PendingHeld(db)
    ensures PendingHeld(Create(db, req, env).db)
  {
    var conv := ConvertAmount(req.amount, env.config.usdtRate, req.forceUsdtRate);
    var wallets := EnabledWallets(db.wallets);
    if conv.Ok? && FindOrder(db.orders, ByOrderId(req.orderId)).None? && |wallets| > 0 {
      CreateAfterChecks(db, req, env);
      var alloc := Allocate(db.ledger, conv.value.usdtUnits, wallets, req.preferredAddress,
                            env.draws.fraction, env.draws.walletPick);
      if alloc.Ok? && alloc.value.token != "" {
        AllocateFinds(db.ledger, conv.value.usdtUnits, wallets, req.preferredAddress,
                      env.draws.fraction, env.draws.walletPick);
        assert !Reserved(db.ledger, alloc.value.token, alloc.value.amount);
        CommitPreservesPendingHeld(db, req, env, alloc.value);
      }
    }
  }

  /** Finalisation keeps every waiting order holding its reservation when the
      pair it releases is free or held by the request's own trade id. The source
      releases the pair the request names without looking at whose it is, so
      without that condition the property is lost (FinaliseOtherPair). */
  lemma FinalisePreservesPendingHeld(db: Db, req: OrderProcessingRequest)
    requires PendingHeld(db) && ReleasesOwnPair(db, req)
    ensures PendingHeld(Finalise(db, req).db)
  {
    var s := Finalise(db, req);
    if s.result.Ok? {
      forall i | 0 <= i < |s.db.orders| && s.db.orders[i].status == WaitPay
        ensures Live(s.db, i)
      {
        var o := db.orders[i];
        assert o.tradeId != req.tradeId;
        assert s.db.orders[i] == o && Live(db, i);
        var sl := Slot(o.token, o.actualAmount);
        assert !(sl.token == req.token && ToReal(sl.amount) == req.amount);
      }
    }
  }

  /** Finalising one trade with the pair of another waiting trade releases that
      other trade's reservation while it keeps waiting, so its pair can be
      allocated to a new order. */
  lemma FinaliseOtherPair()
    ensures var a := Order("t1", "m1", 10.0, 13931, "W", WaitPay, "", "", "");
      var b := Order("t2", "m2", 10.0, 13932, "W", WaitPay, "", "", "");
      var db := Db([a, b], map[Slot("W", 13931) := "t1", Slot("W", 13932) := "t2"], [], []);
      var s := Finalise(db, OrderProcessingRequest("W", ToReal(13932), "t1", "block"));
      && Valid(db) && PendingHeld(db) && !ReleasesOwnPair(db, OrderProcessingRequest("W", ToReal(13932), "t1", "block"))
      && s.result.Ok? && Valid(s.db)
      && s.db.orders[1].status == WaitPay && !Reserved(s.db.ledger, "W", 13932)
      && !PendingHeld(s.db)
  {
    var a := Order("t1", "m1", 10.0, 13931, "W", WaitPay, "", "", "");
    var b := Order("t2", "m2", 10.0, 13932, "W", WaitPay, "", "", "");
    var db := Db([a, b], map[Slot("W", 13931) := "t1", Slot("W", 13932) := "t2"], [], []);
    var req := OrderProcessingRequest("W", ToReal(13932), "t1", "block");
    assert Holds(db.orders[0], Slot("W", 13931), "t1");
    assert Holds(db.orders[1], Slot("W", 13932), "t2");
    assert Live(db, 0) && Live(db, 1);
    assert FindOrder(db.orders, ByBlockId("block")).None?;
    FinalisePreservesValid(db, req);
    var s := Finalise(db, req);
    assert Slot("W", 13932) !in s.db.ledger;
    assert s.db.orders[1] == b;
    assert !Live(s.db, 1);
  }

  /** Collision-freedom of waiting orders: in a valid store where every waiting
      order holds its reservation, two distinct waiting orders have different
      (token, amount) pairs. */
  lemma PendingDistinct(db: Db, i: int, j: int)
    requires Valid(db) && PendingHeld(db) && 0 <= i < j < |db.orders|
    requires db.orders[i].status == WaitPay && db.orders[j].status == WaitPay
    ensures Slot(db.orders[i].token, db.orders[i].actualAmount) != Slot(db.orders[j].token, db.orders[j].actualAmount)
  {
    ReservationsDisjoint(db, i, j);
  }

  /** Collision-freedom: two distinct orders that both hold their reservation
      hold different (token, amount) pairs. */
  lemma ReservationsDisjoint(db: Db, i: int, j: int)
    requires Valid(db) && 0 <= i < j < |db.orders|
    requires Live(db, i) && Live(db, j)
    ensures Slot(db.orders[i].token, db.orders[i].actualAmount) != Slot(db.orders[j].token, db.orders[j].actualAmount)
  {
  }

  /** No trade id holds two reservations. */
  lemma LedgerInjective(db: Db, s1: Slot, s2: Slot)
    requires Valid(db) && s1 in db.ledger && s2 in db.ledger
    requires db.ledger[s1] == db.ledger[s2]
    ensures s1 == s2
  {
    var i :| 0 <= i < |db.orders| && Holds(db.orders[i], s1, db.ledger[s1]);
    var j :| 0 <= j < |db.orders| && Holds(db.orders[j], s2, db.ledger[s2]);
    assert db.orders[i].tradeId == db.orders[j].tradeId;
  }

  // ---------------------------------------------------------------------------
  // Finalisation

  /** Finalisation rejects a block transaction id already on some order and then
      writes nothing; otherwise it marks every order with the trade id paid with
      that block id, removes the reservation of (token, amount), and changes
      nothing else. */
  lemma FinaliseEffect(db: Db, req: OrderProcessingRequest)
    ensures var s := Finalise(db, req);
      && (s.result.Err? <==> exists o :: o in db.orders && o.blockTransactionId == req.blockTransactionId)
      && (s.result.Err? ==> s.result.error == OrderBlockAlreadyProcess && s.db == db)
      && (s.result.Ok? ==>
            && |s.db.orders| == |db.orders|
            && (forall i :: 0 <= i < |db.orders| && db.orders[i].tradeId == req.tradeId ==>
                  s.db.orders[i] == db.orders[i].(status := PaySuccess, blockTransactionId := req.blockTransactionId))
            && (forall i :: 0 <= i < |db.orders| && db.orders[i].tradeId != req.tradeId ==>
                  s.db.orders[i] == db.orders[i])
            && (forall a :: ToReal(a) == req.amount ==> !Reserved(s.db.ledger, req.token, a))
            && (forall sl :: sl in s.db.ledger <==>
                  sl in db.ledger && !(sl.token == req.token && ToReal(sl.amount) == req.amount))
            && (forall sl :: sl in s.db.ledger ==> s.db.ledger[sl] == db.ledger[sl])
            && s.db.wallets == db.wallets && s.db.jobs == db.jobs)
  {
    var s := Finalise(db, req);
    if s.result.Err? {
      var o := FindOrder(db.orders, ByBlockId(req.blockTransactionId)).value;
      assert o in db.orders && o.blockTransactionId == req.blockTransactionId;
    }
  }

  /** A second finalisation with the same block transaction id is rejected, and
      this holds exactly when the trade id named some order (only then does the
      first call record the block id). */
  lemma FinaliseTwice(db: Db, req: OrderProcessingRequest)
    requires Finalise(db, req).result.Ok?
    ensures var s1 := Finalise(db, req);
      var s2 := Finalise(s1.db, req);
      && (s2.result == Err(OrderBlockAlreadyProcess) <==> exists o :: o in db.orders && o.tradeId == req.tradeId)
      && (s2.result.Err? ==> s2.db == s1.db)
  {
    var s1 := Finalise(db, req);
    if o :| o in db.orders && o.tradeId == req.tradeId {
      var i :| 0 <= i < |db.orders| && db.orders[i] == o;
      assert s1.db.orders[i] in s1.db.orders;
      assert Matches(s1.db.orders[i], ByBlockId(req.blockTransactionId));
    } else {
      assert s1.db.orders == db.orders;
    }
  }

  /** Finalising the order a Commit just wrote, with its own token, amount and
      trade id, marks it paid and removes exactly the reservation Commit added. */
  lemma CommitThenFinalise(db: Db, req: CreateTransactionRequest, env: Env, alloc: Allocation, blockId: string)
    requires ValidClock(env.clock) && env.draws.suffix < 1000
    requires Commit(db, req, env, alloc).result.Ok?
    requires Slot(alloc.token, alloc.amount) !in db.ledger
    requires forall o :: o in db.orders ==> o.blockTransactionId != blockId
    requires blockId != ""
    ensures var s1 := Commit(db, req, env, alloc);
      var s2 := Finalise(s1.db, OrderProcessingRequest(alloc.token, ToReal(alloc.amount), s1.result.value.tradeId, blockId));
      && s2.result.Ok?
      && s2.db.ledger == db.ledger
      && s2.db.orders[|db.orders|].status == PaySuccess
      && s2.db.orders[|db.orders|].blockTransactionId == blockId
  {
    var s1 := Commit(db, req, env, alloc);
    var tid := s1.result.value.tradeId;
    var preq := OrderProcessingRequest(alloc.token, ToReal(alloc.amount), tid, blockId);
    var n := |db.orders|;
    assert s1.db.orders == db.orders + [NewOrder(req, tid, alloc)];
    forall o | o in s1.db.orders
      ensures o.blockTransactionId != blockId
    {
      var i :| 0 <= i < |s1.db.orders| && s1.db.orders[i] == o;
      if i < n { assert db.orders[i] in db.orders; }
    }
    assert FindOrder(s1.db.orders, ByBlockId(blockId)).None?;
    var s2 := Finalise(s1.db, preq);
    assert s2.db.ledger == Release(db.ledger[Slot(alloc.token, alloc.amount) := tid], alloc.token, ToReal(alloc.amount));
    forall sl | true
      ensures sl in s2.db.ledger <==> sl in db.ledger
    {
      if sl.token == alloc.token && ToReal(sl.amount) == ToReal(alloc.amount) {
        assert sl.amount == alloc.amount;
      }
    }
    assert s2.db.ledger == db.ledger;
  }

  /** Finalising a freshly created order with its own token, amount and trade
      id marks it paid and gives the ledger back exactly as it was before the
      creation, so the pair can be allocated again. */
  lemma CreateThenFinaliseFreesSlot(db: Db, req: CreateTransactionRequest, env: Env, blockId: string)
    requires CreateReady(db, req, env) && Valid(db)
    requires Create(db, req, env).result.Ok?
    requires forall o :: o in db.orders ==> o.blockTransactionId != blockId
    requires blockId != ""
    ensures var s1 := Create(db, req, env);
      var resp := s1.result.value;
      var s2 := Finalise(s1.db, OrderProcessingRequest(resp.token, ToReal(resp.actualAmount), resp.tradeId, blockId));
      && s2.result.Ok?
      && s2.db.ledger == db.ledger
      && s2.db.orders[|db.orders|].status == PaySuccess
      && s2.db.orders[|db.orders|].blockTransactionId == blockId
  {
    var conv := ConvertAmount(req.amount, env.config.usdtRate, req.forceUsdtRate).value;
    var wallets := EnabledWallets(db.wallets);
    CreateWrites(db, req, env);
    CreateAfterChecks(db, req, env);
    var alloc := Allocate(db.ledger, conv.usdtUnits, wallets, req.preferredAddress,
                          env.draws.fraction, env.draws.walletPick).value;
    CommitThenFinalise(db, req, env, alloc, blockId);
  }
}
