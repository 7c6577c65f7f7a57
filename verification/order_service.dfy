/** The settlement logic of the order service as functions over an abstract
    store: rate conversion and the minimum-amount checks, the wallet/amount
    allocator, trade-id generation, the checkout URL, and the two state
    transitions (order creation and order finalisation). The class in
    order_store.dfy runs these steps imperatively and is proved equal to them. */
module OrderService {
  import opened Types
  import opened Decimals
  import opened Digits

  /** Minimum fiat amount, 0.01, in ten-thousandths. */
  const CnyMinimumPaymentAmount: int := 100
  /** Minimum USDT amount. */
  const UsdtMinimumPaymentAmount: real := 0.01
  /** Step between two candidate amounts, 0.0001, in ten-thousandths. */
  const UsdtAmountPerIncrement: int := 1
  /** The allocator's attempt budget. */
  const IncrementalMaximumNumber: nat := 100
  /** Range of the jitter `rand.Intn(95) + 5`, in ten-thousandths. */
  const MinFraction: int := 5
  const MaxFraction: int := 99
  /** Path of the checkout page under the application URI. */
  const CheckoutPath: string := "/pay/checkout-counter/"

  // ---------------------------------------------------------------------------
  // Rate conversion and minimum amounts

  /** The fiat amount rounded to four places (ten-thousandths), the exact USDT
      quotient, and that quotient rounded to four places. */
  datatype Conversion = Conversion(payUnits: int, usdt: real, usdtUnits: int)

  /** A forced rate from the request takes precedence over the configured one. */
  function EffectiveRate(configRate: real, forced: Option<real>): real
  {
    if forced.Some? then forced.value else configRate
  }

  /** Rounds the fiat amount, divides by the rate, and rejects a fiat amount or
      a USDT amount below 0.01. */
  function ConvertAmount(amount: real, configRate: real, forced: Option<real>): (r: Result<Conversion>)
    requires EffectiveRate(configRate, forced) != 0.0
    ensures r.Err? ==> r.error == PayAmountErr
    ensures r.Err? <==>
              Round4(amount) < CnyMinimumPaymentAmount
              || ToReal(Round4(amount)) / EffectiveRate(configRate, forced) < UsdtMinimumPaymentAmount
    ensures r.Ok? ==>
              && r.value.payUnits == Round4(amount)
              && r.value.payUnits >= CnyMinimumPaymentAmount
              && r.value.usdt * EffectiveRate(configRate, forced) == ToReal(r.value.payUnits)
              && r.value.usdt >= UsdtMinimumPaymentAmount
              && r.value.usdtUnits == Round4(r.value.usdt)
              && r.value.usdtUnits >= 100
  {
    var rate := EffectiveRate(configRate, forced);
    var pay := Round4(amount);
    var usdt := ToReal(pay) / rate;
    if pay < CnyMinimumPaymentAmount then Err(PayAmountErr)
    else if usdt < UsdtMinimumPaymentAmount then Err(PayAmountErr)
    else Ok(Conversion(pay, usdt, Round4(usdt)))
  }

  // ---------------------------------------------------------------------------
  // Wallet/amount allocator

  /** Position of the first wallet whose token is `token`, or -1 when there is none. */
  function IndexOfToken(wallets: seq<WalletAddress>, token: string): (i: int)
    ensures -1 <= i < |wallets|
    ensures i >= 0 ==> wallets[i].token == token && forall j :: 0 <= j < i ==> wallets[j].token != token
    ensures i == -1 <==> forall j :: 0 <= j < |wallets| ==> wallets[j].token != token
  {
    if |wallets| == 0 then -1
    else if wallets[0].token == token then 0
    else
      var k := IndexOfToken(wallets[1..], token);
      if k < 0 then -1 else k + 1
  }

  /** The wallet index the allocator uses: the preferred token's position when
      a preferred address is given (possibly -1), the random pick otherwise. */
  function WalletIndex(wallets: seq<WalletAddress>, preferred: string, pick: nat): int
  {
    if preferred != "" then IndexOfToken(wallets, preferred) else pick
  }

  /** The trade id the ledger holds for (token, amount), or "" when it holds none. */
  function Lookup(ledger: map<Slot, string>, token: string, amount: int): string
  {
    if Slot(token, amount) in ledger then ledger[Slot(token, amount)] else ""
  }

  predicate Reserved(ledger: map<Slot, string>, token: string, amount: int)
  {
    Lookup(ledger, token, amount) != ""
  }

  /** One probe: the wallet's token when (token, amount) is free, "" otherwise.
      A wallet whose token is "" therefore never yields a free pair. */
  function CheckWallet(ledger: map<Slot, string>, token: string, amount: int): (t: string)
    ensures t == "" || t == token
    ensures t != "" <==> token != "" && !Reserved(ledger, token, amount)
  {
    if Lookup(ledger, token, amount) == "" then token else ""
  }

  /** A token and an amount; the token is "" when no free pair was found. */
  datatype Allocation = Allocation(token: string, amount: int)

  /** The probing loop: try `attempts` candidates upward from `amount` on one
      wallet, stopping at the first free one. */
  function Probe(ledger: map<Slot, string>, token: string, amount: int, attempts: nat): Allocation
    decreases attempts
  {
    if attempts == 0 then Allocation("", amount)
    else
      var t := CheckWallet(ledger, token, amount);
      if t == "" then Probe(ledger, token, amount + UsdtAmountPerIncrement, attempts - 1)
      else Allocation(t, amount)
  }

  /** The allocator: choose the wallet, add the jitter to the base amount, probe. */
  function Allocate(ledger: map<Slot, string>, amount: int, wallets: seq<WalletAddress>,
                    preferred: string, fraction: int, pick: nat): Result<Allocation>
    requires pick < |wallets|
  {
    var index := WalletIndex(wallets, preferred, pick);
    if index < 0 then Err(WalletIndexOutOfRange)
    else Ok(Probe(ledger, wallets[index].token, amount + fraction, IncrementalMaximumNumber))
  }

  /** What one probing run finds: either the first free candidate, with every
      candidate before it reserved, or nothing after `attempts` reserved ones. */
  lemma {:induction false} ProbeFinds(ledger: map<Slot, string>, token: string, amount: int, attempts: nat)
    ensures var r := Probe(ledger, token, amount, attempts);
      && (r.token == "" || r.token == token)
      && (r.token != "" ==>
            && amount <= r.amount < amount + attempts
            && !Reserved(ledger, token, r.amount)
            && forall a :: amount <= a < r.amount ==> Reserved(ledger, token, a))
      && (r.token == "" ==>
            && r.amount == amount + attempts
            && forall a :: amount <= a < amount + attempts ==> token == "" || Reserved(ledger, token, a))
    decreases attempts
  {
    if attempts > 0 && CheckWallet(ledger, token, amount) == "" {
      ProbeFinds(ledger, token, amount + UsdtAmountPerIncrement, attempts - 1);
    }
  }

  /** The allocator's promises: a missing preferred address is an error; otherwise
      the wallet is the preferred one (first match) or the random pick, the result
      lies within 100 steps of base + jitter, a returned pair is free, every earlier
      candidate on that wallet was reserved, and an empty token means all 100 were. */
  lemma AllocateFinds(ledger: map<Slot, string>, amount: int, wallets: seq<WalletAddress>,
                      preferred: string, fraction: int, pick: nat)
    requires pick < |wallets|
    ensures var r := Allocate(ledger, amount, wallets, preferred, fraction, pick);
      var index := WalletIndex(wallets, preferred, pick);
      var first := amount + fraction;
      && (r.Err? <==> preferred != "" && forall j :: 0 <= j < |wallets| ==> wallets[j].token != preferred)
      && (r.Err? ==> r.error == WalletIndexOutOfRange)
      && (r.Ok? ==>
            && 0 <= index < |wallets|
            && (preferred != "" ==> wallets[index].token == preferred
                                    && forall j :: 0 <= j < index ==> wallets[j].token != preferred)
            && (preferred == "" ==> index == pick)
            && (r.value.token == "" || r.value.token == wallets[index].token)
            && (r.value.token != "" ==>
                  && first <= r.value.amount < first + IncrementalMaximumNumber
                  && !Reserved(ledger, r.value.token, r.value.amount)
                  && forall a :: first <= a < r.value.amount ==> Reserved(ledger, r.value.token, a))
            && (r.value.token == "" ==>
                  forall a :: first <= a < first + IncrementalMaximumNumber ==>
                    wallets[index].token == "" || Reserved(ledger, wallets[index].token, a)))
  {
    var index := WalletIndex(wallets, preferred, pick);
    if index >= 0 {
      ProbeFinds(ledger, wallets[index].token, amount + fraction, IncrementalMaximumNumber);
    }
  }

  // ---------------------------------------------------------------------------
  // Trade identifiers and the checkout URL

  predicate ValidClock(c: Clock)
  {
    c.year <= 9999 && 1 <= c.month <= 12 && 1 <= c.day <= 31
  }

  /** The date in the layout "20060102": four-digit year, two-digit month and day. */
  function DateString(c: Clock): string
  {
    Padded(c.year, 4) + Padded(c.month, 2) + Padded(c.day, 2)
  }

  /** Unix time in milliseconds (nanoseconds divided by 10^6). */
  function UnixMilli(c: Clock): nat
  {
    c.unixNano / 1000000
  }

  /** The trade id: the date, the milliseconds in `%d` form, and the random
      suffix in `%03d` form. */
  function GenerateCode(c: Clock, suffix: nat): (code: string)
    requires ValidClock(c) && suffix < 1000
    ensures AllDigits(code) && 12 <= |code|
  {
    AllDigitsAppend(Padded(c.year, 4), Padded(c.month, 2));
    AllDigitsAppend(Padded(c.year, 4) + Padded(c.month, 2), Padded(c.day, 2));
    AllDigitsAppend(DateString(c), Decimal(UnixMilli(c)));
    AllDigitsAppend(DateString(c) + Decimal(UnixMilli(c)), Padded(suffix, 3));
    DateString(c) + Decimal(UnixMilli(c)) + Padded(suffix, 3)
  }

  /** The parts a trade id is read back into. */
  datatype CodeParts = CodeParts(year: nat, month: nat, day: nat, millis: nat, suffix: nat)

  /** Reads a trade id back: four year digits, two month digits, two day digits,
      the milliseconds, and the last three digits. */
  function ParseCode(code: string): CodeParts
    requires AllDigits(code) && 12 <= |code|
  {
    CodeParts(Value(code[..4]), Value(code[4..6]), Value(code[6..8]),
              Value(code[8..|code| - 3]), Value(code[|code| - 3..]))
  }

  /** A slice that lies inside the left part of a concatenation is a slice of
      that part, and what follows the left part is the right part. */
  lemma SliceOfConcat<T>(a: seq<T>, b: seq<T>, i: nat, j: nat)
    requires i <= j <= |a|
    ensures (a + b)[i..j] == a[i..j] && (a + b)[|a|..] == b
  {
  }

  /** Reading a generated trade id gives back the date, the milliseconds and the suffix. */
  lemma GenerateCodeRoundTrip(c: Clock, suffix: nat)
    requires ValidClock(c) && suffix < 1000
    ensures ParseCode(GenerateCode(c, suffix)) == CodeParts(c.year, c.month, c.day, UnixMilli(c), suffix)
  {
    var y, m, d := Padded(c.year, 4), Padded(c.month, 2), Padded(c.day, 2);
    var ms, sx := Decimal(UnixMilli(c)), Padded(suffix, 3);
    assert Pow10(2) == 100 && Pow10(3) == 1000 && Pow10(4) == 10000;
    PaddedLength(c.year, 4);
    PaddedLength(c.month, 2);
    PaddedLength(c.day, 2);
    PaddedLength(suffix, 3);
    var code := GenerateCode(c, suffix);
    var ym := y + m;
    var ymd := ym + d;
    var pre := ymd + ms;
    assert code == pre + sx;
    SliceOfConcat(pre, sx, 0, |pre|);
    SliceOfConcat(ymd, ms, 0, 8);
    SliceOfConcat(ym, d, 0, 4);
    SliceOfConcat(ym, d, 4, 6);
    SliceOfConcat(ymd, ms, 6, 8);
    assert code[..4] == y;
    assert code[4..6] == m;
    assert code[6..8] == d;
    assert code[8..|code| - 3] == ms;
    assert code[|code| - 3..] == sx;
    ValueOfPadded(c.year, 4);
    ValueOfPadded(c.month, 2);
    ValueOfPadded(c.day, 2);
    ValueOfDecimal(UnixMilli(c));
    ValueOfPadded(suffix, 3);
  }

  /** Two trade ids are equal only when built from the same date, the same
      millisecond and the same suffix. */
  lemma GenerateCodeInjective(c1: Clock, s1: nat, c2: Clock, s2: nat)
    requires ValidClock(c1) && s1 < 1000 && ValidClock(c2) && s2 < 1000
    requires GenerateCode(c1, s1) == GenerateCode(c2, s2)
    ensures c1.year == c2.year && c1.month == c2.month && c1.day == c2.day
    ensures UnixMilli(c1) == UnixMilli(c2) && s1 == s2
  {
    GenerateCodeRoundTrip(c1, s1);
    GenerateCodeRoundTrip(c2, s2);
  }

  /** The checkout page of a trade. */
  function PaymentUrl(appUri: string, tradeId: string): string
  {
    appUri + CheckoutPath + tradeId
  }

  /** The trade id a checkout URL under `appUri` names, if it is one. */
  function TradeIdOfUrl(appUri: string, url: string): Option<string>
  {
    var prefix := appUri + CheckoutPath;
    if |prefix| <= |url| && url[..|prefix|] == prefix then Some(url[|prefix|..]) else None
  }

  /** The checkout URL names its trade, so distinct trades get distinct URLs. */
  lemma PaymentUrlRoundTrip(appUri: string, tradeId: string)
    ensures TradeIdOfUrl(appUri, PaymentUrl(appUri, tradeId)) == Some(tradeId)
  {
    var prefix := appUri + CheckoutPath;
    assert PaymentUrl(appUri, tradeId) == prefix + tradeId;
    assert (prefix + tradeId)[..|prefix|] == prefix;
    assert (prefix + tradeId)[|prefix|..] == tradeId;
  }

  // ---------------------------------------------------------------------------
  // The store and its queries

  /** The orders table, the reservation ledger, the wallet table and the queue of
      expiration jobs. */
  datatype Db = Db(orders: seq<Order>, ledger: map<Slot, string>, wallets: seq<WalletAddress>, jobs: seq<ExpiryJob>)

  /** The result of an operation together with the store after it. */
  datatype Step<T> = Step(result: Result<T>, db: Db)

  /** The three ways the service looks up an order row. */
  datatype Key = ByOrderId(orderId: string) | ByTradeId(tradeId: string) | ByBlockId(blockId: string)

  predicate Matches(o: Order, key: Key)
  {
    match key
    case ByOrderId(id) => o.orderId == id
    case ByTradeId(id) => o.tradeId == id
    case ByBlockId(id) => o.blockTransactionId == id
  }

  /** The first row matching the key, or None when no row matches. */
  function FindOrder(orders: seq<Order>, key: Key): (r: Option<Order>)
    ensures r.Some? ==> r.value in orders && Matches(r.value, key)
    ensures r.None? <==> forall o :: o in orders ==> !Matches(o, key)
  {
    if orders == [] then None
    else if Matches(orders[0], key) then Some(orders[0])
    else FindOrder(orders[1..], key)
  }

  /** The wallets that take part in allocation, in table order. */
  function EnabledWallets(wallets: seq<WalletAddress>): (r: seq<WalletAddress>)
    ensures forall w :: w in r <==> w in wallets && w.status == Enabled
    ensures |r| <= |wallets|
  {
    if wallets == [] then []
    else (if wallets[0].status == Enabled then [wallets[0]] else []) + EnabledWallets(wallets[1..])
  }

  /** Order `o` is the one holding reservation `s` under trade id `tradeId`. */
  predicate Holds(o: Order, s: Slot, tradeId: string)
  {
    o.tradeId == tradeId && o.token == s.token && o.actualAmount == s.amount
  }

  /** The store invariant: merchant order ids and trade ids are unique, and every
      reservation names a non-empty trade id whose order has exactly that token
      and actual amount. Two orders that both still hold their reservation hold
      different pairs (see ReservationsDisjoint); that waiting orders do hold
      theirs is PendingHeld. */
  ghost predicate Valid(db: Db)
  {
    && (forall i, j :: 0 <= i < j < |db.orders| ==> db.orders[i].orderId != db.orders[j].orderId)
    && (forall i, j :: 0 <= i < j < |db.orders| ==> db.orders[i].tradeId != db.orders[j].tradeId)
    && (forall s :: s in db.ledger ==>
          db.ledger[s] != "" && exists i :: 0 <= i < |db.orders| && Holds(db.orders[i], s, db.ledger[s]))
  }

  /** Order `i` still holds the reservation of its own token and actual amount. */
  ghost predicate Live(db: Db, i: int)
    requires 0 <= i < |db.orders|
  {
    var o := db.orders[i];
    Slot(o.token, o.actualAmount) in db.ledger && db.ledger[Slot(o.token, o.actualAmount)] == o.tradeId
  }

  /** Every order still waiting for payment holds the reservation of its own
      token and actual amount; together with Valid, no two waiting orders share
      a (token, amount) pair (see PendingDistinct). */
  ghost predicate PendingHeld(db: Db)
  {
    forall i :: 0 <= i < |db.orders| && db.orders[i].status == WaitPay ==> Live(db, i)
  }

  /** The release a finalisation performs hits no reservation of another trade:
      every reserved pair it names is held by the request's own trade id. */
  predicate ReleasesOwnPair(db: Db, req: OrderProcessingRequest)
  {
    forall s :: s in db.ledger && s.token == req.token && ToReal(s.amount) == req.amount ==>
      db.ledger[s] == req.tradeId
  }

  // ---------------------------------------------------------------------------
  // Order creation

  /** What a creation call needs from its inputs: a non-zero rate (division by
      zero panics), random draws in the ranges the source draws them from, and a
      calendar date that formats in eight digits. */
  predicate CreateReady(db: Db, req: CreateTransactionRequest, env: Env)
  {
    && EffectiveRate(env.config.usdtRate, req.forceUsdtRate) != 0.0
    && MinFraction <= env.draws.fraction <= MaxFraction
    && env.draws.suffix < 1000
    && (|EnabledWallets(db.wallets)| > 0 ==> env.draws.walletPick < |EnabledWallets(db.wallets)|)
    && ValidClock(env.clock)
  }

  /** The row a successful creation inserts. */
  function NewOrder(req: CreateTransactionRequest, tradeId: string, alloc: Allocation): Order
  {
    Order(tradeId, req.orderId, req.amount, alloc.amount, alloc.token, WaitPay,
          req.notifyUrl, req.redirectUrl, "")
  }

  /** The writes of a successful creation: the order row, the reservation of the
      allocated pair for the new trade id, and the expiration job if the queue
      accepts it; then the response with the expiration time and checkout URL.
      An insert whose trade id is already used fails and writes nothing. */
  function Commit(db: Db, req: CreateTransactionRequest, env: Env, alloc: Allocation): Step<CreateTransactionResponse>
    requires ValidClock(env.clock) && env.draws.suffix < 1000
  {
    var tradeId := GenerateCode(env.clock, env.draws.suffix);
    if FindOrder(db.orders, ByTradeId(tradeId)).Some? then Step(Err(TradeIdTaken), db)
    else
      var order := NewOrder(req, tradeId, alloc);
      var jobs := if env.enqueued then db.jobs + [ExpiryJob(tradeId, env.config.expirationMinutes)] else db.jobs;
      var response := CreateTransactionResponse(
        tradeId, req.orderId, req.amount, alloc.amount, alloc.token,
        env.clock.unixSeconds + 60 * env.config.expirationMinutes,
        PaymentUrl(env.config.appUri, tradeId));
      Step(Ok(response),
           Db(db.orders + [order], db.ledger[Slot(alloc.token, alloc.amount) := tradeId], db.wallets, jobs))
  }

  /** Order creation: amount checks, duplicate merchant order id, empty wallet
      pool, allocation, then the writes of Commit; any failure leaves the store
      as it was. */
  function Create(db: Db, req: CreateTransactionRequest, env: Env): Step<CreateTransactionResponse>
    requires CreateReady(db, req, env)
  {
    var conv := ConvertAmount(req.amount, env.config.usdtRate, req.forceUsdtRate);
    if conv.Err? then Step(Err(conv.error), db)
    else if FindOrder(db.orders, ByOrderId(req.orderId)).Some? then Step(Err(OrderAlreadyExists), db)
    else
      var wallets := EnabledWallets(db.wallets);
      if |wallets| <= 0 then Step(Err(NotAvailableWalletAddress), db)
      else
        var alloc := Allocate(db.ledger, conv.value.usdtUnits, wallets, req.preferredAddress,
                              env.draws.fraction, env.draws.walletPick);
        if alloc.Err? then Step(Err(alloc.error), db)
        else if alloc.value.token == "" then Step(Err(NotAvailableAmountErr), db)
        else Commit(db, req, env, alloc.value)
  }

  // ---------------------------------------------------------------------------
  // Order finalisation

  /** Every row with the trade id becomes PaySuccess with the block transaction id. */
  function MarkPaid(orders: seq<Order>, tradeId: string, blockId: string): seq<Order>
  {
    seq(|orders|, i requires 0 <= i < |orders| =>
      if orders[i].tradeId == tradeId then orders[i].(status := PaySuccess, blockTransactionId := blockId)
      else orders[i])
  }

  /** The ledger without the reservation of `token` at the value `amount`. */
  function Release(ledger: map<Slot, string>, token: string, amount: real): map<Slot, string>
  {
    map s | s in ledger && !(s.token == token && ToReal(s.amount) == amount) :: ledger[s]
  }

  /** Order finalisation: a block transaction id already on some order is
      rejected; otherwise the order is marked paid and its reservation released. */
  function Finalise(db: Db, req: OrderProcessingRequest): Step<()>
  {
    if FindOrder(db.orders, ByBlockId(req.blockTransactionId)).Some? then Step(Err(OrderBlockAlreadyProcess), db)
    else Step(Ok(()), db.(orders := MarkPaid(db.orders, req.tradeId, req.blockTransactionId),
                          ledger := Release(db.ledger, req.token, req.amount)))
  }
}
