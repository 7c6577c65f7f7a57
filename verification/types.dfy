/** Entities of the settlement core: order rows, wallet rows, reservation keys,
    the shapes of the two service requests and of the creation response, the
    service's error kinds, and the outside inputs (configuration, clock readings,
    random draws) that the service reads. */
module Types {

  datatype Option<T> = None | Some(value: T)

  /** The error kinds the service returns. Two of them stand for failures that the
      source does not raise by name: WalletIndexOutOfRange is the run-time panic of
      indexing the wallet list with -1 when a preferred address is not in the pool,
      and TradeIdTaken is the failing insert of an order row whose trade id is
      already in the orders table. */
  datatype Error =
    | PayAmountErr
    | OrderAlreadyExists
    | NotAvailableWalletAddress
    | NotAvailableAmountErr
    | OrderBlockAlreadyProcess
    | OrderNotExists
    | WalletIndexOutOfRange
    | TradeIdTaken

  datatype Result<T> = Ok(value: T) | Err(error: Error)

  /** Order lifecycle: WaitPay is initial, PaySuccess and Expired are terminal. */
  datatype Status = WaitPay | PaySuccess | Expired

  /** One row of the orders table. `amount` is the merchant's fiat amount as
      requested; `actualAmount` is the USDT amount to pay, in ten-thousandths. */
  datatype Order = Order(
    tradeId: string,
    orderId: string,
    amount: real,
    actualAmount: int,
    token: string,
    status: Status,
    notifyUrl: string,
    redirectUrl: string,
    blockTransactionId: string)

  datatype WalletStatus = Enabled | Disabled

  /** One row of the wallet table: a receiving address and whether it is in the pool. */
  datatype WalletAddress = WalletAddress(token: string, status: WalletStatus)

  /** Key of the reservation ledger: a wallet token and a USDT amount in ten-thousandths. */
  datatype Slot = Slot(token: string, amount: int)

  /** A delayed order-expiration job handed to the queue. */
  datatype ExpiryJob = ExpiryJob(tradeId: string, delayMinutes: int)

  datatype CreateTransactionRequest = CreateTransactionRequest(
    orderId: string,
    amount: real,
    notifyUrl: string,
    signature: string,
    redirectUrl: string,
    forceUsdtRate: Option<real>,
    preferredAddress: string)

  datatype OrderProcessingRequest = OrderProcessingRequest(
    token: string,
    amount: real,
    tradeId: string,
    blockTransactionId: string)

  /** `actualAmount` in ten-thousandths; `expirationTime` in epoch seconds. */
  datatype CreateTransactionResponse = CreateTransactionResponse(
    tradeId: string,
    orderId: string,
    amount: real,
    actualAmount: int,
    token: string,
    expirationTime: int,
    paymentUrl: string)

  /** Process configuration: the configured USDT rate, the application base URI
      and the order expiration time in minutes. */
  datatype Config = Config(usdtRate: real, appUri: string, expirationMinutes: int)

  /** The values the service draws at random: the jitter fraction, the wallet
      index used when no preferred address is given, and the trade-id suffix. */
  datatype Draws = Draws(fraction: int, walletPick: nat, suffix: nat)

  /** Clock readings: the calendar date and the Unix time in nanoseconds used for
      the trade id, and the Unix time in seconds used for the expiration time. */
  datatype Clock = Clock(year: nat, month: nat, day: nat, unixNano: nat, unixSeconds: int)

  /** Everything a creation call reads besides the store and the request;
      `enqueued` says whether the queue accepted the expiration job. */
  datatype Env = Env(config: Config, clock: Clock, draws: Draws, enqueued: bool)
}
