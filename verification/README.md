# Settlement core of a USDT payment gateway, in Dafny

This project models the order service of a stablecoin payment gateway. A merchant asks for a payment of a fiat amount. The service converts it to USDT at a configured or forced rate, checks both amounts against a 0.01 minimum, and picks one enabled receiving wallet. It then perturbs the USDT amount by a random jitter and probes upward in steps of 0.0001 until the (wallet, amount) pair is not reserved. While every waiting order holds its reservation, no two waiting orders share a pair. So an external chain watcher can tell which order a transfer pays from the pair alone. The service writes one `WaitPay` order and one reservation for the pair, queues an expiration job, and answers with the trade id and a checkout URL. Later, a confirmed on-chain transfer finalises the order: a block transaction id that is already recorded is rejected, and otherwise the order is marked paid and the reservation is released.

Files:

- `types.dfy` (module `Types`): order rows, wallet rows, ledger keys, requests, the response, error kinds, and the outside inputs (configuration, clock, random draws).
- `decimals.dfy` (module `Decimals`): four-place fixed-point amounts, counted as integers of ten-thousandths, and `Round4` (halves away from zero).
- `digits.dfy` (module `Digits`): the `%d` and `%0<w>d` formats and their inverse `Value`.
- `order_service.dfy` (module `OrderService`): the service as functions over a store value `Db`. It has the conversion, the allocator (`Allocate`, `Probe`), trade ids, the checkout URL, `Create` and `Finalise`, and the store invariant `Valid`.
- `order_properties.dfy` (module `OrderProperties`): lemmas about creation, finalisation and the invariant.
- `order_store.dfy` (module `OrderStore`): class `Store`. Its fields are the orders table, the reservation ledger, the wallet table and the job queue. Its methods run the source's steps one at a time. The allocator is a bounded loop. Each method is proved equal to its specification function.

Modelling choices:

- Amounts that have been rounded are integers in ten-thousandths. The fiat request amount and the USDT quotient are exact reals.
- The reservation ledger is a map from (token, amount) to a trade id. A missing key reads as "", which is what the source's ledger lookup returns for a free pair.
- Each random draw is a parameter, constrained to the source's range: the jitter `rand.Intn(95)+5` is 5..99, the wallet pick is 0..len-1, and the suffix is 0..999. The clock readings are parameters too.
- A non-empty preferred address that is not an enabled wallet makes `IndexOf` return -1. The source then evaluates `walletAddress[-1]` at line 156 of src/model/service/order_service.go and panics. The model returns `WalletIndexOutOfRange` for that case and writes nothing.
- A wallet whose token is "" never yields a free pair. The probe returns the token, and an empty token means "not available". So such a wallet always exhausts the 100 attempts.
- The data layer's "row not found" result is a zero row with ID 0. The model writes it as `FindOrder(...) == None`, because stored rows have positive IDs.
- The model assumes that the database schema keeps the trade id column unique. The schema is not part of this model; the code at lines 87-91 shows only that the insert can fail and that the transaction is then rolled back. Under that assumption, an insert whose trade id is already used fails, and the model returns `TradeIdTaken` without writing anything. The trade-id uniqueness in `Valid` rests on the same assumption.

## Model

| member | source | states |
|---|---|---|
| `Decimals.Round4` | src/model/service/order_service.go:38 | The result is the nearest multiple of 0.0001, with halves rounded away from zero, counted in ten-thousandths. |
| `Decimals.Round4OfUnits` | src/model/service/order_service.go:69 | Rounding an amount that already has four places returns that amount. |
| `Decimals.Round4AtLeast` | src/model/service/order_service.go:50-52 | An amount of at least n ten-thousandths rounds to at least n. |
| `OrderService.ConvertAmount` | src/model/service/order_service.go:38-52 | Fails with PayAmountErr exactly when round4(fiat) < 0.01 or round4(fiat)/rate < 0.01. The rate is the forced rate when one is given. On success, usdt × rate equals the rounded fiat amount, and round4(usdt) ≥ 0.01. |
| `OrderProperties.ForcedRateTakesPrecedence` | src/model/service/order_service.go:39-43 | When a forced rate is given, the configured rate does not affect the conversion. |
| `OrderProperties.ConversionExample` | src/model/service/order_service.go:38-52 | 10.00 at the rate 7.2 passes both minimums and converts to 1.3889. |
| `OrderService.IndexOfToken` | src/model/service/order_service.go:149-153 | Returns the position of the first wallet with the preferred token, or -1 exactly when no wallet has it. |
| `OrderService.CheckWallet` | src/model/service/order_service.go:155-168 | The probe returns the wallet's token exactly when the token is non-empty and (token, amount) is not reserved. Otherwise it returns "". |
| `OrderService.ProbeFinds` | src/model/service/order_service.go:169-183 | The probing loop either returns the first free candidate, below start + attempts, with every earlier candidate reserved, or returns "" after `attempts` candidates that were all reserved. |
| `OrderService.AllocateFinds` | src/model/service/order_service.go:143-185 | A missing preferred address is an error. Otherwise the wallet is the preferred one (its first match) or the random pick, and it stays the same for every attempt. A returned pair is free, lies at base + jitter + k with k < 100, and every lower candidate on that wallet was reserved. An empty token means all 100 candidates were reserved. |
| `OrderStore.Store.CalculateAvailableWalletAndAmount` | src/model/service/order_service.go:143-185 | The loop returns exactly what `Allocate` specifies and makes at most 100 ledger lookups: k+1 when it finds a pair at offset k, and 100 when it finds none. |
| `Digits.Decimal` | src/model/service/order_service.go:191 | The `%d` form is a non-empty string of digits with no leading zero. |
| `Digits.ValueOfDecimal` | src/model/service/order_service.go:191 | Reading the `%d` form back gives the number. |
| `Digits.ValueOfPadded` | src/model/service/order_service.go:191 | Reading the `%03d` form back gives the number. |
| `Digits.PaddedLength` | src/model/service/order_service.go:189-191 | Zero-padding a number below 10^w to width w gives exactly w characters. |
| `Digits.ValueAppend` | src/model/service/order_service.go:191 | The value of a concatenation of digit strings is the left value shifted by the length of the right, plus the right value. |
| `OrderService.GenerateCode` | src/model/service/order_service.go:188-193 | A trade id is all digits and at least 12 characters long: 8 date digits, at least one millisecond digit, and 3 suffix digits. |
| `OrderService.GenerateCodeRoundTrip` | src/model/service/order_service.go:188-193 | Parsing a trade id gives back the year, month, day, Unix milliseconds and suffix it was built from. |
| `OrderService.GenerateCodeInjective` | src/model/service/order_service.go:188-193 | Two trade ids are equal only when they share the date, the millisecond and the suffix. |
| `OrderService.PaymentUrlRoundTrip` | src/model/service/order_service.go:110 | The checkout URL `appUri + "/pay/checkout-counter/" + tradeId` gives back its trade id, so distinct trades get distinct URLs. |
| `OrderService.FindOrder` | src/model/service/order_service.go:54-60 | A lookup returns a stored row that matches the key, and returns none exactly when no row matches. |
| `OrderService.EnabledWallets` | src/model/service/order_service.go:62-68 | The pool holds exactly the enabled wallets of the wallet table. |
| `OrderProperties.CreateChecksInOrder` | src/model/service/order_service.go:38-75 | Any failed creation writes nothing. The checks run in order: PayAmountErr exactly when conversion fails; OrderAlreadyExists exactly when it passes and the merchant order id exists; NotAvailableWalletAddress exactly when both pass and no wallet is enabled; WalletIndexOutOfRange exactly when all pass and the preferred address is not an enabled wallet. |
| `OrderProperties.CreateExhausted` | src/model/service/order_service.go:69-75 | Once the earlier checks pass, creation fails with NotAvailableAmountErr exactly when all 100 candidates from round4(usdt) + jitter are reserved on the chosen wallet. |
| `OrderProperties.CreateWrites` | src/model/service/order_service.go:76-112 | A success appends exactly one WaitPay order with the allocated token and amount. It reserves exactly that pair, which was free before, for the new trade id, so the ledger grows by one. It queues the expiration job if the queue accepts it and leaves the wallets unchanged. The response carries now + expiration minutes and the checkout URL. |
| `OrderProperties.CreateAllocates` | src/model/service/order_service.go:69-83 | The actual amount is round4(usdt) + f + k with 5 ≤ f ≤ 99 and k < 100, on an enabled wallet, and it equals the preferred address when one is given. The pair was free and every lower candidate was reserved. |
| `OrderProperties.CreateTwiceSameOrderId` | src/model/service/order_service.go:53-60 | Under the same configuration, a second creation with the same merchant order id fails with OrderAlreadyExists and writes nothing. With a different configured rate, the amount checks at lines 44-52 run first and can fail with PayAmountErr instead. |
| `OrderProperties.CommitPreservesValid` | src/model/service/order_service.go:76-98 | The writes of a creation keep the invariant whenever the merchant order id is new: the trade id is checked to be unused, and the new reservation is held by the new order. |
| `OrderProperties.CreatePreservesValid` | src/model/service/order_service.go:76-98 | Creation keeps the invariant: merchant order ids and trade ids stay unique, and every reservation is held by an order with exactly that token and amount. |
| `OrderProperties.FinalisePreservesValid` | src/model/service/order_service.go:116-139 | Finalisation keeps the same invariant. |
| `OrderProperties.CommitPreservesPendingHeld` | src/model/service/order_service.go:76-98 | If the allocated pair was not reserved, the writes keep every `WaitPay` order holding the reservation of its own token and amount. The new order holds the new pair. |
| `OrderProperties.CreatePreservesPendingHeld` | src/model/service/order_service.go:69-98 | In a valid store, creation keeps every `WaitPay` order holding its reservation, because the pair it allocates was free. |
| `OrderProperties.FinalisePreservesPendingHeld` | src/model/service/order_service.go:116-139 | Finalisation keeps every `WaitPay` order holding its reservation when the pair it releases is free or held by the request's own trade id. |
| `OrderProperties.FinaliseOtherPair` | src/model/service/order_service.go:126-137 | Consider a valid store of two waiting orders. Finalising trade t1 with the pair of trade t2 releases t2's pair while t2 stays `WaitPay`. The store stays `Valid` but loses `PendingHeld`. |
| `OrderProperties.PendingDistinct` | src/model/service/order_service.go:69-98 | In a valid store where every waiting order holds its reservation, two distinct `WaitPay` orders have different (token, amount) pairs. |
| `OrderProperties.ReservationsDisjoint` | src/model/service/order_service.go:92-97 | Two distinct orders that both hold their reservation hold different (token, amount) pairs. |
| `OrderProperties.LedgerInjective` | src/model/service/order_service.go:92-97 | In a valid store, no trade id holds two reservations. |
| `OrderProperties.FinaliseEffect` | src/model/service/order_service.go:116-139 | A block id already on some order gives OrderBlockAlreadyProcess and leaves the store unchanged. Otherwise every order with the trade id becomes PaySuccess with the block id, the (token, amount) reservation is removed, and nothing else changes. |
| `OrderProperties.FinaliseTwice` | src/model/service/order_service.go:117-125 | After a successful finalisation, a repeat with the same block id is rejected exactly when the trade id named an order. The rejected repeat changes nothing. |
| `OrderProperties.CommitThenFinalise` | src/model/service/order_service.go:127-137 | Finalising the order just written, with its own token, amount and trade id, removes exactly the reservation the creation added. |
| `OrderProperties.CreateThenFinaliseFreesSlot` | src/model/service/order_service.go:133-137 | Creating an order and then finalising it restores the ledger exactly to its state before the creation, and marks the order paid. |
| `OrderStore.Store.CreateTransaction` | src/model/service/order_service.go:34-113 | The method's result and new store are exactly those of `Create`. It preserves `Valid`, and in a valid store it preserves `PendingHeld`. |
| `OrderStore.Store.CommitOrder` | src/model/service/order_service.go:76-112 | The write phase's result and new store are exactly those of `Commit`. It keeps `Valid` when the merchant order id is new, and keeps `PendingHeld` when the allocated pair was not reserved. |
| `OrderStore.Store.OrderProcessing` | src/model/service/order_service.go:116-140 | The method's result and new store are exactly those of `Finalise`. It preserves `Valid`, and it preserves `PendingHeld` when the request releases only its own pair. |
| `OrderStore.Store.GetOrderInfoByTradeId` | src/model/service/order_service.go:196-205 | Returns OrderNotExists exactly when no order has the trade id. Otherwise it returns a stored order with that trade id, which is the only such order in a valid store. |

## Left out

- The process-wide creation mutex (`gCreateTransactionLock`) is not modelled. Each creation is one atomic call on the store, which is what the mutex guarantees.
- The errors of the database and of the ledger store are not modelled, nor is a failed commit. This covers the `err != nil` returns of the lookups, of the writes other than a duplicate trade id, and of the ledger lookup in the probe. The in-memory store cannot fail. The missing rollback on the error return at line 120 is therefore not modelled either.
- The data layer and its schema are not part of this model. Lookups by merchant order id, trade id and block transaction id are modelled as searches of the orders sequence. Marking an order paid sets the status and block id on every row with the trade id, with no check of the current status.
- `OrderProperties.FinalisePreservesPendingHeld` holds only for requests whose (token, amount) pair is free or reserved for the request's own trade id. The source releases the pair the request names (line 133) without checking whose it is, and marks paid the order the trade id names (line 127). The caller that builds the request is not part of this model. For a request that names another waiting trade's pair, `OrderProperties.FinaliseOtherPair` shows that the other trade keeps waiting without its reservation.
- Reservations are not modelled as expiring on their own. The ledger's time-to-live is not modelled. The expiration job handler is not part of this model, so no order ever becomes `Expired`. Creation only records the job.
- The queue's enqueue error, which the source ignores, is a boolean input. When it is false no job is recorded and the response is unchanged.
- `OrderService.ConvertAmount`: the decimal library's division, which keeps 16 digits, is modelled as exact division. The configured float rate is taken as an exact real. A zero rate is excluded by a precondition, because the division panics on it.
- `OrderService.GenerateCode`: the clock is an input with a year in 0..9999 and a non-negative Unix time. The date and the milliseconds come from separate clock readings, as in the source.
- Request validation, signature checking and the HTTP controller's `< 0.0001` amount check are outside the service and not modelled.
- Other request and response shapes (checkout counter, status check) and the HTTP client wrapper are not part of this model.
