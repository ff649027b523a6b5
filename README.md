# BTCPay Server payment-method handlers, modelled in Dafny

This project models the decision logic of BTCPay Server's two payment-method
handlers. Each handler turns an invoice into the instructions a payer needs,
or fails with `PaymentMethodUnavailableException`.

- **Lightning** (`LightningLikePaymentHandler`).
  - `Test` is the node liveness check. It requires a fully synced full node,
    a node that answers its info RPC within 5000 ms, a configured public
    address, and a chain-height gap of at most 10 blocks.
  - `CreatePaymentMethodDetails` computes the due amount (price / rate,
    rounded up to 8 decimals) and the expiry window (clamped only when
    negative). It renders the description with three case-insensitive
    replace-all passes, asks the node for an invoice, and only then looks at
    the liveness result.
- **On-chain** (`BitcoinLikePaymentHandler`). An explorer availability gate
  comes first. Then the handler fetches the fee rate, reserves a deposit
  address, and shows the fee for a 100-byte transaction.

Every service call is replaced by the outcome it delivers:

- the dashboard's sync flag and chain height;
- the node's info reply, or the exception it threw;
- `CreateInvoice`, a function from the request to an invoice, a null
  invoice, or an exception message;
- the explorer's availability flag;
- the fee rate and the reserved address;
- NBitcoin's `FeeRate.GetFee`, a function parameter.

The current time is a parameter `now`. Times are `TimeSpan` ticks of 100 ns.
Amounts are exact rationals, and the due amount is an integer number of
satoshis (10^-8 BTC).

Modules:

- `PaymentResults` (results.dfy): the `Result` and `Failure` types. The
  failures are the typed unavailability error and the exceptions that
  escape raw.
- `DecimalText` (decimal_text.dfy): decimal rendering of the block gap, and
  its inverse.
- `CaseInsensitiveText` (replace_ci.dfy): ASCII case folding and `ReplaceAllCI`.
- `LightningHandler` (lightning.dfy): the Lightning handler.
- `BitcoinHandler` (bitcoin.dfy): the on-chain handler.

Behaviours of the code that are easy to misread, kept as written:

- An expiry window of exactly zero is kept. Only a negative window becomes
  one second.
- The three description passes run in sequence. Text inserted by an earlier
  pass is scanned by the later ones, so the passes are not independent of
  order.
- A zero exchange rate raises `DivideByZeroException` outside the guarded
  block. It is not wrapped as an unavailability error. Neither is the
  `OverflowException` of a quotient beyond the `decimal` range.
- In the on-chain handler, a failing fee fetch or address reservation
  propagates unwrapped. A null fee rate or address fails with a
  null-reference error when it is used.
- A null fee-provider factory or wallet provider fails with a
  null-reference error after the availability gate.

## Model

| member | source | states |
|---|---|---|
| `LightningHandler.Test` | BTCPayServer/Payments/Lightning/LightningLikePaymentHandler.cs:60-93 | The check succeeds exactly when the full node is synced, the node replied, its address is set and the gap is at most 10. The result is then `NodeInfo(NodeId, Address, P2PPort)`. Every failure is a `PaymentMethodUnavailable`. |
| `LightningHandler.TestRequiresSyncedFullNode` | BTCPayServer/Payments/Lightning/LightningLikePaymentHandler.cs:62-63 | An unsynced full node gives "Full node not available", whatever the chain height and whatever the node would answer. |
| `LightningHandler.TestRpcFailures` | BTCPayServer/Payments/Lightning/LightningLikePaymentHandler.cs:65-79 | A cancellation caught after the 5000 ms token fired gives the timeout message. Any other exception, including a cancellation while the token has not fired, gives "Error while connecting to the API (msg)". |
| `LightningHandler.TestAddressBeforeGap` | BTCPayServer/Payments/Lightning/LightningLikePaymentHandler.cs:81-84 | A node with a null address is rejected with the no-public-address message, whatever its block height. |
| `LightningHandler.TestGapBoundary` | BTCPayServer/Payments/Lightning/LightningLikePaymentHandler.cs:86-92 | A gap of exactly 10 passes, in either direction. A gap of 11 fails with "The lightning is not synched (11 blocks)". |
| `LightningHandler.TestGapMessageNamesGap` | BTCPayServer/Payments/Lightning/LightningLikePaymentHandler.cs:86-90 | For a gap above 10, the message is the fixed prefix, then decimal digits, then " blocks)". Those digits parse back to the gap. |
| `DecimalText.NatToString` | BTCPayServer/Payments/Lightning/LightningLikePaymentHandler.cs:89 | The interpolated gap is a non-empty string of digits, with no leading zero unless the gap is 0. |
| `DecimalText.ParseNatToString` | BTCPayServer/Payments/Lightning/LightningLikePaymentHandler.cs:89 | Parsing the rendered decimal gives back the number, so the message names the gap exactly. |
| `LightningHandler.RoundUpToSatoshis` | BTCPayServer/Payments/Lightning/LightningLikePaymentHandler.cs:32 | The due amount is the least whole number of satoshis that is at least the amount in bitcoin, so it is never rounded down. |
| `LightningHandler.RoundUpTenThirds` | BTCPayServer/Payments/Lightning/LightningLikePaymentHandler.cs:32 | Price 10 at rate 3 is due as 333333334 satoshis, that is 3.33333334 BTC. |
| `LightningHandler.ExpiryWindow` | BTCPayServer/Payments/Lightning/LightningLikePaymentHandler.cs:34-36 | The window is never negative. It is `ExpirationTime - now`, except that a negative window becomes one second. A window of zero or more is unchanged. |
| `LightningHandler.ExpiredInvoiceGetsOneSecond` | BTCPayServer/Payments/Lightning/LightningLikePaymentHandler.cs:35-36 | An already expired invoice gets exactly one second, however late it is. |
| `LightningHandler.ZeroWindowIsKept` | BTCPayServer/Payments/Lightning/LightningLikePaymentHandler.cs:35 | An invoice expiring at `now` keeps a zero window: zero is not clamped. |
| `CaseInsensitiveText.ReplaceAllCI` | BTCPayServer/Payments/Lightning/LightningLikePaymentHandler.cs:42-44 | A value as long as the placeholder keeps the text's length. |
| `CaseInsensitiveText.NoMatchNoChange` | BTCPayServer/Payments/Lightning/LightningLikePaymentHandler.cs:42-44 | A text with no case-insensitive occurrence of the placeholder is returned unchanged. |
| `CaseInsensitiveText.StartsWithCIIsFoldedPrefix` | BTCPayServer/Payments/Lightning/LightningLikePaymentHandler.cs:42-44 | The matcher holds exactly when the case-folded prefix of the text equals the case-folded placeholder. |
| `CaseInsensitiveText.ReplaceAtLeftmost` | BTCPayServer/Payments/Lightning/LightningLikePaymentHandler.cs:42-44 | At the leftmost occurrence, the text before it is kept verbatim and the occurrence becomes the value. The rest is replaced afresh, so matches do not overlap and the inserted value is not rescanned within the pass. |
| `CaseInsensitiveText.ReplaceIgnoresPatternCase` | BTCPayServer/Payments/Lightning/LightningLikePaymentHandler.cs:42-44 | Two spellings of a placeholder that differ only in case replace exactly the same text. |
| `CaseInsensitiveText.ReplaceLength` | BTCPayServer/Payments/Lightning/LightningLikePaymentHandler.cs:42-44 | The result's length is the text's length plus (value length - placeholder length) for each occurrence replaced. |
| `PaymentResults.OrEmpty` | BTCPayServer/Payments/Lightning/LightningLikePaymentHandler.cs:42-44 | A null value substitutes as "". A non-null value substitutes as itself. |
| `LightningHandler.RenderDescription` | BTCPayServer/Payments/Lightning/LightningLikePaymentHandler.cs:41-44 | A template holding none of the three placeholders, in any case, is the description unchanged, whatever the values. The rows for `InsertedPlaceholderIsReplaced`, `PlaceholderCaseIgnored` and `NullValuesRenderEmpty` state its other properties. |
| `LightningHandler.InsertedPlaceholderIsReplaced` | BTCPayServer/Payments/Lightning/LightningLikePaymentHandler.cs:42-44 | The passes run in order `{StoreName}`, `{ItemDescription}`, `{OrderId}`. A store name of "{OrderId}" is therefore replaced again by the order id. |
| `LightningHandler.PlaceholderCaseIgnored` | BTCPayServer/Payments/Lightning/LightningLikePaymentHandler.cs:42-44 | The `{StoreName}` pass matches the template "{storename}" regardless of case. So that template renders as the store name whenever the store name holds no `{ItemDescription}` or `{OrderId}` occurrence for the later passes to replace. |
| `LightningHandler.NullValuesRenderEmpty` | BTCPayServer/Payments/Lightning/LightningLikePaymentHandler.cs:42-44 | Null store name, item description and order id render exactly as empty strings. |
| `LightningHandler.RequestFor` | BTCPayServer/Payments/Lightning/LightningLikePaymentHandler.cs:32-45 | The invoice is requested for the due amount rounded up to whole satoshis (within one satoshi), with a non-negative expiry. |
| `LightningHandler.RequestNeverUnderCollects` | BTCPayServer/Payments/Lightning/LightningLikePaymentHandler.cs:32-45 | The requested amount in bitcoin is at least price / rate. The request carries the rendered description and the clamped expiry window. |
| `LightningHandler.CreatePaymentMethodDetails` | BTCPayServer/Payments/Lightning/LightningLikePaymentHandler.cs:27-58 | A zero rate fails with `DivideByZero`. A quotient price / rate beyond the `decimal` range fails with `Overflow`. The call succeeds exactly when neither happens, the template is set, the invoice was created and the liveness check passed. It then returns the invoice's BOLT11 and id with the verified node. A null invoice gives the liveness error if there is one, and otherwise `NullReference`. |
| `LightningHandler.InvoiceFailureTakesPrecedence` | BTCPayServer/Payments/Lightning/LightningLikePaymentHandler.cs:38-51 | A null template or a failing CreateInvoice gives "Impossible to create lightning invoice (msg)", whatever the liveness check says. |
| `LightningHandler.LivenessFailureSurfacesAfterInvoice` | BTCPayServer/Payments/Lightning/LightningLikePaymentHandler.cs:51 | When the invoice was created but the liveness check failed, that check's error is returned unchanged. |
| `BitcoinHandler.NewHandler` | BTCPayServer/Payments/Bitcoin/BitcoinLikePaymentHandler.cs:19-28 | A null explorer provider, and only that, gives `ArgumentNull("provider")`. The fee factory and wallet provider are kept even when null. |
| `BitcoinHandler.CreatePaymentMethodDetails` | BTCPayServer/Payments/Bitcoin/BitcoinLikePaymentHandler.cs:30-41 | An unavailable explorer gives "Full node not available". Past that gate, a null fee factory or wallet provider gives `NullReference`. A faulted fee fetch gives its own exception, unwrapped, and so does a faulted reservation after a delivered rate. A null rate or null address gives `NullReference`. Success needs both services present and both fetches delivered with values. The result then holds the fetched rate, the fee for 100 bytes at that rate, and the reserved address. |
| `BitcoinHandler.ServiceCalls` | BTCPayServer/Payments/Bitcoin/BitcoinLikePaymentHandler.cs:32-35 | Availability is always asked first. With the explorer down nothing else is asked. At most one reservation is requested. |
| `BitcoinHandler.UncalledServicesDoNotMatter` | BTCPayServer/Payments/Bitcoin/BitcoinLikePaymentHandler.cs:32-35 | When the fee rate or the reservation is not requested, its outcome has no influence on the result. |
| `BitcoinHandler.SuccessReservedOnce` | BTCPayServer/Payments/Bitcoin/BitcoinLikePaymentHandler.cs:34-39 | A successful call issued availability, fee-rate and reservation calls in that order, with exactly one reservation. |
| `BitcoinHandler.FeeRateFailureReportedFirst` | BTCPayServer/Payments/Bitcoin/BitcoinLikePaymentHandler.cs:37-39 | The fee rate is awaited before the address. When both fail, the fee-rate failure is the one that escapes. |
| `BitcoinHandler.FiveSatoshisPerByte` | BTCPayServer/Payments/Bitcoin/BitcoinLikePaymentHandler.cs:37-39 | A rate of 5 per byte and the reserved address "addr1" give a fee of 500 and deposit address "addr1". |

## Left out

- `TestConnection` (socket connect, `IPAddress.Parse`, DNS lookup) is I/O and is not modelled. Every failure in it, including "DNS did not resolved", is rewrapped as "Error while connecting to the lightning node via host:port (msg)".
- `WithTimeout` is a race between tasks, used only by `TestConnection`, and is not modelled.
- The 5000 ms cancellation token passed to `GetInfo` is not modelled as a clock. Whether it had fired when the call failed is the input `tokenCancelled`.
- Concurrency is not modelled. The concurrent starts (the liveness task; the fee and address fetches) are sequential evaluations of supplied outcomes, kept in the order the results are awaited.
- The 28-digit rounding of C# `decimal` division is not modelled; price / rate is exact. `Extensions.RoundUp` is not part of this model and is specified as the ceiling to 8 decimals.
- `LightningHandler.CreatePaymentMethodDetails`: overflow is decided on the exact quotient. A quotient that exceeds `Decimal.MaxValue` by less than the rounding step is not distinguished. Any overflow inside `Extensions.RoundUp`'s scaling is not modelled.
- `NodeInfo.ToString` is not part of this model. The details carry the verified `NodeInfo` value instead of its string form.
- `LightMoney` conversion, `LightningClientFactory.CreateClient`, `GetStoreBlob` and `GetWallet` are assumed not to throw. Null services injected into the Lightning handler are not modelled.
- A `GetInfo` call that returns null is not modelled.
- `LightningHandler.Test`: block heights are unbounded integers; 32-bit overflow in the subtraction and in `Math.Abs` is not modelled.
- `CaseInsensitiveText.ReplaceAllCI`: `OrdinalIgnoreCase` folds Unicode case, but the model folds ASCII letters only. An empty search string (an `ArgumentException` in .NET) is excluded, because every call site uses a fixed placeholder.
- The culture used to format the gap is not modelled; digits are ASCII.
- `BitcoinHandler.CreatePaymentMethodDetails`: the fee rate, money and `FeeRate.GetFee` are uninterpreted (type parameters and a function). The reserved address is given by its string form.
