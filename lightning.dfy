/** The Lightning payment-method handler: the node liveness check and the
    assembly of a Lightning invoice for a BTCPay invoice. Every service the
    handler calls is replaced by the outcome it delivers. */
module LightningHandler {
  import opened PaymentResults
  import opened CaseInsensitiveText
  import opened DecimalText

  // ---------------------------------------------------------------------------
  // Node liveness check

  /** What the node's info RPC reports; `address` is null when no public
      address is configured. */
  datatype LightningNodeInformation = LightningNodeInformation(
    nodeId: string, address: Option<string>, p2pPort: int, blockHeight: int)

  /** An exception thrown by a service call: its message, and whether it is an
      OperationCanceledException. */
  datatype ServiceException = ServiceException(message: string, isOperationCanceled: bool)

  /** Outcome of the info RPC made under the 5000 ms token. `tokenCancelled`
      tells whether that token had fired when the exception was caught. */
  datatype GetInfoReply =
    | Replied(info: LightningNodeInformation)
    | Threw(exception: ServiceException, tokenCancelled: bool)

  /** What the dashboard and the node answer during one liveness check. */
  datatype NodeProbe = NodeProbe(fullySynced: bool, chainHeight: int, reply: GetInfoReply)

  /** The verified endpoint of the node. */
  datatype NodeInfo = NodeInfo(nodeId: string, host: string, port: int)

  /** Largest tolerated distance between the node's and the full node's chain heights. */
  const MaxBlocksGap: nat := 10

  const FullNodeNotAvailable: string := "Full node not available"
  const NodeTimedOut: string := "The lightning node did not replied in a timely maner"
  const NoPublicAddress: string := "No lightning node public address has been configured"
  const ApiErrorPrefix: string := "Error while connecting to the API ("
  const NotSynchedPrefix: string := "The lightning is not synched ("
  const NotSynchedSuffix: string := " blocks)"

  function ApiError(message: string): (m: string) { ApiErrorPrefix + message + ")" }

  function NotSynched(gap: nat): (m: string) { NotSynchedPrefix + NatToString(gap) + NotSynchedSuffix }

  function Abs(x: int): (a: nat)
    ensures a == x || a == -x
  {
    if x < 0 then -x else x
  }

  /** Distance between the node's height and the full node's height. */
  function BlocksGap(info: LightningNodeInformation, chainHeight: int): (gap: nat) {
    Abs(info.blockHeight - chainHeight)
  }

  /** The liveness check: the full node is synced, the node answers in time,
      has a public address and is at most `MaxBlocksGap` blocks away from the
      full node; checked in that order, the first failing check names the error. */
  function Test(probe: NodeProbe): (r: Result<NodeInfo>)
    ensures r.Ok? <==>
      && probe.fullySynced
      && probe.reply.Replied?
      && probe.reply.info.address.Some?
      && BlocksGap(probe.reply.info, probe.chainHeight) <= MaxBlocksGap
    ensures r.Ok? ==>
      var info := probe.reply.info;
      r.value == NodeInfo(info.nodeId, info.address.value, info.p2pPort)
    ensures r.Err? ==> r.error.PaymentMethodUnavailable?
  {
    if !probe.fullySynced then Err(PaymentMethodUnavailable(FullNodeNotAvailable))
    else match probe.reply
      case Threw(ex, tokenCancelled) =>
        if ex.isOperationCanceled && tokenCancelled
        then Err(PaymentMethodUnavailable(NodeTimedOut))
        else Err(PaymentMethodUnavailable(ApiError(ex.message)))
      case Replied(info) =>
        if info.address.None? then Err(PaymentMethodUnavailable(NoPublicAddress))
        else
          var gap := BlocksGap(info, probe.chainHeight);
          if gap > MaxBlocksGap then Err(PaymentMethodUnavailable(NotSynched(gap)))
          else Ok(NodeInfo(info.nodeId, info.address.value, info.p2pPort))
  }

  /** An unsynced full node fails the check before the node is consulted:
      neither the chain height nor the node's reply matters. */
  lemma TestRequiresSyncedFullNode(probe: NodeProbe)
    requires !probe.fullySynced
    ensures Test(probe) == Err(PaymentMethodUnavailable(FullNodeNotAvailable))
  {
  }

  /** A cancellation seen while the 5000 ms token has fired is a timeout; any
      other exception, a cancellation from elsewhere included, is reported as
      an API error carrying the exception's message. */
  lemma TestRpcFailures(chainHeight: int, ex: ServiceException, tokenCancelled: bool)
    ensures var r := Test(NodeProbe(true, chainHeight, Threw(ex, tokenCancelled)));
      if ex.isOperationCanceled && tokenCancelled
      then r == Err(PaymentMethodUnavailable(NodeTimedOut))
      else r == Err(PaymentMethodUnavailable(ApiErrorPrefix + ex.message + ")"))
  {
  }

  /** A node without a public address is rejected whatever its height. */
  lemma TestAddressBeforeGap(chainHeight: int, info: LightningNodeInformation)
    requires info.address.None?
    ensures Test(NodeProbe(true, chainHeight, Replied(info))) == Err(PaymentMethodUnavailable(NoPublicAddress))
  {
  }

  /** The gap bound is inclusive and symmetric: a node exactly ten blocks
      ahead of or behind the full node passes, eleven blocks fails. */
  lemma TestGapBoundary(chainHeight: int, nodeId: string, host: string, port: int, behind: bool)
    ensures var d := if behind then -10 else 10;
      Test(NodeProbe(true, chainHeight, Replied(LightningNodeInformation(nodeId, Some(host), port, chainHeight + d))))
        == Ok(NodeInfo(nodeId, host, port))
    ensures var d := if behind then -11 else 11;
      Test(NodeProbe(true, chainHeight, Replied(LightningNodeInformation(nodeId, Some(host), port, chainHeight + d))))
        == Err(PaymentMethodUnavailable(NotSynched(11)))
  {
  }

  /** A desynchronised node is reported with its gap written in decimal
      inside the message, and the number read back from the message is the gap. */
  lemma TestGapMessageNamesGap(probe: NodeProbe)
    requires probe.fullySynced && probe.reply.Replied? && probe.reply.info.address.Some?
    requires BlocksGap(probe.reply.info, probe.chainHeight) > MaxBlocksGap
    ensures var gap := BlocksGap(probe.reply.info, probe.chainHeight);
      && Test(probe).Err?
      && var m := Test(probe).error.message;
      && |m| > |NotSynchedPrefix| + |NotSynchedSuffix|
      && m[..|NotSynchedPrefix|] == NotSynchedPrefix
      && AllDigits(m[|NotSynchedPrefix|..|m| - |NotSynchedSuffix|])
      && ParseDigits(m[|NotSynchedPrefix|..|m| - |NotSynchedSuffix|]) == gap
  {
    var gap := BlocksGap(probe.reply.info, probe.chainHeight);
    var m := Test(probe).error.message;
    assert m == NotSynchedPrefix + NatToString(gap) + NotSynchedSuffix;
    assert m[|NotSynchedPrefix|..|m| - |NotSynchedSuffix|] == NatToString(gap);
    ParseNatToString(gap);
  }

  // ---------------------------------------------------------------------------
  // Payment details

  /** Satoshis per bitcoin: the due amount is rounded up to 8 decimals. */
  const SatoshisPerBitcoin: int := 100000000

  /** `TimeSpan` ticks (100 ns) in one second. */
  const TicksPerSecond: int := 10000000

  /** `x` bitcoins rounded up to a whole number of satoshis: the smallest
      number of satoshis that is at least `x`. */
  function RoundUpToSatoshis(x: real): (sats: int)
    ensures sats as real >= x * SatoshisPerBitcoin as real
    ensures (sats - 1) as real < x * SatoshisPerBitcoin as real
  {
    -((-x * SatoshisPerBitcoin as real).Floor)
  }

  /** Price 10 at rate 3 is due as 3.33333334 BTC. */
  lemma RoundUpTenThirds()
    ensures RoundUpToSatoshis(10.0 / 3.0) == 333333334
  {
    var x := 10.0 / 3.0;
    var s := RoundUpToSatoshis(x);
    assert x * 100000000.0 == 1000000000.0 / 3.0;
    assert 333333333.0 < 1000000000.0 / 3.0 < 333333334.0;
  }

  /** Remaining validity of the invoice, in ticks. Only a strictly negative
      window is replaced, by one second; a window of zero is kept. */
  function ExpiryWindow(expirationTime: int, now: int): (window: int)
    ensures window >= 0
    ensures window == expirationTime - now || (expirationTime < now && window == TicksPerSecond)
    ensures expirationTime >= now ==> window == expirationTime - now
  {
    var expiry := expirationTime - now;
    if expiry < 0 then TicksPerSecond else expiry
  }

  /** An expired invoice gets a one-second window however late it is. */
  lemma ExpiredInvoiceGetsOneSecond(expirationTime: int, now: int)
    requires expirationTime < now
    ensures ExpiryWindow(expirationTime, now) == TicksPerSecond
  {
  }

  /** An invoice expiring at this very instant keeps a zero window. */
  lemma ZeroWindowIsKept(now: int)
    ensures ExpiryWindow(now, now) == 0
  {
  }

  const StoreNamePlaceholder: string := "{StoreName}"
  const ItemDescriptionPlaceholder: string := "{ItemDescription}"
  const OrderIdPlaceholder: string := "{OrderId}"

  /** The invoice description: three case-insensitive replace-all passes over
      the template, store name first, then item description, then order id; a
      null value substitutes as the empty string. A template holding none of
      the placeholders, in any case, is the description as it stands. */
  function RenderDescription(template: string, storeName: Option<string>, itemDesc: Option<string>, orderId: Option<string>): (description: string)
    ensures
      (&& NoMatchFrom(template, StoreNamePlaceholder, 0)
       && NoMatchFrom(template, ItemDescriptionPlaceholder, 0)
       && NoMatchFrom(template, OrderIdPlaceholder, 0)) ==>
      description == template
  {
    var withStore := ReplaceAllCI(template, StoreNamePlaceholder, OrEmpty(storeName));
    var withItem := ReplaceAllCI(withStore, ItemDescriptionPlaceholder, OrEmpty(itemDesc));
    var withOrder := ReplaceAllCI(withItem, OrderIdPlaceholder, OrEmpty(orderId));
    assert NoMatchFrom(template, StoreNamePlaceholder, 0) ==> withStore == template by {
      if NoMatchFrom(template, StoreNamePlaceholder, 0) {
        NoMatchNoChange(template, StoreNamePlaceholder, OrEmpty(storeName));
      }
    }
    assert withStore == template && NoMatchFrom(template, ItemDescriptionPlaceholder, 0) ==> withItem == template by {
      if withStore == template && NoMatchFrom(template, ItemDescriptionPlaceholder, 0) {
        NoMatchNoChange(template, ItemDescriptionPlaceholder, OrEmpty(itemDesc));
      }
    }
    assert withItem == template && NoMatchFrom(template, OrderIdPlaceholder, 0) ==> withOrder == template by {
      if withItem == template && NoMatchFrom(template, OrderIdPlaceholder, 0) {
        NoMatchNoChange(template, OrderIdPlaceholder, OrEmpty(orderId));
      }
    }
    withOrder
  }

  /** A text equal to the pattern is replaced as a whole. */
  lemma {:induction false} StartsWithItself(p: string)
    ensures StartsWithCI(p, p)
    decreases p
  {
    if p != [] {
      StartsWithItself(p[1..]);
    }
  }

  lemma ReplaceWholeText(p: string, v: string)
    requires p != []
    ensures ReplaceAllCI(p, p, v) == v
  {
    StartsWithItself(p);
    assert p[|p|..] == [];
  }

  /** The passes run in sequence, so a placeholder brought in by the store
      name is itself replaced by the order id. */
  lemma InsertedPlaceholderIsReplaced(itemDesc: Option<string>, orderId: string)
    ensures RenderDescription(StoreNamePlaceholder, Some(OrderIdPlaceholder), itemDesc, Some(orderId)) == orderId
  {
    ReplaceWholeText(StoreNamePlaceholder, OrderIdPlaceholder);
    ReplaceWholeText(OrderIdPlaceholder, orderId);
  }

  /** Placeholders match whatever their case: the template `{storename}`
      renders as the store name, provided the store name does not itself
      hold a placeholder that the later passes would replace. */
  lemma PlaceholderCaseIgnored(storeName: string, itemDesc: Option<string>, orderId: Option<string>)
    requires NoMatchFrom(storeName, ItemDescriptionPlaceholder, 0)
    requires NoMatchFrom(storeName, OrderIdPlaceholder, 0)
    ensures RenderDescription("{storename}", Some(storeName), itemDesc, orderId) == storeName
  {
    var lower := "{storename}";
    assert ReplaceAllCI(lower, StoreNamePlaceholder, storeName) == storeName by {
      assert Fold(lower) == Fold(StoreNamePlaceholder) by {
        forall i | 0 <= i < |lower| ensures Fold(lower)[i] == Fold(StoreNamePlaceholder)[i] {
        }
      }
      ReplaceIgnoresPatternCase(lower, StoreNamePlaceholder, lower, storeName);
      ReplaceWholeText(lower, storeName);
    }
    NoMatchNoChange(storeName, ItemDescriptionPlaceholder, OrEmpty(itemDesc));
    NoMatchNoChange(storeName, OrderIdPlaceholder, OrEmpty(orderId));
  }

  /** A null value renders exactly as an empty one. */
  lemma NullValuesRenderEmpty(template: string)
    ensures RenderDescription(template, None, None, None) == RenderDescription(template, Some(""), Some(""), Some(""))
  {
  }

  /** What the handler reads from the BTCPay invoice. */
  datatype Invoice = Invoice(price: real, expirationTime: int, itemDesc: Option<string>, orderId: Option<string>)

  /** What the handler reads from the store; the template may be null. */
  datatype Store = Store(storeName: Option<string>, descriptionTemplate: Option<string>)

  /** The arguments of the client's CreateInvoice call. */
  datatype InvoiceRequest = InvoiceRequest(amountSatoshis: int, description: string, expiryTicks: int)

  datatype LightningInvoice = LightningInvoice(id: string, bolt11: string)

  /** Outcome of CreateInvoice: an invoice, a null invoice, or the message of
      the exception thrown. */
  datatype CreateInvoiceReply = Created(invoice: LightningInvoice) | CreatedNull | CreateFailed(message: string)

  datatype LightningDetails = LightningDetails(bolt11: string, invoiceId: string, nodeInfo: NodeInfo)

  const CreateInvoiceErrorPrefix: string := "Impossible to create lightning invoice ("

  function CreateInvoiceError(message: string): (m: string) { CreateInvoiceErrorPrefix + message + ")" }

  /** The request sent to the node for a non-zero rate and a present template. */
  function RequestFor(invoice: Invoice, rate: real, store: Store, now: int): (req: InvoiceRequest)
    requires rate != 0.0 && store.descriptionTemplate.Some?
    ensures req.amountSatoshis as real >= invoice.price / rate * SatoshisPerBitcoin as real
    ensures (req.amountSatoshis - 1) as real < invoice.price / rate * SatoshisPerBitcoin as real
    ensures req.expiryTicks >= 0
  {
    InvoiceRequest(
      RoundUpToSatoshis(invoice.price / rate),
      RenderDescription(store.descriptionTemplate.value, store.storeName, invoice.itemDesc, invoice.orderId),
      ExpiryWindow(invoice.expirationTime, now))
  }

  /** Builds the Lightning payment details. The liveness check is started
      first but its outcome is consulted last; the due amount is computed
      outside the guarded block, so a zero rate escapes as a division by
      zero and a quotient beyond the decimal range as an overflow, while a
      null template or a failing CreateInvoice is reported as "Impossible to
      create lightning invoice", ahead of any liveness failure. A null
      invoice is dereferenced only after the liveness check has passed. */
  function CreatePaymentMethodDetails(
    probe: NodeProbe, invoice: Invoice, rate: real, store: Store, now: int,
    createInvoice: InvoiceRequest -> CreateInvoiceReply): (r: Result<LightningDetails>)
    ensures rate == 0.0 ==> r == Err(DivideByZero)
    ensures rate != 0.0 && DecimalOverflows(invoice.price / rate) ==> r == Err(Overflow)
    ensures r.Ok? <==>
      && rate != 0.0
      && !DecimalOverflows(invoice.price / rate)
      && store.descriptionTemplate.Some?
      && createInvoice(RequestFor(invoice, rate, store, now)).Created?
      && Test(probe).Ok?
    ensures r.Ok? ==>
      var created := createInvoice(RequestFor(invoice, rate, store, now)).invoice;
      r.value == LightningDetails(created.bolt11, created.id, Test(probe).value)
    ensures
      (&& rate != 0.0 && !DecimalOverflows(invoice.price / rate) && store.descriptionTemplate.Some?
       && createInvoice(RequestFor(invoice, rate, store, now)).CreatedNull?) ==>
      r == (if Test(probe).Err? then Err(Test(probe).error) else Err(NullReference))
  {
    var test := Test(probe);
    if rate == 0.0 then Err(DivideByZero)
    else if DecimalOverflows(invoice.price / rate) then Err(Overflow)
    else match store.descriptionTemplate
      case None => Err(PaymentMethodUnavailable(CreateInvoiceError(NullReferenceMessage)))
      case Some(_) =>
        match createInvoice(RequestFor(invoice, rate, store, now))
        case CreateFailed(message) => Err(PaymentMethodUnavailable(CreateInvoiceError(message)))
        case CreatedNull => (
          match test
          case Err(e) => Err(e)
          case Ok(_) => Err(NullReference))
        case Created(created) =>
          match test
          case Err(e) => Err(e)
          case Ok(nodeInfo) => Ok(LightningDetails(created.bolt11, created.id, nodeInfo))
  }

  /** A failure to create the invoice is what the caller sees, whatever the
      liveness check would have said. */
  lemma InvoiceFailureTakesPrecedence(
    probe: NodeProbe, invoice: Invoice, rate: real, store: Store, now: int,
    createInvoice: InvoiceRequest -> CreateInvoiceReply)
    requires rate != 0.0 && !DecimalOverflows(invoice.price / rate)
    ensures store.descriptionTemplate.None? ==>
      CreatePaymentMethodDetails(probe, invoice, rate, store, now, createInvoice)
        == Err(PaymentMethodUnavailable(CreateInvoiceErrorPrefix + NullReferenceMessage + ")"))
    ensures store.descriptionTemplate.Some? && createInvoice(RequestFor(invoice, rate, store, now)).CreateFailed? ==>
      CreatePaymentMethodDetails(probe, invoice, rate, store, now, createInvoice)
        == Err(PaymentMethodUnavailable(CreateInvoiceErrorPrefix + createInvoice(RequestFor(invoice, rate, store, now)).message + ")"))
  {
  }

  /** Once the invoice exists, a failed liveness check is reported unchanged
      and the invoice is discarded. */
  lemma LivenessFailureSurfacesAfterInvoice(
    probe: NodeProbe, invoice: Invoice, rate: real, store: Store, now: int,
    createInvoice: InvoiceRequest -> CreateInvoiceReply)
    requires rate != 0.0 && !DecimalOverflows(invoice.price / rate) && store.descriptionTemplate.Some?
    requires createInvoice(RequestFor(invoice, rate, store, now)).Created?
    requires Test(probe).Err?
    ensures CreatePaymentMethodDetails(probe, invoice, rate, store, now, createInvoice) == Err(Test(probe).error)
  {
  }

  /** The node is asked for an invoice of the due amount rounded up, never
      down, to whole satoshis, with the rendered description and the clamped window. */
  lemma RequestNeverUnderCollects(invoice: Invoice, rate: real, store: Store, now: int)
    requires rate != 0.0 && store.descriptionTemplate.Some?
    ensures var req := RequestFor(invoice, rate, store, now);
      && req.amountSatoshis as real / SatoshisPerBitcoin as real >= invoice.price / rate
      && req.description == RenderDescription(store.descriptionTemplate.value, store.storeName, invoice.itemDesc, invoice.orderId)
      && req.expiryTicks == ExpiryWindow(invoice.expirationTime, now)
  {
    var req := RequestFor(invoice, rate, store, now);
    SatoshisToBitcoin(req.amountSatoshis as real, invoice.price / rate);
  }

  lemma SatoshisToBitcoin(sats: real, x: real)
    requires sats >= x * SatoshisPerBitcoin as real
    ensures sats / SatoshisPerBitcoin as real >= x
  {
  }
}
