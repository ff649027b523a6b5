/** The on-chain payment-method handler: an availability gate, then the fee
    rate and a freshly reserved deposit address. The fee rate and the money
    amount are NBitcoin values this model does not interpret; they are type
    parameters, and the fee-for-size computation is passed in. */
module BitcoinHandler {
  import opened PaymentResults

  /** An injected service object, known here only by its identity. */
  datatype ServiceRef = ServiceRef(name: string)

  /** The handler's injected services; only the explorer provider is known
      to be non-null. */
  datatype Handler = Handler(
    explorerProvider: ServiceRef,
    feeProviderFactory: Option<ServiceRef>,
    walletProvider: Option<ServiceRef>)

  /** The constructor rejects a null explorer provider and nothing else. */
  function NewHandler(provider: Option<ServiceRef>, feeProviderFactory: Option<ServiceRef>, walletProvider: Option<ServiceRef>): (r: Result<Handler>)
    ensures provider.None? <==> r.Err?
    ensures r.Err? ==> r.error == ArgumentNull("provider")
    ensures r.Ok? ==>
      && r.value.explorerProvider == provider.value
      && r.value.feeProviderFactory == feeProviderFactory
      && r.value.walletProvider == walletProvider
  {
    match provider
    case None => Err(ArgumentNull("provider"))
    case Some(p) => Ok(Handler(p, feeProviderFactory, walletProvider))
  }

  /** What an awaited service call delivers: a value, null, or a thrown exception's message. */
  datatype ServiceReply<T> = Delivered(value: T) | DeliveredNull | Faulted(message: string)

  datatype OnChainDetails<Rate, Money> = OnChainDetails(feeRate: Rate, txFee: Money, depositAddress: string)

  /** Size, in bytes, of the transaction whose fee is shown. */
  const AssumedTxSize: nat := 100

  const FullNodeNotAvailable: string := "Full node not available"

  /** Builds the on-chain payment details from the explorer's availability,
      the fetched fee rate and the reserved address (as its string form).
      The fee rate is awaited before the address, so its failure is the one
      reported when both fail; neither failure is wrapped, and a null value
      fails when it is dereferenced. */
  function CreatePaymentMethodDetails<Rate, Money>(
    handler: Handler, explorerAvailable: bool,
    feeRate: ServiceReply<Rate>, reservedAddress: ServiceReply<string>,
    getFee: (Rate, nat) -> Money): (r: Result<OnChainDetails<Rate, Money>>)
    ensures !explorerAvailable ==> r == Err(PaymentMethodUnavailable(FullNodeNotAvailable))
    ensures explorerAvailable && (handler.feeProviderFactory.None? || handler.walletProvider.None?) ==>
      r == Err(NullReference)
    ensures explorerAvailable && handler.feeProviderFactory.Some? && handler.walletProvider.Some? ==>
      && (feeRate.Faulted? ==> r == Err(ServiceFault(feeRate.message)))
      && (feeRate.DeliveredNull? ==> r == Err(NullReference))
      && (feeRate.Delivered? && reservedAddress.Faulted? ==> r == Err(ServiceFault(reservedAddress.message)))
      && (feeRate.Delivered? && reservedAddress.DeliveredNull? ==> r == Err(NullReference))
    ensures r.Ok? <==>
      && explorerAvailable
      && handler.feeProviderFactory.Some? && handler.walletProvider.Some?
      && feeRate.Delivered? && reservedAddress.Delivered?
    ensures r.Ok? ==>
      && r.value.feeRate == feeRate.value
      && r.value.txFee == getFee(feeRate.value, AssumedTxSize)
      && r.value.depositAddress == reservedAddress.value
  {
    if !explorerAvailable then Err(PaymentMethodUnavailable(FullNodeNotAvailable))
    else if handler.feeProviderFactory.None? || handler.walletProvider.None? then Err(NullReference)
    else match feeRate
      case Faulted(m) => Err(ServiceFault(m))
      case DeliveredNull => Err(NullReference)
      case Delivered(rate) =>
        var fee := getFee(rate, AssumedTxSize);
        match reservedAddress
        case Faulted(m) => Err(ServiceFault(m))
        case DeliveredNull => Err(NullReference)
        case Delivered(address) => Ok(OnChainDetails(rate, fee, address))
  }

  /** The external calls one invocation issues, in order. */
  datatype ServiceCall = IsAvailable | GetFeeRate | ReserveAddress

  function ServiceCalls(handler: Handler, explorerAvailable: bool): (calls: seq<ServiceCall>)
    ensures |calls| >= 1 && calls[0] == IsAvailable
    ensures !explorerAvailable ==> calls == [IsAvailable]
    ensures multiset(calls)[ReserveAddress] <= 1
  {
    if !explorerAvailable || handler.feeProviderFactory.None? then [IsAvailable]
    else if handler.walletProvider.None? then [IsAvailable, GetFeeRate]
    else [IsAvailable, GetFeeRate, ReserveAddress]
  }

  /** A service that is not called has no influence on the outcome: with the
      explorer down the fee rate and the reservation are irrelevant, and a
      reservation is consulted only when it was requested. */
  lemma UncalledServicesDoNotMatter<Rate, Money>(
    handler: Handler, explorerAvailable: bool,
    feeRate: ServiceReply<Rate>, feeRate': ServiceReply<Rate>,
    reservedAddress: ServiceReply<string>, reservedAddress': ServiceReply<string>,
    getFee: (Rate, nat) -> Money)
    ensures GetFeeRate !in ServiceCalls(handler, explorerAvailable) ==>
      CreatePaymentMethodDetails(handler, explorerAvailable, feeRate, reservedAddress, getFee)
        == CreatePaymentMethodDetails(handler, explorerAvailable, feeRate', reservedAddress', getFee)
    ensures ReserveAddress !in ServiceCalls(handler, explorerAvailable) ==>
      CreatePaymentMethodDetails(handler, explorerAvailable, feeRate, reservedAddress, getFee)
        == CreatePaymentMethodDetails(handler, explorerAvailable, feeRate, reservedAddress', getFee)
  {
  }

  /** A successful call asked for exactly one reservation, after the fee rate. */
  lemma SuccessReservedOnce<Rate, Money>(
    handler: Handler, explorerAvailable: bool,
    feeRate: ServiceReply<Rate>, reservedAddress: ServiceReply<string>,
    getFee: (Rate, nat) -> Money)
    requires CreatePaymentMethodDetails(handler, explorerAvailable, feeRate, reservedAddress, getFee).Ok?
    ensures ServiceCalls(handler, explorerAvailable) == [IsAvailable, GetFeeRate, ReserveAddress]
    ensures multiset(ServiceCalls(handler, explorerAvailable))[ReserveAddress] == 1
  {
  }

  /** When both fetches fail, the fee-rate failure is the one reported. */
  lemma FeeRateFailureReportedFirst<Rate, Money>(
    handler: Handler, feeMessage: string, addressMessage: string, getFee: (Rate, nat) -> Money)
    requires handler.feeProviderFactory.Some? && handler.walletProvider.Some?
    ensures CreatePaymentMethodDetails(handler, true, Faulted(feeMessage), Faulted(addressMessage), getFee)
      == Err(ServiceFault(feeMessage))
  {
  }

  /** With a rate of 5 satoshis per byte and address "addr1", the details
      show "addr1" and a fee of 500 satoshis. */
  lemma FiveSatoshisPerByte(handler: Handler)
    requires handler.feeProviderFactory.Some? && handler.walletProvider.Some?
    ensures CreatePaymentMethodDetails(handler, true, Delivered(5), Delivered("addr1"), (rate: int, size: nat) => rate * size)
      == Ok(OnChainDetails(5, 500, "addr1"))
  {
  }
}
