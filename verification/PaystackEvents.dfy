/** What a provider event means to the ledgers (src/domain/payments.ts). */
module PaystackEvents {
  import opened Wrappers

  /** A metadata user id: a UUID names a user, other text does not. */
  datatype UserText = EmptyText | NotUuid | Uuid(user: nat)

  /** `purpose` and `userId` are present when they are text; `creditKobo` when the field
      converts to an integer. */
  datatype MetadataFields = MetadataFields(purpose: Option<string>, userId: Option<UserText>, creditKobo: Option<int>)

  /** Metadata is missing, an object, or text that may or may not parse to an object. */
  datatype Metadata = NoMetadata | Object(fields: MetadataFields) | Text(parsed: Option<MetadataFields>)

  datatype Authorization = Authorization(
    channel: Option<string>,
    receiverBankAccountNumber: Option<string>,
    senderName: Option<string>)

  datatype EventData = EventData(
    reference: Option<string>,
    amount: Option<int>,
    currency: Option<string>,
    receiverBankAccountNumber: Option<string>,
    metadata: Metadata,
    authorization: Option<Authorization>)

  datatype Payload = Payload(event: string, data: Option<EventData>)

  datatype TransferStatus = TransferSuccess | TransferFailed | TransferReversed

  datatype IgnoreReason = UnmappedEvent | MissingReference

  datatype DomainEvent =
    | PaymentSucceeded(reference: string, amountKobo: int, currency: Option<string>)
    | PaymentFailed(reference: string, failedAmountKobo: Option<int>)
    | RefundSucceeded(reference: string, refundAmountKobo: Option<int>)
    | TransferReconciled(reference: string, status: TransferStatus)
    | WalletTopupSucceeded(
        reference: string,
        amountKobo: int,
        accountNumber: Option<string>,
        userId: Option<UserText>,
        creditKobo: Option<int>,
        senderName: Option<string>,
        currency: Option<string>)
    | Ignored(reason: IgnoreReason, providerEvent: string)

  const WALLET_TOPUP_PURPOSE := "wallet_topup"
  const DEDICATED_CHANNEL := "dedicated_nuban"
  const CHARGE_SUCCESS := "charge.success"

  function OrElse<T>(first: Option<T>, second: Option<T>): Option<T> {
    if first.Some? then first else second
  }

  function MetadataRecord(m: Metadata): Option<MetadataFields> {
    match m
    case NoMetadata => None
    case Object(fields) => Some(fields)
    case Text(parsed) => parsed
  }

  predicate IsWalletTopup(m: Option<MetadataFields>) {
    && m.Some?
    && m.value.purpose == Some(WALLET_TOPUP_PURPOSE)
    && m.value.userId.Some? && m.value.userId.value != EmptyText
  }

  predicate OnDedicatedAccount(d: EventData) {
    d.authorization.Some? && d.authorization.value.channel == Some(DEDICATED_CHANNEL)
  }

  function AmountOf(d: EventData): int {
    if d.amount.Some? then d.amount.value else 0
  }

  function MapPaystackEvent(input: Payload): DomainEvent {
    if input.data.None? || input.data.value.reference.None? || input.data.value.reference.value == "" then
      Ignored(MissingReference, input.event)
    else
      var data := input.data.value;
      var reference := data.reference.value;
      var metadata := MetadataRecord(data.metadata);
      if input.event == CHARGE_SUCCESS && OnDedicatedAccount(data) then
        var authorization := data.authorization.value;
        WalletTopupSucceeded(
          reference,
          AmountOf(data),
          OrElse(authorization.receiverBankAccountNumber, data.receiverBankAccountNumber),
          None,
          None,
          authorization.senderName,
          data.currency)
      else if input.event == CHARGE_SUCCESS && IsWalletTopup(metadata) then
        var credit := metadata.value.creditKobo;
        WalletTopupSucceeded(
          reference,
          AmountOf(data),
          None,
          metadata.value.userId,
          if credit.Some? && credit.value > 0 then credit else None,
          None,
          data.currency)
      else if input.event == CHARGE_SUCCESS then PaymentSucceeded(reference, AmountOf(data), data.currency)
      else if input.event == "charge.failed" then PaymentFailed(reference, data.amount)
      else if input.event == "refund.processed" then RefundSucceeded(reference, data.amount)
      else if input.event == "transfer.success" then TransferReconciled(reference, TransferSuccess)
      else if input.event == "transfer.failed" then TransferReconciled(reference, TransferFailed)
      else if input.event == "transfer.reversed" then TransferReconciled(reference, TransferReversed)
      else Ignored(UnmappedEvent, input.event)
  }

  predicate HasReference(input: Payload) {
    input.data.Some? && input.data.value.reference.Some? && input.data.value.reference.value != ""
  }

  /** Each successful charge reaches one ledger, and nothing else reaches either: the wallets
      when it is a deposit on a dedicated account or a checkout stamped as a top-up, the
      payments otherwise; in both cases under the provider's reference. */
  lemma ChargesReachOneLedger(input: Payload)
    ensures
      var event := MapPaystackEvent(input);
      var charged := HasReference(input) && input.event == CHARGE_SUCCESS;
      var forWallet := charged
        && (OnDedicatedAccount(input.data.value) || IsWalletTopup(MetadataRecord(input.data.value.metadata)));
      && (event.WalletTopupSucceeded? <==> forWallet)
      && (event.PaymentSucceeded? <==> charged && !forWallet)
      && (charged ==>
           event.reference == input.data.value.reference.value && event.amountKobo == AmountOf(input.data.value))
      && (event.Ignored? && event.reason == MissingReference <==> !HasReference(input))
  {}

  /** Where a deposit on a dedicated account goes is up to the account: its metadata is never
      consulted, so it can neither name a user nor a different amount. */
  lemma MetadataCannotRedirectADeposit(input: Payload, metadata: Metadata)
    requires input.data.Some? && OnDedicatedAccount(input.data.value) && input.event == CHARGE_SUCCESS
    ensures
      && MapPaystackEvent(input.(data := Some(input.data.value.(metadata := metadata)))) == MapPaystackEvent(input)
      && var event := MapPaystackEvent(input);
      event.WalletTopupSucceeded? ==> event.userId.None? && event.creditKobo.None?
  {}

  /** What else can arrive under a reference: failed charges and processed refunds with the
      amount they name, and transfers that succeeded, failed or were reversed. */
  lemma OtherEvents(input: Payload)
    requires HasReference(input)
    ensures
      var event, reference := MapPaystackEvent(input), input.data.value.reference.value;
      && (event.PaymentFailed? <==> input.event == "charge.failed")
      && (event.PaymentFailed? ==> event == PaymentFailed(reference, input.data.value.amount))
      && (event.RefundSucceeded? <==> input.event == "refund.processed")
      && (event.RefundSucceeded? ==> event == RefundSucceeded(reference, input.data.value.amount))
      && (event == TransferReconciled(reference, TransferSuccess) <==> input.event == "transfer.success")
      && (event == TransferReconciled(reference, TransferFailed) <==> input.event == "transfer.failed")
      && (event == TransferReconciled(reference, TransferReversed) <==> input.event == "transfer.reversed")
      && (event == Ignored(UnmappedEvent, input.event) <==>
           input.event !in {"charge.success", "charge.failed", "refund.processed",
                            "transfer.success", "transfer.failed", "transfer.reversed"})
  {}

  /** What a successful charge carries into the ledgers. */
  lemma WhatChargesCarry(input: Payload)
    requires HasReference(input) && input.event == "charge.success"
    ensures
      var event, data := MapPaystackEvent(input), input.data.value;
      && event.reference == data.reference.value && event.currency == data.currency
      && event.amountKobo == (if data.amount.Some? then data.amount.value else 0)
    ensures
      var event, data := MapPaystackEvent(input), input.data.value;
      data.authorization.Some? && data.authorization.value.channel == Some("dedicated_nuban") ==>
        && event.WalletTopupSucceeded? && event.senderName == data.authorization.value.senderName
        && event.accountNumber == (if data.authorization.value.receiverBankAccountNumber.Some?
             then data.authorization.value.receiverBankAccountNumber else data.receiverBankAccountNumber)
    ensures
      var event, data := MapPaystackEvent(input), input.data.value;
      event.WalletTopupSucceeded? && !(data.authorization.Some?
        && data.authorization.value.channel == Some("dedicated_nuban")) ==>
        exists fields :: data.metadata in {Object(fields), Text(Some(fields))}
          && fields.purpose == Some("wallet_topup") && event.userId == fields.userId && fields.userId.Some?
          && event.accountNumber.None? && event.senderName.None?
          && event.creditKobo == (if fields.creditKobo.Some? && fields.creditKobo.value > 0 then fields.creditKobo
            else None)
  {
    var data := input.data.value;
    if MetadataRecord(data.metadata).Some? {
      assert data.metadata in {Object(MetadataRecord(data.metadata).value),
        Text(Some(MetadataRecord(data.metadata).value))};
    }
  }
}
