/**
 * The value types of the trip ledger: trip settings, transactions with their
 * split rule, settlement rows and per-day groups. Amounts are reals.
 */
module TripTypes {
  import opened Wrappers
  import opened JsStrings

  /** The trip's settings. `currentRate` is documented as KRW per CNY, but
    * the settings dialog fills it with a CNY-per-KRW rate. */
  datatype TripSettings = TripSettings(
    travelers: seq<Text>,
    totalBudget: real,
    currentRate: real,
    location: Text)

  /** `even`: shared equally by `splitAmong`; `treat`: paid for by
    * `treatedBy`; `none`: borne by the payer. */
  datatype SplitType = Even | Treat | NoSplit

  datatype Transaction = Transaction(
    id: Text,
    name: Text,
    amountKRW: real,
    amountCNY: real,
    payer: Text,
    splitType: SplitType,
    splitAmong: Option<seq<Text>>,
    treatedBy: Option<Text>,
    timestamp: int,
    icon: Text,
    date: Text)

  /** One traveler's row: what they paid, what they should bear, and the
    * difference (positive: owes money, negative: is owed money). */
  datatype SettlementItem = SettlementItem(
    traveler: Text,
    totalPaid: real,
    totalShare: real,
    balance: real,
    color: Text)

  datatype TransactionsByDate = TransactionsByDate(
    date: Text,
    transactions: seq<Transaction>,
    totalAmount: real)
}
