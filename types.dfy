// Record shapes and enumerations of the ledger: users, investments,
// transactions and catalogue products.
//
// The `id`/`uid` field of each record is the key under which the store
// holds it (see LedgerStore), so it is not repeated inside the record.
module Types {

  datatype Option<+T> = None | Some(value: T)

  /** Firebase Auth user id: the key of a user document. */
  type Uid = string

  /** Id of a document the store allocates itself (`addDoc`, `doc()`). */
  type DocId = nat

  /** A point in time, in milliseconds since the epoch. */
  type Millis = int

  /** JavaScript numbers holding money, modelled exactly. */
  type Money = real

  datatype AccountStatus = AccountActive | AccountBlocked

  datatype InvestmentStatus = Active | Completed

  /** The five kinds of transaction record. */
  datatype TxType = RechargeTx | WithdrawTx | InvestmentTx | ProfitTx | ReferralTx

  /** A transaction is pending until approved or rejected. */
  datatype TxStatus = Pending | Approved | Rejected

  datatype UserProfile = UserProfile(
    phone: string,
    name: string,
    rechargeWallet: Money,
    mainBalance: Money,
    totalWithdraw: Money,
    referralCode: string,
    referredBy: Option<string>,
    status: AccountStatus,
    isAdmin: bool,
    createdAt: Millis,
    lastLoginIp: Option<string>,
    deviceId: Option<string>)

  datatype Product = Product(
    name: string,
    price: Money,
    duration: int,          // in days
    dailyProfit: Money,
    totalReturn: Money,
    image: string,
    category: Option<string>)

  datatype Investment = Investment(
    userId: Uid,
    productId: DocId,
    productName: string,
    amount: Money,
    dailyProfit: Money,
    startDate: Millis,
    endDate: Millis,
    status: InvestmentStatus,
    lastProfitClaim: Millis,
    totalEarned: Money)

  /** `productName` and `fromUser` are written by the purchase flow and the
      referral commission although the interface does not declare them. */
  datatype Transaction = Transaction(
    userId: Uid,
    txType: TxType,
    amount: Money,
    status: TxStatus,
    createdAt: Millis,
    approvedAt: Option<Millis>,
    paymentMethod: Option<string>,
    accountDetails: Option<string>,
    fromUser: Option<string>,
    productName: Option<string>)

  /** The three balance fields of a user. */
  datatype Balance = RechargeWallet | MainBalance | TotalWithdraw

  function BalanceOf(u: UserProfile, f: Balance): Money
  {
    match f
    case RechargeWallet => u.rechargeWallet
    case MainBalance => u.mainBalance
    case TotalWithdraw => u.totalWithdraw
  }

  /** The store's `increment(delta)` applied to one balance field. */
  function Credit(u: UserProfile, f: Balance, delta: Money): (r: UserProfile)
    ensures BalanceOf(r, f) == BalanceOf(u, f) + delta
    ensures forall g :: g != f ==> BalanceOf(r, g) == BalanceOf(u, g)
    ensures r.(rechargeWallet := u.rechargeWallet, mainBalance := u.mainBalance,
               totalWithdraw := u.totalWithdraw) == u
  {
    match f
    case RechargeWallet => u.(rechargeWallet := u.rechargeWallet + delta)
    case MainBalance => u.(mainBalance := u.mainBalance + delta)
    case TotalWithdraw => u.(totalWithdraw := u.totalWithdraw + delta)
  }

  /** Two increments of one field add up. */
  lemma CreditTwice(u: UserProfile, f: Balance, a: Money, b: Money)
    ensures Credit(Credit(u, f, a), f, b) == Credit(u, f, a + b)
  {
  }
}
