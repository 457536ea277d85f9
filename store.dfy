// The ledger store: the `users`, `transactions` and `investments`
// collections, the invariants every operation keeps, and the outcome an
// operation reports.
module LedgerStore {
  import opened Types

  /** A snapshot of the three collections. New transaction and investment
      documents take the next free id from `nextTxId` and `nextInvId`. */
  datatype Store = Store(
    users: map<Uid, UserProfile>,
    transactions: map<DocId, Transaction>,
    investments: map<DocId, Investment>,
    nextTxId: DocId,
    nextInvId: DocId)

  const Empty: Store := Store(map[], map[], map[], 0, 0)

  /** No two users share a referral code, so a lookup by code has at most
      one answer. */
  predicate UniqueCodes(users: map<Uid, UserProfile>)
  {
    forall u, v :: u in users && v in users && users[u].referralCode == users[v].referralCode ==> u == v
  }

  /** The store's allocation of fresh ids never hands out a used one. */
  predicate Valid(s: Store)
  {
    && (forall k :: k in s.transactions ==> k < s.nextTxId)
    && (forall k :: k in s.investments ==> k < s.nextInvId)
    && UniqueCodes(s.users)
  }

  /** No balance is negative, no pending request is for a negative amount,
      and no investment pays a negative daily profit. */
  predicate Solvent(s: Store)
  {
    && (forall u :: u in s.users ==>
          s.users[u].rechargeWallet >= 0.0 && s.users[u].mainBalance >= 0.0 && s.users[u].totalWithdraw >= 0.0)
    && (forall k :: k in s.transactions && s.transactions[k].status == Pending ==> s.transactions[k].amount >= 0.0)
    && (forall k :: k in s.investments ==> s.investments[k].dailyProfit >= 0.0)
  }

  lemma EmptyIsValid()
    ensures Valid(Empty) && Solvent(Empty)
  {
  }

  /** Why a client-side request was refused before anything was written. */
  datatype Refusal =
    | NoProfile            // no signed-in profile
    | BelowMinimum         // amount under the page's minimum
    | InsufficientBalance  // amount above the balance it is paid from
    | MissingDetails       // empty bank/UPI details
    | Cancelled            // the purchase was not confirmed
    | NameRequired         // empty name at registration
    | PhoneTaken           // a user with this phone exists
    | NotSignedIn          // no signed-in account at registration

  /** What an operation reports. The server handlers answer
      Ok with 200, Unauthorized with 403, InvalidTransaction with 400 and
      StoreFailure (a write the store refused: an update of a missing
      document, an undefined field value) with 500. */
  datatype Outcome = Ok | Unauthorized | InvalidTransaction | Refused(reason: Refusal) | StoreFailure

  /** `addDoc` on the transactions collection. */
  function AddTransaction(s: Store, t: Transaction): (r: Store)
    requires Valid(s)
    ensures Valid(r)
    ensures s.nextTxId !in s.transactions && r.transactions.Keys == s.transactions.Keys + {s.nextTxId}
    ensures r.transactions[s.nextTxId] == t
    ensures forall k :: k in s.transactions ==> r.transactions[k] == s.transactions[k]
    ensures r.users == s.users && r.investments == s.investments && r.nextInvId == s.nextInvId
  {
    s.(transactions := s.transactions[s.nextTxId := t], nextTxId := s.nextTxId + 1)
  }

  /** `addDoc` on the investments collection. */
  function AddInvestment(s: Store, inv: Investment): (r: Store)
    requires Valid(s)
    ensures Valid(r)
    ensures s.nextInvId !in s.investments && r.investments.Keys == s.investments.Keys + {s.nextInvId}
    ensures r.investments[s.nextInvId] == inv
    ensures forall k :: k in s.investments ==> r.investments[k] == s.investments[k]
    ensures r.users == s.users && r.transactions == s.transactions && r.nextTxId == s.nextTxId
  {
    s.(investments := s.investments[s.nextInvId := inv], nextInvId := s.nextInvId + 1)
  }

  /** A fresh transaction record as the pages and handlers write it. */
  function NewTransaction(owner: Uid, kind: TxType, amount: Money, status: TxStatus, now: Millis): Transaction
  {
    Transaction(owner, kind, amount, status, now, None, None, None, None, None)
  }
}
