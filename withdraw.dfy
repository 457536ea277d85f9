// The withdraw page's submit handler (src/pages/Withdraw.tsx): a request
// is checked against the signed-in user's profile, recorded as a pending
// withdraw transaction, and the amount is taken off the main balance at
// once, before any admin has looked at it.
module WithdrawPage {
  import opened Types
  import opened LedgerStore

  const MIN_WITHDRAW: Money := 200.0

  /** The pending request record. */
  function WithdrawRecord(uid: Uid, amount: Money, details: string, now: Millis): (t: Transaction)
    ensures t.userId == uid && t.txType == WithdrawTx && t.status == Pending
    ensures t.amount == amount && t.accountDetails == Some(details) && t.createdAt == now
    ensures t.approvedAt.None? && t.paymentMethod.None? && t.fromUser.None? && t.productName.None?
  {
    NewTransaction(uid, WithdrawTx, amount, Pending, now).(accountDetails := Some(details))
  }

  /** What an accepted request writes: one new pending withdraw record,
      and the requester's main balance lowered by the amount. */
  predicate WithdrawApplied(s: Store, r: Store, uid: Uid, amount: Money, details: string, now: Millis)
    requires uid in s.users
  {
    && r.transactions == s.transactions[s.nextTxId := WithdrawRecord(uid, amount, details, now)]
    && r.nextTxId == s.nextTxId + 1
    && r.users == s.users[uid := Credit(s.users[uid], MainBalance, -amount)]
    && r.investments == s.investments && r.nextInvId == s.nextInvId
  }

  /** The submit handler for user `uid` (whose profile is the document
      under `uid`, if any), with the entered amount already parsed. The
      checks run in the order: profile, minimum, balance, details. */
  function RequestWithdraw(s: Store, uid: Uid, amount: Money, details: string, now: Millis): (r: (Store, Outcome))
    requires Valid(s)
    ensures Valid(r.0)
    ensures r.1 == Refused(NoProfile) <==> uid !in s.users
    ensures r.1 == Refused(BelowMinimum) <==> uid in s.users && amount < MIN_WITHDRAW
    ensures r.1 == Refused(InsufficientBalance) <==>
      uid in s.users && MIN_WITHDRAW <= amount && amount > s.users[uid].mainBalance
    ensures r.1 == Refused(MissingDetails) <==>
      uid in s.users && MIN_WITHDRAW <= amount <= s.users[uid].mainBalance && details == ""
    ensures r.1 == Ok <==>
      uid in s.users && MIN_WITHDRAW <= amount <= s.users[uid].mainBalance && details != ""
    ensures r.1 != Ok ==> r.0 == s
    ensures r.1 == Ok ==> WithdrawApplied(s, r.0, uid, amount, details, now)
    ensures r.1 == Ok ==> r.0.users[uid].mainBalance >= 0.0
    ensures Solvent(s) ==> Solvent(r.0)
  {
    if uid !in s.users then (s, Refused(NoProfile))
    else if amount < MIN_WITHDRAW then (s, Refused(BelowMinimum))
    else if amount > s.users[uid].mainBalance then (s, Refused(InsufficientBalance))
    else if details == "" then (s, Refused(MissingDetails))
    else
      var s1 := AddTransaction(s, WithdrawRecord(uid, amount, details, now));
      (s1.(users := s1.users[uid := Credit(s1.users[uid], MainBalance, -amount)]), Ok)
  }

  /** An accepted request lowers the requester's main balance by exactly
      the amount, leaves the other two balances and every other user as
      they were, and queues the amount as a pending record. */
  lemma WithdrawDebitsMainBalanceOnly(s: Store, uid: Uid, amount: Money, details: string, now: Millis)
    requires Valid(s) && RequestWithdraw(s, uid, amount, details, now).1 == Ok
    ensures var r := RequestWithdraw(s, uid, amount, details, now).0;
      && r.users[uid].mainBalance == s.users[uid].mainBalance - amount
      && r.users[uid].rechargeWallet == s.users[uid].rechargeWallet
      && r.users[uid].totalWithdraw == s.users[uid].totalWithdraw
      && r.transactions[s.nextTxId].status == Pending && r.transactions[s.nextTxId].amount == amount
      && (forall v :: v in s.users && v != uid ==> r.users[v] == s.users[v])
  {
    var r := RequestWithdraw(s, uid, amount, details, now).0;
    assert BalanceOf(r.users[uid], RechargeWallet) == BalanceOf(s.users[uid], RechargeWallet);
    assert BalanceOf(r.users[uid], TotalWithdraw) == BalanceOf(s.users[uid], TotalWithdraw);
  }
}
