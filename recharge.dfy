// The recharge page's submit handler (src/pages/Recharge.tsx): a request
// of at least 100 is recorded as a pending recharge transaction paid by
// UPI. No balance moves until an admin approves it.
module RechargePage {
  import opened Types
  import opened LedgerStore

  const MIN_RECHARGE: Money := 100.0

  /** The pending request record. */
  function RechargeRecord(uid: Uid, amount: Money, now: Millis): (t: Transaction)
    ensures t.userId == uid && t.txType == RechargeTx && t.status == Pending
    ensures t.amount == amount && t.paymentMethod == Some("UPI") && t.createdAt == now
    ensures t.approvedAt.None? && t.accountDetails.None? && t.fromUser.None? && t.productName.None?
  {
    NewTransaction(uid, RechargeTx, amount, Pending, now).(paymentMethod := Some("UPI"))
  }

  /** The submit handler for user `uid`, with the entered amount already
      parsed. The minimum is checked first; the page does not check for a
      profile, and without one the record's owner is undefined, which the
      store refuses to write. */
  function RequestRecharge(s: Store, uid: Uid, amount: Money, now: Millis): (r: (Store, Outcome))
    requires Valid(s)
    ensures Valid(r.0)
    ensures r.1 == Refused(BelowMinimum) <==> amount < MIN_RECHARGE
    ensures r.1 == StoreFailure <==> MIN_RECHARGE <= amount && uid !in s.users
    ensures r.1 == Ok <==> MIN_RECHARGE <= amount && uid in s.users
    ensures r.1 != Ok ==> r.0 == s
    ensures r.1 == Ok ==> r.0 == AddTransaction(s, RechargeRecord(uid, amount, now))
    ensures r.0.users == s.users && r.0.investments == s.investments
    ensures Solvent(s) ==> Solvent(r.0)
  {
    if amount < MIN_RECHARGE then (s, Refused(BelowMinimum))
    else if uid !in s.users then (s, StoreFailure)
    else (AddTransaction(s, RechargeRecord(uid, amount, now)), Ok)
  }
}
