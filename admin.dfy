// The admin panel (src/pages/Admin.tsx): the list of pending requests of
// the selected kind, the reject action, and how the approve and reject
// actions interact with the requests the pages create.
module AdminPage {
  import opened Types
  import opened LedgerStore
  import opened Server
  import opened WithdrawPage
  import opened RechargePage

  /** The reject action: an update of the status field alone. It checks
      neither that the transaction is still pending nor that the actor is
      an admin (the panel is shown only to admins, but the write itself is
      unguarded), and it moves no balance. Updating a transaction that
      does not exist fails. */
  function Reject(s: Store, txId: DocId): (r: (Store, Outcome))
    requires Valid(s)
    ensures Valid(r.0)
    ensures r.1 == Ok <==> txId in s.transactions
    ensures r.1 == StoreFailure <==> txId !in s.transactions
    ensures r.1 != Ok ==> r.0 == s
    ensures r.1 == Ok ==>
      && r.0.transactions == s.transactions[txId := s.transactions[txId].(status := Rejected)]
      && r.0.users == s.users && r.0.investments == s.investments
      && r.0.nextTxId == s.nextTxId && r.0.nextInvId == s.nextInvId
    ensures Solvent(s) ==> Solvent(r.0)
  {
    if txId !in s.transactions then (s, StoreFailure)
    else (s.(transactions := s.transactions[txId := s.transactions[txId].(status := Rejected)]), Ok)
  }

  /** The action list of the recharge or withdraw tab: the pending
      transactions of that kind. The newest-first ordering of the list is
      not modelled; the list is a set of ids. */
  function PendingOfType(txs: map<DocId, Transaction>, kind: TxType): set<DocId>
  {
    set t | t in txs && txs[t].txType == kind && txs[t].status == Pending
  }

  /** The panel fetches and offers actions only for an admin profile. */
  function ActionList(s: Store, viewer: Uid, kind: TxType): (list: Option<set<DocId>>)
    ensures list.Some? <==> IsAdmin(s.users, viewer)
    ensures list.Some? ==> forall t :: t in list.value <==> IsPending(s, t) && s.transactions[t].txType == kind
  {
    if IsAdmin(s.users, viewer) then Some(PendingOfType(s.transactions, kind)) else None
  }

  /** Everything on an admin's list can be approved by that admin, and the
      approval succeeds whenever the owner's document exists. */
  lemma ListedApprovalSucceeds(s: Store, viewer: Uid, kind: TxType, txId: DocId, field: Balance, now: Millis)
    requires Valid(s)
    requires var list := ActionList(s, viewer, kind); list.Some? && txId in list.value
    requires s.transactions[txId].userId in s.users
    ensures Approve(s, txId, viewer, field, now).1 == Ok
  {
  }

  /** Changing the status of `txId` away from pending takes it off every
      list and leaves the lists otherwise as they were. */
  lemma LeavesQueue(t0: map<DocId, Transaction>, txId: DocId, tx: Transaction, kind: TxType)
    requires txId in t0 && tx.status != Pending && tx.txType == t0[txId].txType
    ensures PendingOfType(t0[txId := tx], kind) == PendingOfType(t0, kind) - {txId}
  {
  }

  /** An approved transaction leaves the queue. */
  lemma ApprovedLeavesQueue(s: Store, txId: DocId, admin: Uid, field: Balance, now: Millis, kind: TxType)
    requires Valid(s) && Approve(s, txId, admin, field, now).1 == Ok
    ensures PendingOfType(Approve(s, txId, admin, field, now).0.transactions, kind)
         == PendingOfType(s.transactions, kind) - {txId}
  {
    var tx := s.transactions[txId];
    LeavesQueue(s.transactions, txId, tx.(status := Approved, approvedAt := Some(now)), kind);
  }

  /** A rejected transaction leaves the queue. */
  lemma RejectedLeavesQueue(s: Store, txId: DocId, kind: TxType)
    requires Valid(s) && Reject(s, txId).1 == Ok
    ensures PendingOfType(Reject(s, txId).0.transactions, kind) == PendingOfType(s.transactions, kind) - {txId}
  {
    LeavesQueue(s.transactions, txId, s.transactions[txId].(status := Rejected), kind);
  }

  /** Adding a fresh transaction puts it on the list of its kind, if it is
      pending, and on no other. */
  lemma JoinsQueue(t0: map<DocId, Transaction>, id: DocId, tx: Transaction, kind: TxType)
    requires id !in t0
    ensures PendingOfType(t0[id := tx], kind) ==
      if tx.txType == kind && tx.status == Pending then PendingOfType(t0, kind) + {id} else PendingOfType(t0, kind)
  {
  }

  /** An accepted withdraw request joins the withdraw list. */
  lemma WithdrawRequestJoinsQueue(s: Store, uid: Uid, amount: Money, details: string, now: Millis, kind: TxType)
    requires Valid(s) && RequestWithdraw(s, uid, amount, details, now).1 == Ok
    ensures PendingOfType(RequestWithdraw(s, uid, amount, details, now).0.transactions, kind) ==
      if kind == WithdrawTx then PendingOfType(s.transactions, kind) + {s.nextTxId} else PendingOfType(s.transactions, kind)
  {
    JoinsQueue(s.transactions, s.nextTxId, WithdrawRecord(uid, amount, details, now), kind);
  }

  /** An accepted recharge request joins the recharge list. */
  lemma RechargeRequestJoinsQueue(s: Store, uid: Uid, amount: Money, now: Millis, kind: TxType)
    requires Valid(s) && RequestRecharge(s, uid, amount, now).1 == Ok
    ensures PendingOfType(RequestRecharge(s, uid, amount, now).0.transactions, kind) ==
      if kind == RechargeTx then PendingOfType(s.transactions, kind) + {s.nextTxId} else PendingOfType(s.transactions, kind)
  {
    JoinsQueue(s.transactions, s.nextTxId, RechargeRecord(uid, amount, now), kind);
  }

  /** A withdraw that is requested and then approved through the
      withdraw handler moves the amount from the main balance to the
      withdrawn total: their sum is unchanged. */
  lemma WithdrawThenApprove(s: Store, uid: Uid, amount: Money, details: string, admin: Uid, t1: Millis, t2: Millis)
    requires Valid(s) && RequestWithdraw(s, uid, amount, details, t1).1 == Ok && IsAdmin(s.users, admin)
    ensures var s1 := RequestWithdraw(s, uid, amount, details, t1).0;
      var s2 := Approve(s1, s.nextTxId, admin, TotalWithdraw, t2);
      && s2.1 == Ok
      && s2.0.users[uid].mainBalance == s.users[uid].mainBalance - amount
      && s2.0.users[uid].totalWithdraw == s.users[uid].totalWithdraw + amount
      && s2.0.users[uid].rechargeWallet == s.users[uid].rechargeWallet
  {
    var s1 := RequestWithdraw(s, uid, amount, details, t1).0;
    assert s1.users[admin].isAdmin == s.users[admin].isAdmin;
    assert IsPending(s1, s.nextTxId);
    var s2 := Approve(s1, s.nextTxId, admin, TotalWithdraw, t2).0;
    assert BalanceOf(s2.users[uid], MainBalance) == BalanceOf(s1.users[uid], MainBalance);
    assert BalanceOf(s2.users[uid], RechargeWallet) == BalanceOf(s1.users[uid], RechargeWallet);
    assert BalanceOf(s1.users[uid], RechargeWallet) == BalanceOf(s.users[uid], RechargeWallet);
    assert BalanceOf(s1.users[uid], TotalWithdraw) == BalanceOf(s.users[uid], TotalWithdraw);
  }

  /** Rejecting a withdraw request does not give the amount back: the main
      balance stays lowered by it and the withdrawn total does not move. */
  lemma RejectedWithdrawIsNotRefunded(s: Store, uid: Uid, amount: Money, details: string, t1: Millis)
    requires Valid(s) && RequestWithdraw(s, uid, amount, details, t1).1 == Ok
    ensures var s1 := RequestWithdraw(s, uid, amount, details, t1).0;
      var s2 := Reject(s1, s.nextTxId);
      && s2.1 == Ok
      && s2.0.transactions[s.nextTxId].status == Rejected
      && s2.0.users[uid].mainBalance == s.users[uid].mainBalance - amount
      && s2.0.users[uid].totalWithdraw == s.users[uid].totalWithdraw
  {
    var s1 := RequestWithdraw(s, uid, amount, details, t1).0;
    assert BalanceOf(s1.users[uid], TotalWithdraw) == BalanceOf(s.users[uid], TotalWithdraw);
  }

  /** The approval handlers do not look at the transaction's kind: a
      pending withdraw request approved through the recharge handler
      credits the recharge wallet with the amount already taken off the
      main balance. */
  lemma WithdrawApprovedAsRecharge(s: Store, uid: Uid, amount: Money, details: string, admin: Uid, t1: Millis, t2: Millis)
    requires Valid(s) && RequestWithdraw(s, uid, amount, details, t1).1 == Ok && IsAdmin(s.users, admin)
    ensures var s1 := RequestWithdraw(s, uid, amount, details, t1).0;
      var s2 := Approve(s1, s.nextTxId, admin, RechargeWallet, t2);
      && s2.1 == Ok
      && s2.0.transactions[s.nextTxId].txType == WithdrawTx
      && s2.0.users[uid].rechargeWallet == s.users[uid].rechargeWallet + amount
      && s2.0.users[uid].mainBalance == s.users[uid].mainBalance - amount
  {
    var s1 := RequestWithdraw(s, uid, amount, details, t1).0;
    assert s1.users[admin].isAdmin == s.users[admin].isAdmin;
    assert IsPending(s1, s.nextTxId);
    var s2 := Approve(s1, s.nextTxId, admin, RechargeWallet, t2).0;
    assert BalanceOf(s2.users[uid], MainBalance) == BalanceOf(s1.users[uid], MainBalance);
    assert BalanceOf(s1.users[uid], RechargeWallet) == BalanceOf(s.users[uid], RechargeWallet);
  }

  /** Reject after an approval overwrites the status but keeps the credit
      the approval made. */
  lemma RejectAfterApproval(s: Store, txId: DocId, admin: Uid, field: Balance, now: Millis)
    requires Valid(s) && Approve(s, txId, admin, field, now).1 == Ok
    ensures var s1 := Approve(s, txId, admin, field, now).0;
      var s2 := Reject(s1, txId);
      && s2.1 == Ok
      && s2.0.transactions[txId].status == Rejected
      && s2.0.users == s1.users
  {
  }
}
