// The ledger as one mutable object: the three collections and the id
// counters are fields, and each handler and page action is a method that
// updates them in place. Every method is proved to leave exactly the
// state, and report exactly the outcome, that the corresponding function
// of the handler's or page's module describes; the properties of those
// functions carry over.
module LedgerService {
  import opened Types
  import opened LedgerStore
  import opened Accrual
  import Server
  import WithdrawPage
  import RechargePage
  import ProductsPage
  import AdminPage
  import LoginPage

  class Ledger {
    var users: map<Uid, UserProfile>
    var transactions: map<DocId, Transaction>
    var investments: map<DocId, Investment>
    var nextTxId: DocId
    var nextInvId: DocId

    function State(): Store
      reads this
    {
      Store(users, transactions, investments, nextTxId, nextInvId)
    }

    ghost predicate Valid()
      reads this
    {
      LedgerStore.Valid(State())
    }

    constructor ()
      ensures Valid() && Solvent(State()) && State() == Empty
    {
      users := map[];
      transactions := map[];
      investments := map[];
      nextTxId := 0;
      nextInvId := 0;
    }

    /** The approval unit: approve `txId` and credit its owner's `field`
        by its amount; neither write happens if the owner is missing. */
    method Approve(txId: DocId, adminUid: Uid, field: Balance, now: Millis) returns (r: Outcome)
      requires Valid()
      modifies this
      ensures (State(), r) == Server.Approve(old(State()), txId, adminUid, field, now)
      ensures Valid()
    {
      if !(adminUid in users && users[adminUid].isAdmin) {
        return Unauthorized;
      }
      if !(txId in transactions && transactions[txId].status == Pending) {
        return InvalidTransaction;
      }
      var tx := transactions[txId];
      if tx.userId !in users {
        return StoreFailure;
      }
      transactions := transactions[txId := tx.(status := Approved, approvedAt := Some(now))];
      users := users[tx.userId := Credit(users[tx.userId], field, tx.amount)];
      r := Ok;
    }

    /** POST /api/admin/approve-recharge. */
    method ApproveRecharge(txId: DocId, adminUid: Uid, now: Millis) returns (r: Outcome)
      requires Valid()
      modifies this
      ensures (State(), r) == Server.Approve(old(State()), txId, adminUid, RechargeWallet, now)
      ensures Valid()
    {
      r := Approve(txId, adminUid, RechargeWallet, now);
    }

    /** POST /api/admin/approve-withdraw. */
    method ApproveWithdraw(txId: DocId, adminUid: Uid, now: Millis) returns (r: Outcome)
      requires Valid()
      modifies this
      ensures (State(), r) == Server.Approve(old(State()), txId, adminUid, TotalWithdraw, now)
      ensures Valid()
    {
      r := Approve(txId, adminUid, TotalWithdraw, now);
    }

    /** POST /api/sync-profits: build the batch, then commit it only if
        no write in it would fail. */
    method SyncProfits(now: Millis) returns (r: Outcome)
      requires Valid()
      modifies this
      ensures (State(), r) == Server.Sync(old(State()), now)
      ensures Valid()
    {
      var s0 := State();
      var us, txs, invs, nextTx, missing := BuildBatch(s0, now);
      Server.SyncCommits(s0, now);
      if missing {
        return StoreFailure;
      }
      users := us;
      transactions := txs;
      investments := invs;
      nextTxId := nextTx;
      r := Ok;
    }

    /** The withdraw page's submit. */
    method RequestWithdraw(uid: Uid, amount: Money, details: string, now: Millis) returns (r: Outcome)
      requires Valid()
      modifies this
      ensures (State(), r) == WithdrawPage.RequestWithdraw(old(State()), uid, amount, details, now)
      ensures Valid()
    {
      if uid !in users {
        return Refused(NoProfile);
      }
      if amount < WithdrawPage.MIN_WITHDRAW {
        return Refused(BelowMinimum);
      }
      if amount > users[uid].mainBalance {
        return Refused(InsufficientBalance);
      }
      if details == "" {
        return Refused(MissingDetails);
      }
      transactions := transactions[nextTxId := WithdrawPage.WithdrawRecord(uid, amount, details, now)];
      nextTxId := nextTxId + 1;
      users := users[uid := Credit(users[uid], MainBalance, -amount)];
      r := Ok;
    }

    /** The recharge page's submit. */
    method RequestRecharge(uid: Uid, amount: Money, now: Millis) returns (r: Outcome)
      requires Valid()
      modifies this
      ensures (State(), r) == RechargePage.RequestRecharge(old(State()), uid, amount, now)
      ensures Valid()
    {
      if amount < RechargePage.MIN_RECHARGE {
        return Refused(BelowMinimum);
      }
      if uid !in users {
        return StoreFailure;
      }
      transactions := transactions[nextTxId := RechargePage.RechargeRecord(uid, amount, now)];
      nextTxId := nextTxId + 1;
      r := Ok;
    }

    /** The plans page's buy action. */
    method BuyPlan(uid: Uid, productId: DocId, product: Product, confirmed: bool, now: Millis) returns (r: Outcome)
      requires Valid()
      modifies this
      ensures (State(), r) == ProductsPage.BuyPlan(old(State()), uid, productId, product, confirmed, now)
      ensures Valid()
    {
      if uid !in users {
        return Refused(NoProfile);
      }
      if users[uid].rechargeWallet < product.price {
        return Refused(InsufficientBalance);
      }
      if !confirmed {
        return Refused(Cancelled);
      }
      investments := investments[nextInvId := ProductsPage.NewInvestment(uid, productId, product, now)];
      nextInvId := nextInvId + 1;
      users := users[uid := Credit(users[uid], RechargeWallet, -product.price)];
      transactions := transactions[nextTxId := ProductsPage.PurchaseRecord(uid, product, now)];
      nextTxId := nextTxId + 1;
      r := Ok;
    }

    /** The admin panel's reject action. */
    method Reject(txId: DocId) returns (r: Outcome)
      requires Valid()
      modifies this
      ensures (State(), r) == AdminPage.Reject(old(State()), txId)
      ensures Valid()
    {
      if txId !in transactions {
        return StoreFailure;
      }
      transactions := transactions[txId := transactions[txId].(status := Rejected)];
      r := Ok;
    }

    /** The sign-in page's registration. */
    method Register(current: Option<Uid>, name: string, phone: string, referral: string, code: string, now: Millis)
      returns (r: Outcome)
      requires Valid()
      requires forall v :: v in users ==> users[v].referralCode != code
      modifies this
      ensures (State(), r) == LoginPage.Register(old(State()), current, name, phone, referral, code, now)
      ensures Valid()
    {
      if name == "" {
        return Refused(NameRequired);
      }
      if current.None? {
        return Refused(NotSignedIn);
      }
      if exists v :: v in users && users[v].phone == phone {
        return Refused(PhoneTaken);
      }
      users := users[current.value := LoginPage.NewUser(phone, name, referral, code, now)];
      r := Ok;
    }
  }

  /** The loop of the profit pass over the investments in id order. It
      reads the store `s0` as it was when the pass began and collects
      the writes in working copies, the batch. */
  method BuildBatch(s0: Store, now: Millis)
    returns (us: map<Uid, UserProfile>, txs: map<DocId, Transaction>, invs: map<DocId, Investment>,
             nextTx: DocId, missing: bool)
    requires LedgerStore.Valid(s0)
    ensures invs == Server.InvestmentsAfter(s0, now, s0.nextInvId)
    ensures us == Server.UsersAfter(s0, now, s0.nextInvId)
    ensures txs == Server.TransactionsAfter(s0, now, s0.nextInvId)
    ensures nextTx == s0.nextTxId + |Server.Commissions(s0, now, s0.nextInvId)|
    ensures missing == Server.MissingOwner(s0, now, s0.nextInvId)
  {
    us, txs, invs, nextTx, missing := s0.users, s0.transactions, s0.investments, s0.nextTxId, false;
    var k := 0;
    while k < s0.nextInvId
      invariant 0 <= k <= s0.nextInvId
      invariant Server.BatchAt(s0, now, k, us, txs, invs, nextTx, missing)
    {
      var us', txs', invs', nextTx', missing' := SyncOne(s0, now, k, us, txs, invs, nextTx, missing);
      Server.PassStep(s0, now, k, us, txs, invs, nextTx, missing, us', txs', invs', nextTx', missing');
      us, txs, invs, nextTx, missing := us', txs', invs', nextTx', missing';
      k := k + 1;
    }
  }

  /** One iteration of the profit pass, for the investment with id `k`:
      it reads the store `s0` as it was when the pass began and adds its
      writes to the batch held in the working copies. */
  method SyncOne(s0: Store, now: Millis, k: DocId,
                 us: map<Uid, UserProfile>, txs: map<DocId, Transaction>, invs: map<DocId, Investment>,
                 nextTx: DocId, missing: bool)
    returns (us': map<Uid, UserProfile>, txs': map<DocId, Transaction>, invs': map<DocId, Investment>,
             nextTx': DocId, missing': bool)
    requires UniqueCodes(s0.users) && us.Keys == s0.users.Keys
    ensures invs' == if k in s0.investments && Due(s0.investments[k], now)
                     then invs[k := Accrued(s0.investments[k], now)] else invs
    ensures us' == Server.CreditStep(s0, us, k, now)
    ensures txs' == if |Server.CommissionAt(s0, now, k)| == 1
                    then txs[nextTx := Server.CommissionAt(s0, now, k)[0]] else txs
    ensures nextTx' == nextTx + |Server.CommissionAt(s0, now, k)|
    ensures missing' == (missing || Server.Orphaned(s0, now, k))
  {
    us', txs', invs', nextTx', missing' := us, txs, invs, nextTx, missing;
    if k in s0.investments && s0.investments[k].status == Active {
      var inv := s0.investments[k];
      var days := ElapsedDays(inv.lastProfitClaim, now);
      if days >= 1 {
        assert Due(inv, now);
        var profit := Profit(inv.dailyProfit, days);
        assert profit == ProfitDue(inv, now);
        invs' := invs'[k := inv.(lastProfitClaim := now, totalEarned := inv.totalEarned + profit)];
        if inv.userId in us' {
          us' := us'[inv.userId := Credit(us'[inv.userId], MainBalance, profit)];
        } else {
          missing' := true;
        }
        if now >= inv.endDate {
          invs' := invs'[k := invs'[k].(status := Completed)];
        }
        var referrer := Server.Referrer(s0.users, inv.userId);
        if referrer.Some? {
          var commission := Commission(profit);
          us' := us'[referrer.value := Credit(us'[referrer.value], MainBalance, commission)];
          txs' := txs'[nextTx' := Server.ReferralRecord(referrer.value, commission, now, s0.users[inv.userId].phone)];
          nextTx' := nextTx' + 1;
          assert Server.CommissionAt(s0, now, k) ==
            [Server.ReferralRecord(referrer.value, commission, now, s0.users[inv.userId].phone)];
        } else {
          assert Server.CommissionAt(s0, now, k) == [];
        }
        assert us' == Server.CreditStep(s0, us, k, now);
      } else {
        assert !Due(inv, now);
      }
    }
  }
}
