// The server handlers: admin approval of recharge and withdraw requests
// (server.ts lines 28-89) and the daily profit distribution pass
// (server.ts lines 94-159), as functions from the store before the call to
// the store after it and the outcome reported.
module Server {
  import opened Types
  import opened LedgerStore
  import opened Accrual

  // ---------------------------------------------------------------------
  // Admin approval
  // ---------------------------------------------------------------------

  predicate IsAdmin(users: map<Uid, UserProfile>, uid: Uid)
  {
    uid in users && users[uid].isAdmin
  }

  predicate IsPending(s: Store, txId: DocId)
  {
    txId in s.transactions && s.transactions[txId].status == Pending
  }

  /** What a successful approval writes: the transaction becomes approved
      at `now`, its owner's `field` rises by its amount, nothing else. */
  predicate ApprovalApplied(s: Store, r: Store, txId: DocId, field: Balance, now: Millis)
    requires IsPending(s, txId) && s.transactions[txId].userId in s.users
  {
    var tx := s.transactions[txId];
    && r.transactions == s.transactions[txId := tx.(status := Approved, approvedAt := Some(now))]
    && r.users == s.users[tx.userId := Credit(s.users[tx.userId], field, tx.amount)]
    && r.investments == s.investments
    && r.nextTxId == s.nextTxId && r.nextInvId == s.nextInvId
  }

  /** Both approval handlers: approve-recharge credits RechargeWallet,
      approve-withdraw credits TotalWithdraw. The handler checks that the
      actor is an admin and that the transaction is pending; it does not
      look at the transaction's type. The status write and the credit are
      one atomic unit, so an owner document that does not exist makes the
      unit fail and neither write persists.
      The pending check reads the transaction before the atomic unit
      opens; two concurrent approvals can both pass it. A sequential model
      cannot show that race. */
  function Approve(s: Store, txId: DocId, adminUid: Uid, field: Balance, now: Millis): (r: (Store, Outcome))
    requires Valid(s)
    ensures Valid(r.0)
    ensures r.1 == Unauthorized <==> !IsAdmin(s.users, adminUid)
    ensures r.1 == InvalidTransaction <==> IsAdmin(s.users, adminUid) && !IsPending(s, txId)
    ensures r.1 == Ok <==>
      IsAdmin(s.users, adminUid) && IsPending(s, txId) && s.transactions[txId].userId in s.users
    ensures r.1 in {Ok, Unauthorized, InvalidTransaction, StoreFailure}
    ensures r.1 != Ok ==> r.0 == s
    ensures r.1 == Ok ==> ApprovalApplied(s, r.0, txId, field, now)
    ensures Solvent(s) ==> Solvent(r.0)
  {
    if !IsAdmin(s.users, adminUid) then (s, Unauthorized)
    else if !IsPending(s, txId) then (s, InvalidTransaction)
    else
      var tx := s.transactions[txId];
      if tx.userId !in s.users then (s, StoreFailure)
      else
        var s1 := s.(transactions := s.transactions[txId := tx.(status := Approved, approvedAt := Some(now))]);
        (s1.(users := s1.users[tx.userId := Credit(s1.users[tx.userId], field, tx.amount)]), Ok)
  }

  /** Approving the same transaction twice credits it once: after a
      successful approval the second call, by any admin and through
      either handler, reports InvalidTransaction and changes nothing. */
  lemma ApproveTwiceCreditsOnce(s: Store, txId: DocId, a1: Uid, f1: Balance, t1: Millis,
                                a2: Uid, f2: Balance, t2: Millis)
    requires Valid(s) && Approve(s, txId, a1, f1, t1).1 == Ok
    requires IsAdmin(s.users, a2)
    ensures var s1 := Approve(s, txId, a1, f1, t1).0;
      Approve(s1, txId, a2, f2, t2) == (s1, InvalidTransaction)
  {
    var s1 := Approve(s, txId, a1, f1, t1).0;
    var owner := s.transactions[txId].userId;
    assert s1.users[owner].isAdmin == s.users[owner].isAdmin;
    assert IsAdmin(s1.users, a2);
  }

  /** The worked scenario: a pending recharge of 500 approved by an admin
      puts 500 into the owner's recharge wallet; a repeated call is refused
      and the wallet stays where it is. */
  lemma RechargeOfFiveHundred(s: Store, txId: DocId, admin: Uid, now: Millis, later: Millis)
    requires Valid(s) && IsAdmin(s.users, admin) && IsPending(s, txId)
    requires s.transactions[txId].amount == 500.0 && s.transactions[txId].txType == RechargeTx
    requires s.transactions[txId].userId in s.users
    ensures var s1 := Approve(s, txId, admin, RechargeWallet, now);
      var owner := s.transactions[txId].userId;
      && s1.1 == Ok
      && s1.0.transactions[txId].status == Approved
      && s1.0.users[owner].rechargeWallet == s.users[owner].rechargeWallet + 500.0
      && Approve(s1.0, txId, admin, RechargeWallet, later) == (s1.0, InvalidTransaction)
  {
    ApproveTwiceCreditsOnce(s, txId, admin, RechargeWallet, now, admin, RechargeWallet, later);
  }

  // ---------------------------------------------------------------------
  // Referral lookup
  // ---------------------------------------------------------------------

  /** The user whose referral code the owner entered at registration, if
      the owner entered one (an empty code counts as none) and some user
      holds it. The lookup is by value, not by reference. */
  function Referrer(users: map<Uid, UserProfile>, owner: Uid): (r: Option<Uid>)
    requires UniqueCodes(users)
    ensures r.Some? <==>
      && owner in users && users[owner].referredBy.Some? && users[owner].referredBy.value != ""
      && exists v :: v in users && users[v].referralCode == users[owner].referredBy.value
    ensures r.Some? ==> r.value in users && users[r.value].referralCode == users[owner].referredBy.value
  {
    if owner in users && users[owner].referredBy.Some? && users[owner].referredBy.value != ""
       && exists v :: v in users && users[v].referralCode == users[owner].referredBy.value
    then
      var code := users[owner].referredBy.value;
      var v :| v in users && users[v].referralCode == code;
      Some(v)
    else None
  }

  /** The commission record: approved at once, owned by the referrer,
      naming the referred user's phone. */
  function ReferralRecord(referrer: Uid, commission: Money, now: Millis, fromPhone: string): (t: Transaction)
    ensures t.txType == ReferralTx && t.status == Approved && t.userId == referrer
    ensures t.amount == commission && t.fromUser == Some(fromPhone) && t.createdAt == now
  {
    NewTransaction(referrer, ReferralTx, commission, Approved, now).(fromUser := Some(fromPhone))
  }

  // ---------------------------------------------------------------------
  // The profit distribution pass
  // ---------------------------------------------------------------------

  /** A due investment whose owner document does not exist: the batch's
      update of that user fails when the batch commits. */
  predicate Orphaned(s0: Store, now: Millis, k: DocId)
  {
    k in s0.investments && Due(s0.investments[k], now) && s0.investments[k].userId !in s0.users
  }

  // The pass walks the active investments in id order. Every read (the
  // investment, the owner's referral code and phone, the referrer lookup)
  // sees the store as it was before the pass, `s0`; every write goes into
  // the one batch. The functions below give, for each part of the store,
  // what the batch holds after the iterations over ids 0 .. n-1.

  /** Investments after iterations 0 .. n-1: each due one is accrued. */
  function InvestmentsAfter(s0: Store, now: Millis, n: nat): (m: map<DocId, Investment>)
    decreases n
  {
    if n == 0 then s0.investments
    else
      var m := InvestmentsAfter(s0, now, n - 1);
      var k := n - 1;
      if k in s0.investments && Due(s0.investments[k], now) then m[k := Accrued(s0.investments[k], now)] else m
  }

  /** The balance increments iteration `k` adds to the users `m`: the
      profit to the owner's main balance and, when the owner was referred
      by an existing user, the commission to the referrer's. */
  function CreditStep(s0: Store, m: map<Uid, UserProfile>, k: DocId, now: Millis): (r: map<Uid, UserProfile>)
    requires UniqueCodes(s0.users) && m.Keys == s0.users.Keys
    ensures r.Keys == s0.users.Keys
  {
    if k in s0.investments && Due(s0.investments[k], now) && s0.investments[k].userId in s0.users then
      var inv := s0.investments[k];
      var profit := ProfitDue(inv, now);
      var m1 := m[inv.userId := Credit(m[inv.userId], MainBalance, profit)];
      match Referrer(s0.users, inv.userId)
      case None => m1
      case Some(ref) => m1[ref := Credit(m1[ref], MainBalance, Commission(profit))]
    else m
  }

  /** Users after iterations 0 .. n-1. */
  function UsersAfter(s0: Store, now: Millis, n: nat): (m: map<Uid, UserProfile>)
    requires UniqueCodes(s0.users)
    ensures m.Keys == s0.users.Keys
    decreases n
  {
    if n == 0 then s0.users else CreditStep(s0, UsersAfter(s0, now, n - 1), n - 1, now)
  }

  /** The commission record investment `k` adds, if any. */
  function CommissionAt(s0: Store, now: Millis, k: DocId): (c: seq<Transaction>)
    requires UniqueCodes(s0.users)
    ensures |c| <= 1
    ensures |c| == 1 <==>
      k in s0.investments && Due(s0.investments[k], now) && Referrer(s0.users, s0.investments[k].userId).Some?
    ensures |c| == 1 ==>
      c[0].txType == ReferralTx && c[0].status == Approved && c[0].fromUser.Some?
      && c[0].userId in s0.users && c[0].createdAt == now
    ensures |c| == 1 ==>
      var inv := s0.investments[k];
      && 20.0 * c[0].amount == ProfitDue(inv, now)
      && Some(c[0].userId) == Referrer(s0.users, inv.userId)
      && c[0].fromUser == Some(s0.users[inv.userId].phone)
  {
    if k in s0.investments && Due(s0.investments[k], now) && Referrer(s0.users, s0.investments[k].userId).Some? then
      var inv := s0.investments[k];
      [ReferralRecord(Referrer(s0.users, inv.userId).value, Commission(ProfitDue(inv, now)), now,
                      s0.users[inv.userId].phone)]
    else []
  }

  /** The commission records iterations 0 .. n-1 add, in order. */
  function Commissions(s0: Store, now: Millis, n: nat): (c: seq<Transaction>)
    requires UniqueCodes(s0.users)
    ensures |c| <= n
    decreases n
  {
    if n == 0 then [] else Commissions(s0, now, n - 1) + CommissionAt(s0, now, n - 1)
  }

  /** A referral commission record of this pass. */
  predicate IsCommission(s0: Store, now: Millis, t: Transaction)
  {
    t.txType == ReferralTx && t.status == Approved && t.fromUser.Some? && t.userId in s0.users && t.createdAt == now
  }

  /** Every record the pass adds is an approved referral commission,
      owned by an existing user and naming the referred user. */
  lemma {:induction false} CommissionsAreReferrals(s0: Store, now: Millis, n: nat)
    requires UniqueCodes(s0.users)
    ensures forall i :: 0 <= i < |Commissions(s0, now, n)| ==> IsCommission(s0, now, Commissions(s0, now, n)[i])
  {
    if n > 0 {
      CommissionsAreReferrals(s0, now, n - 1);
      var c0 := Commissions(s0, now, n - 1);
      var more := CommissionAt(s0, now, n - 1);
      var c := Commissions(s0, now, n);
      assert c == c0 + more;
      forall i | 0 <= i < |c|
        ensures IsCommission(s0, now, c[i])
      {
        if i < |c0| {
          assert c[i] == c0[i];
        } else {
          assert c[i] == more[0];
        }
      }
    }
  }

  /** Transactions after iterations 0 .. n-1: each commission record takes
      the next free id. */
  function TransactionsAfter(s0: Store, now: Millis, n: nat): map<DocId, Transaction>
    requires UniqueCodes(s0.users)
    decreases n
  {
    if n == 0 then s0.transactions
    else
      var m := TransactionsAfter(s0, now, n - 1);
      var more := CommissionAt(s0, now, n - 1);
      if |more| == 1 then m[s0.nextTxId + |Commissions(s0, now, n - 1)| := more[0]] else m
  }

  /** Whether iterations 0 .. n-1 put an update of a missing user into the
      batch. */
  function MissingOwner(s0: Store, now: Millis, n: nat): bool
    decreases n
  {
    n > 0 && (MissingOwner(s0, now, n - 1) || Orphaned(s0, now, n - 1))
  }

  /** The working copies `us`, `txs`, `invs`, the next free transaction
      id `nextTx` and the failure flag `missing` hold the batch after
      iterations 0 .. k-1. */
  predicate BatchAt(s0: Store, now: Millis, k: nat, us: map<Uid, UserProfile>, txs: map<DocId, Transaction>,
                    invs: map<DocId, Investment>, nextTx: DocId, missing: bool)
    requires UniqueCodes(s0.users)
  {
    && invs == InvestmentsAfter(s0, now, k)
    && us == UsersAfter(s0, now, k)
    && txs == TransactionsAfter(s0, now, k)
    && nextTx == s0.nextTxId + |Commissions(s0, now, k)|
    && missing == MissingOwner(s0, now, k)
  }

  /** Iteration `k` of the pass, done on the working copies, moves the
      batch from iterations 0 .. k-1 to iterations 0 .. k. */
  lemma PassStep(s0: Store, now: Millis, k: nat, us: map<Uid, UserProfile>, txs: map<DocId, Transaction>,
                 invs: map<DocId, Investment>, nextTx: DocId, missing: bool,
                 us': map<Uid, UserProfile>, txs': map<DocId, Transaction>,
                 invs': map<DocId, Investment>, nextTx': DocId, missing': bool)
    requires UniqueCodes(s0.users) && BatchAt(s0, now, k, us, txs, invs, nextTx, missing)
    requires invs' == if k in s0.investments && Due(s0.investments[k], now)
                      then invs[k := Accrued(s0.investments[k], now)] else invs
    requires us' == CreditStep(s0, us, k, now)
    requires txs' == if |CommissionAt(s0, now, k)| == 1 then txs[nextTx := CommissionAt(s0, now, k)[0]] else txs
    requires nextTx' == nextTx + |CommissionAt(s0, now, k)|
    requires missing' == (missing || Orphaned(s0, now, k))
    ensures BatchAt(s0, now, k + 1, us', txs', invs', nextTx', missing')
  {
    assert InvestmentsAfter(s0, now, k + 1) == invs';
    assert UsersAfter(s0, now, k + 1) == us';
    CommissionsStep(s0, now, k);
    assert TransactionsAfter(s0, now, k + 1) == txs';
  }

  lemma CommissionsStep(s0: Store, now: Millis, k: nat)
    requires UniqueCodes(s0.users)
    ensures Commissions(s0, now, k + 1) == Commissions(s0, now, k) + CommissionAt(s0, now, k)
    ensures |Commissions(s0, now, k + 1)| == |Commissions(s0, now, k)| + |CommissionAt(s0, now, k)|
  {
  }

  /** The store as the whole batch would leave it. */
  function Batch(s0: Store, now: Millis): Store
    requires UniqueCodes(s0.users)
  {
    var n := s0.nextInvId;
    Store(UsersAfter(s0, now, n), TransactionsAfter(s0, now, n), InvestmentsAfter(s0, now, n),
          s0.nextTxId + |Commissions(s0, now, n)|, s0.nextInvId)
  }

  /** The sync-profits handler: the whole pass is one batch, committed
      once. If any write in it fails, nothing is written. */
  function Sync(s0: Store, now: Millis): (r: (Store, Outcome))
    requires Valid(s0)
    ensures Valid(r.0)
    ensures r.1 == Ok || r.1 == StoreFailure
    ensures r.1 == StoreFailure <==> exists k :: Orphaned(s0, now, k)
    ensures r.1 == StoreFailure ==> r.0 == s0
    ensures r.1 == Ok ==> SyncApplied(s0, r.0, now)
    ensures Solvent(s0) ==> Solvent(r.0)
  {
    var n := s0.nextInvId;
    MissingOwnerIffOrphan(s0, now, n);
    assert (exists k :: Orphaned(s0, now, k)) ==> exists k :: 0 <= k < n && Orphaned(s0, now, k);
    if MissingOwner(s0, now, n) then (s0, StoreFailure)
    else
      var s1 := Batch(s0, now);
      InvestmentsSettled(s0, now, n);
      UsersEarned(s0, now, n);
      TransactionsAppended(s0, now, n);
      SyncValid(s0, s1, now);
      SyncSolvent(s0, s1, now);
      (s1, Ok)
  }

  /** The pass commits exactly when no owner is missing. */
  lemma SyncCommits(s0: Store, now: Millis)
    requires Valid(s0)
    ensures MissingOwner(s0, now, s0.nextInvId) ==> Sync(s0, now) == (s0, StoreFailure)
    ensures !MissingOwner(s0, now, s0.nextInvId) ==> Sync(s0, now) == (Batch(s0, now), Ok)
  {
  }

  /** What user `u` receives from investment `k`: its profit if `u` owns
      it, and the commission on that profit if `u` referred its owner. */
  function Gain(s0: Store, now: Millis, u: Uid, k: DocId): Money
    requires UniqueCodes(s0.users)
  {
    if k in s0.investments && Due(s0.investments[k], now) && s0.investments[k].userId in s0.users then
      var inv := s0.investments[k];
      var profit := ProfitDue(inv, now);
      (if inv.userId == u then profit else 0.0)
      + (if Referrer(s0.users, inv.userId) == Some(u) then Commission(profit) else 0.0)
    else 0.0
  }

  /** Total credited to `u`'s main balance by investments 0 .. n-1. */
  function Earned(s0: Store, now: Millis, u: Uid, n: nat): Money
    requires UniqueCodes(s0.users)
  {
    if n == 0 then 0.0 else Earned(s0, now, u, n - 1) + Gain(s0, now, u, n - 1)
  }

  /** `t1` holds every transaction of `t0` unchanged, followed by the
      records `c` at the ids from `n0` on, and nothing else. */
  predicate Appended(t0: map<DocId, Transaction>, n0: DocId, t1: map<DocId, Transaction>, n1: DocId, c: seq<Transaction>)
  {
    && n1 == n0 + |c|
    && (forall t :: t in t0 ==> t in t1 && t1[t] == t0[t])
    && (forall t :: t in t1 ==> t in t0 || n0 <= t < n1)
    && (forall t :: n0 <= t < n1 ==> t in t1 && t1[t] == c[t - n0])
  }

  /** What a pass that commits writes: every investment is settled, every
      user's main balance rises by what that user earned and nothing else
      of any user changes, and the only new transactions are the
      commission records, appended after all existing ones. */
  predicate SyncApplied(s0: Store, s1: Store, now: Millis)
    requires UniqueCodes(s0.users)
  {
    var n := s0.nextInvId;
    && s1.investments.Keys == s0.investments.Keys
    && (forall k :: k in s0.investments ==> s1.investments[k] == Settle(s0.investments[k], now))
    && s1.users.Keys == s0.users.Keys
    && (forall u :: u in s0.users ==> s1.users[u] == Credit(s0.users[u], MainBalance, Earned(s0, now, u, n)))
    && s1.nextInvId == s0.nextInvId
    && Appended(s0.transactions, s0.nextTxId, s1.transactions, s1.nextTxId, Commissions(s0, now, n))
  }

  lemma {:induction false} InvestmentsSettled(s0: Store, now: Millis, n: nat)
    ensures InvestmentsAfter(s0, now, n).Keys == s0.investments.Keys
    ensures forall k :: k in s0.investments ==>
      InvestmentsAfter(s0, now, n)[k] == if k < n then Settle(s0.investments[k], now) else s0.investments[k]
  {
    if n > 0 {
      InvestmentsSettled(s0, now, n - 1);
    }
  }

  /** One iteration credits each user by exactly that user's gain. */
  lemma StepUsers(s0: Store, m: map<Uid, UserProfile>, k: DocId, now: Millis, u: Uid)
    requires UniqueCodes(s0.users) && m.Keys == s0.users.Keys && u in s0.users
    ensures CreditStep(s0, m, k, now)[u] == Credit(m[u], MainBalance, Gain(s0, now, u, k))
  {
    if k in s0.investments && Due(s0.investments[k], now) && s0.investments[k].userId in s0.users {
      var inv := s0.investments[k];
      var profit := ProfitDue(inv, now);
      var own := if inv.userId == u then profit else 0.0;
      var m1 := m[inv.userId := Credit(m[inv.userId], MainBalance, profit)];
      assert m1[u] == Credit(m[u], MainBalance, own);
      match Referrer(s0.users, inv.userId)
      case None =>
      case Some(ref) =>
        CreditTwice(m[u], MainBalance, own, if ref == u then Commission(profit) else 0.0);
    }
  }

  lemma {:induction false} UsersEarned(s0: Store, now: Millis, n: nat)
    requires UniqueCodes(s0.users)
    ensures forall u :: u in s0.users ==>
      UsersAfter(s0, now, n)[u] == Credit(s0.users[u], MainBalance, Earned(s0, now, u, n))
  {
    forall u | u in s0.users
      ensures UsersAfter(s0, now, n)[u] == Credit(s0.users[u], MainBalance, Earned(s0, now, u, n))
    {
      UserEarned(s0, now, n, u);
    }
  }

  lemma {:induction false} UserEarned(s0: Store, now: Millis, n: nat, u: Uid)
    requires UniqueCodes(s0.users) && u in s0.users
    ensures UsersAfter(s0, now, n)[u] == Credit(s0.users[u], MainBalance, Earned(s0, now, u, n))
  {
    if n > 0 {
      UserEarned(s0, now, n - 1, u);
      var m := UsersAfter(s0, now, n - 1);
      assert UsersAfter(s0, now, n) == CreditStep(s0, m, n - 1, now);
      StepUsers(s0, m, n - 1, now, u);
      CreditTwice(s0.users[u], MainBalance, Earned(s0, now, u, n - 1), Gain(s0, now, u, n - 1));
    }
  }

  lemma {:induction false} TransactionsAppended(s0: Store, now: Millis, n: nat)
    requires Valid(s0)
    ensures Appended(s0.transactions, s0.nextTxId, TransactionsAfter(s0, now, n),
                     s0.nextTxId + |Commissions(s0, now, n)|, Commissions(s0, now, n))
  {
    if n > 0 {
      TransactionsAppended(s0, now, n - 1);
      AppendOne(s0.transactions, s0.nextTxId, TransactionsAfter(s0, now, n - 1), TransactionsAfter(s0, now, n),
                Commissions(s0, now, n - 1), CommissionAt(s0, now, n - 1));
    }
  }

  /** Appending at most one more record keeps the layout. */
  lemma AppendOne(t0: map<DocId, Transaction>, n0: DocId, prev: map<DocId, Transaction>, t1: map<DocId, Transaction>,
                  c0: seq<Transaction>, more: seq<Transaction>)
    requires forall t :: t in t0 ==> t < n0
    requires Appended(t0, n0, prev, n0 + |c0|, c0) && |more| <= 1
    requires t1 == if |more| == 1 then prev[n0 + |c0| := more[0]] else prev
    ensures Appended(t0, n0, t1, n0 + |c0 + more|, c0 + more)
  {
    var c := c0 + more;
    forall t | n0 <= t < n0 + |c|
      ensures t in t1 && t1[t] == c[t - n0]
    {
      if t < n0 + |c0| {
        assert c[t - n0] == c0[t - n0];
      } else {
        assert c[t - n0] == more[0];
      }
    }
  }

  lemma {:induction false} MissingOwnerIffOrphan(s0: Store, now: Millis, n: nat)
    ensures MissingOwner(s0, now, n) <==> exists k :: 0 <= k < n && Orphaned(s0, now, k)
  {
    if n > 0 {
      MissingOwnerIffOrphan(s0, now, n - 1);
      if !Orphaned(s0, now, n - 1) {
        assert forall k :: 0 <= k < n && Orphaned(s0, now, k) ==> k < n - 1;
      }
    }
  }

  lemma {:induction false} EarnedNonNegative(s0: Store, now: Millis, u: Uid, n: nat)
    requires UniqueCodes(s0.users) && Solvent(s0)
    ensures Earned(s0, now, u, n) >= 0.0
  {
    if n > 0 {
      EarnedNonNegative(s0, now, u, n - 1);
    }
  }

  lemma SyncValid(s0: Store, s1: Store, now: Millis)
    requires Valid(s0) && SyncApplied(s0, s1, now)
    ensures Valid(s1)
  {
    forall u, v | u in s1.users && v in s1.users && s1.users[u].referralCode == s1.users[v].referralCode
      ensures u == v
    {
      assert s0.users[u].referralCode == s1.users[u].referralCode;
      assert s0.users[v].referralCode == s1.users[v].referralCode;
    }
  }

  lemma SyncSolvent(s0: Store, s1: Store, now: Millis)
    requires Valid(s0) && SyncApplied(s0, s1, now)
    ensures forall t :: t in s1.transactions && t !in s0.transactions ==> s1.transactions[t].status == Approved
    ensures Solvent(s0) ==> forall u :: u in s0.users ==> s1.users[u].mainBalance >= s0.users[u].mainBalance
    ensures Solvent(s0) ==> Solvent(s1)
  {
    var c := Commissions(s0, now, s0.nextInvId);
    CommissionsAreReferrals(s0, now, s0.nextInvId);
    forall t | t in s1.transactions && t !in s0.transactions
      ensures s1.transactions[t].status == Approved
    {
      var i := t - s0.nextTxId;
      assert 0 <= i < |c|;
      assert s1.transactions[t] == c[i];
      assert IsCommission(s0, now, c[i]);
    }
    if Solvent(s0) {
      forall u | u in s1.users
        ensures s1.users[u].mainBalance >= s0.users[u].mainBalance >= 0.0
      {
        EarnedNonNegative(s0, now, u, s0.nextInvId);
        assert BalanceOf(s1.users[u], MainBalance) == BalanceOf(s0.users[u], MainBalance) + Earned(s0, now, u, s0.nextInvId);
      }
    }
  }

  /** A pass in which nothing is due writes nothing. */
  lemma {:induction false} QuietPass(s: Store, now: Millis, n: nat)
    requires UniqueCodes(s.users)
    requires forall k :: k in s.investments ==> !Due(s.investments[k], now)
    ensures InvestmentsAfter(s, now, n) == s.investments && UsersAfter(s, now, n) == s.users
    ensures Commissions(s, now, n) == [] && TransactionsAfter(s, now, n) == s.transactions
    ensures !MissingOwner(s, now, n)
  {
    if n > 0 {
      QuietPass(s, now, n - 1);
    }
  }

  /** Running the pass again at the same moment changes nothing. */
  lemma SyncTwice(s0: Store, now: Millis)
    requires Valid(s0)
    ensures Sync(Sync(s0, now).0, now) == Sync(s0, now)
  {
    var r := Sync(s0, now);
    if r.1 == Ok {
      var s1 := r.0;
      forall k | k in s1.investments
        ensures !Due(s1.investments[k], now)
      {
        assert s1.investments[k] == Settle(s0.investments[k], now);
      }
      QuietPass(s1, now, s1.nextInvId);
      assert Batch(s1, now) == s1;
    }
  }

  /** At most one credit per investment per elapsed-day window: once a
      committed pass has credited an investment at t1, a later pass at any
      t2 less than a day after t1 finds it not due and leaves it as it is. */
  lemma SyncSameWindow(s0: Store, t1: Millis, t2: Millis, k: DocId)
    requires Valid(s0) && t1 <= t2 < t1 + DAY
    requires k in s0.investments && Due(s0.investments[k], t1) && Sync(s0, t1).1 == Ok
    ensures var s1 := Sync(s0, t1).0;
      && k in s1.investments
      && s1.investments[k].lastProfitClaim == t1
      && !Due(s1.investments[k], t2)
      && Sync(s1, t2).0.investments[k] == s1.investments[k]
  {
    var s1 := Sync(s0, t1).0;
    assert s1.investments[k] == Settle(s0.investments[k], t1);
    assert s1.investments[k].lastProfitClaim == t1;
    assert ElapsedDays(t1, t2) == 0;
    assert Sync(s1, t2).0.investments[k] == Settle(s1.investments[k], t2);
  }

  /** A completed investment is never credited again and stays completed. */
  lemma CompletedIsTerminal(s0: Store, now: Millis, k: DocId)
    requires Valid(s0) && k in s0.investments && s0.investments[k].status == Completed
    ensures Sync(s0, now).0.investments[k] == s0.investments[k]
  {
  }

  /** A credited investment whose owner was referred by an existing user
      adds exactly one approved commission record, of 5% of the profit, to
      the referrer. */
  lemma OneInvestmentWithReferrer(s0: Store, now: Millis, k: DocId)
    requires Valid(s0) && s0.investments.Keys == {k} && Due(s0.investments[k], now)
    requires Referrer(s0.users, s0.investments[k].userId).Some?
    ensures var r := Sync(s0, now);
      var inv := s0.investments[k];
      var ref := Referrer(s0.users, inv.userId).value;
      && r.1 == Ok
      && r.0.nextTxId == s0.nextTxId + 1
      && s0.nextTxId in r.0.transactions
      && r.0.transactions[s0.nextTxId] == ReferralRecord(ref, Commission(ProfitDue(inv, now)), now, s0.users[inv.userId].phone)
  {
    assert k < s0.nextInvId;
    assert forall j :: Orphaned(s0, now, j) ==> j == k;
    assert !Orphaned(s0, now, k);
    CommissionsOnly(s0, now, k, s0.nextInvId);
  }

  /** In a store with any number of investments, a due investment `k`
      whose owner was referred by an existing user has its commission
      record in the committed batch, at the id after the records of the
      investments before it: 5% of its profit, owned by the referrer,
      naming the owner's phone. */
  lemma CommissionRecordOf(s0: Store, now: Millis, k: DocId)
    requires Valid(s0) && k in s0.investments && Due(s0.investments[k], now)
    requires Referrer(s0.users, s0.investments[k].userId).Some?
    ensures var r := Sync(s0, now);
      var inv := s0.investments[k];
      var id := s0.nextTxId + |Commissions(s0, now, k)|;
      r.1 == Ok ==>
        && id in r.0.transactions
        && r.0.transactions[id] ==
             ReferralRecord(Referrer(s0.users, inv.userId).value, Commission(ProfitDue(inv, now)), now,
                            s0.users[inv.userId].phone)
  {
    var r := Sync(s0, now);
    if r.1 == Ok {
      var n := s0.nextInvId;
      assert k < n;
      CommissionsPrefix(s0, now, k + 1, n);
      var c := Commissions(s0, now, n);
      var ck := Commissions(s0, now, k);
      var id := s0.nextTxId + |ck|;
      assert Commissions(s0, now, k + 1) == ck + CommissionAt(s0, now, k);
      assert c[|ck|] == Commissions(s0, now, k + 1)[|ck|] == CommissionAt(s0, now, k)[0];
      assert r.0.transactions[id] == c[id - s0.nextTxId];
    }
  }

  /** The records of the first k iterations are the first records of the
      whole pass. */
  lemma {:induction false} CommissionsPrefix(s0: Store, now: Millis, k: nat, n: nat)
    requires UniqueCodes(s0.users) && k <= n
    ensures Commissions(s0, now, k) <= Commissions(s0, now, n)
  {
    if k < n {
      CommissionsPrefix(s0, now, k, n - 1);
    }
  }

  /** With a single investment, the commission list is that investment's
      record. */
  lemma {:induction false} CommissionsOnly(s0: Store, now: Millis, k: DocId, n: nat)
    requires UniqueCodes(s0.users) && s0.investments.Keys == {k} && k < n
    requires Due(s0.investments[k], now) && Referrer(s0.users, s0.investments[k].userId).Some?
    ensures var inv := s0.investments[k];
      Commissions(s0, now, n) ==
        [ReferralRecord(Referrer(s0.users, inv.userId).value, Commission(ProfitDue(inv, now)), now, s0.users[inv.userId].phone)]
  {
    if n - 1 > k {
      CommissionsOnly(s0, now, k, n - 1);
    } else {
      NoCommissionsBelow(s0, now, k);
    }
  }

  lemma {:induction false} NoCommissionsBelow(s0: Store, now: Millis, n: nat)
    requires UniqueCodes(s0.users) && forall j :: j in s0.investments ==> j >= n
    ensures Commissions(s0, now, n) == []
  {
    if n > 0 {
      NoCommissionsBelow(s0, now, n - 1);
    }
  }
}
