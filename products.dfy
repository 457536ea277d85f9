// The plans page (src/pages/Products.tsx): the default catalogue that is
// seeded into an empty products collection, and the purchase of a plan,
// which opens an active investment paid from the recharge wallet.
module ProductsPage {
  import opened Types
  import opened LedgerStore
  import opened Accrual

  /** The three plans written into an empty catalogue, in this order. */
  function DefaultPlans(): (plans: seq<Product>)
    ensures |plans| == 3
    ensures forall i :: 0 <= i < |plans| ==>
      plans[i].totalReturn == plans[i].price + plans[i].dailyProfit * plans[i].duration as real
    ensures forall i :: 0 <= i < |plans| ==>
      plans[i].price > 0.0 && plans[i].duration > 0 && plans[i].dailyProfit > 0.0 && plans[i].category.None?
  {
    [ Product("EV Lite", 700.0, 2, 35.0, 770.0, "https://picsum.photos/seed/ev1/400/300", None),
      Product("EV Pro", 2000.0, 10, 120.0, 3200.0, "https://picsum.photos/seed/ev2/400/300", None),
      Product("EV Ultra", 5000.0, 30, 350.0, 15500.0, "https://picsum.photos/seed/ev3/400/300", None) ]
  }

  /** The products collection. */
  class Catalogue {
    var products: map<DocId, Product>
    var nextId: DocId

    ghost predicate Valid()
      reads this
    {
      forall k :: k in products ==> k < nextId
    }

    constructor ()
      ensures Valid() && products == map[] && nextId == 0
    {
      products := map[];
      nextId := 0;
    }

    /** One `addDoc` on the collection. */
    method Add(p: Product) returns (id: DocId)
      requires Valid()
      modifies this
      ensures Valid()
      ensures id == old(nextId) && id !in old(products)
      ensures products == old(products)[id := p] && nextId == old(nextId) + 1
    {
      id := nextId;
      products := products[id := p];
      nextId := nextId + 1;
    }

    /** The load step: an empty catalogue first receives the default plans,
        one document each, in order; a non-empty one is left alone. */
    method SeedIfEmpty()
      requires Valid()
      modifies this
      ensures Valid()
      ensures old(products) != map[] ==> products == old(products) && nextId == old(nextId)
      ensures old(products) == map[] ==>
        && nextId == old(nextId) + |DefaultPlans()|
        && (forall k :: k in products ==> old(nextId) <= k)
        && forall i :: old(nextId) <= i < nextId ==> i in products && products[i] == DefaultPlans()[i - old(nextId)]
    {
      if products != map[] {
        return;
      }
      var defaults := DefaultPlans();
      for j := 0 to |defaults|
        invariant Valid()
        invariant nextId == old(nextId) + j
        invariant forall k :: k in products ==> old(nextId) <= k
        invariant forall i :: old(nextId) <= i < nextId ==> i in products && products[i] == defaults[i - old(nextId)]
      {
        var _ := Add(defaults[j]);
      }
    }
  }

  /** The new investment record: the plan's price as principal, its daily
      profit, starting now and ending `duration` days from now. */
  function NewInvestment(uid: Uid, productId: DocId, product: Product, now: Millis): (inv: Investment)
    ensures inv.userId == uid && inv.productId == productId && inv.productName == product.name
    ensures inv.amount == product.price && inv.dailyProfit == product.dailyProfit
    ensures inv.startDate == now && inv.lastProfitClaim == now && inv.endDate == now + product.duration * DAY
    ensures inv.status == Active && inv.totalEarned == 0.0
  {
    Investment(uid, productId, product.name, product.price, product.dailyProfit,
               now, now + product.duration * DAY, Active, now, 0.0)
  }

  /** The approved record of the purchase. */
  function PurchaseRecord(uid: Uid, product: Product, now: Millis): (t: Transaction)
    ensures t.userId == uid && t.txType == InvestmentTx && t.status == Approved
    ensures t.amount == product.price && t.productName == Some(product.name) && t.createdAt == now
  {
    NewTransaction(uid, InvestmentTx, product.price, Approved, now).(productName := Some(product.name))
  }

  /** What an accepted purchase writes: one new active investment, the
      recharge wallet lowered by the price, one new approved record. */
  predicate PurchaseApplied(s: Store, r: Store, uid: Uid, productId: DocId, product: Product, now: Millis)
    requires uid in s.users
  {
    && r.investments == s.investments[s.nextInvId := NewInvestment(uid, productId, product, now)]
    && r.nextInvId == s.nextInvId + 1
    && r.users == s.users[uid := Credit(s.users[uid], RechargeWallet, -product.price)]
    && r.transactions == s.transactions[s.nextTxId := PurchaseRecord(uid, product, now)]
    && r.nextTxId == s.nextTxId + 1
  }

  /** The buy handler for user `uid` and the catalogue entry `productId`;
      `confirmed` is the user's answer to the confirmation prompt. */
  function BuyPlan(s: Store, uid: Uid, productId: DocId, product: Product, confirmed: bool, now: Millis): (r: (Store, Outcome))
    requires Valid(s)
    ensures Valid(r.0)
    ensures r.1 == Refused(NoProfile) <==> uid !in s.users
    ensures r.1 == Refused(InsufficientBalance) <==> uid in s.users && s.users[uid].rechargeWallet < product.price
    ensures r.1 == Refused(Cancelled) <==>
      uid in s.users && s.users[uid].rechargeWallet >= product.price && !confirmed
    ensures r.1 == Ok <==> uid in s.users && s.users[uid].rechargeWallet >= product.price && confirmed
    ensures r.1 != Ok ==> r.0 == s
    ensures r.1 == Ok ==> PurchaseApplied(s, r.0, uid, productId, product, now)
    ensures r.1 == Ok ==> r.0.users[uid].rechargeWallet >= 0.0
    ensures Solvent(s) && product.dailyProfit >= 0.0 ==> Solvent(r.0)
  {
    if uid !in s.users then (s, Refused(NoProfile))
    else if s.users[uid].rechargeWallet < product.price then (s, Refused(InsufficientBalance))
    else if !confirmed then (s, Refused(Cancelled))
    else
      var s1 := AddInvestment(s, NewInvestment(uid, productId, product, now));
      var s2 := s1.(users := s1.users[uid := Credit(s1.users[uid], RechargeWallet, -product.price)]);
      (AddTransaction(s2, PurchaseRecord(uid, product, now)), Ok)
  }

  /** A fresh investment earns nothing at once: it first becomes due one
      full day after the purchase. */
  lemma FirstProfitAfterOneDay(uid: Uid, productId: DocId, product: Product, now: Millis, later: Millis)
    ensures var inv := NewInvestment(uid, productId, product, now);
      Due(inv, later) <==> later - now >= DAY
  {
    AtLeastOneDay(now, later);
  }

  /** Held for its whole duration and claimed once at the end, a default
      plan pays its stated total return: principal plus profit, and it is
      completed. */
  lemma DefaultPlanPaysTotalReturn(i: nat, uid: Uid, productId: DocId, now: Millis)
    requires i < |DefaultPlans()|
    ensures var p := DefaultPlans()[i];
      var inv := NewInvestment(uid, productId, p, now);
      var done := now + p.duration * DAY;
      && Due(inv, done)
      && inv.amount + Accrued(inv, done).totalEarned == p.totalReturn
      && Accrued(inv, done).status == Completed
  {
    var p := DefaultPlans()[i];
    var inv := NewInvestment(uid, productId, p, now);
    var done := now + p.duration * DAY;
    assert ElapsedDays(now, done) == p.duration by {
      assert done - now == p.duration * DAY;
    }
  }
}
