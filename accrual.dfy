// The arithmetic of the daily profit accrual: elapsed whole days, the
// profit they earn, the referral commission on it, and the update of one
// investment record.
module Accrual {
  import opened Types

  /** One day in milliseconds: 1000 * 60 * 60 * 24. */
  const DAY: int := 86400000

  /** The referrer's share of a referred user's newly accrued profit. */
  const COMMISSION_RATE: real := 0.05

  /** Whole days since the last claim, rounded down (negative when the last
      claim lies in the future). */
  function ElapsedDays(lastClaim: Millis, now: Millis): (days: int)
    ensures days * DAY <= now - lastClaim < days * DAY + DAY
  {
    (now - lastClaim) / DAY
  }

  /** At least one whole day has elapsed exactly when a full DAY has. */
  lemma AtLeastOneDay(lastClaim: Millis, now: Millis)
    ensures ElapsedDays(lastClaim, now) >= 1 <==> now - lastClaim >= DAY
  {
  }

  function Profit(dailyProfit: Money, days: int): (p: Money)
    ensures dailyProfit >= 0.0 && days >= 0 ==> p >= 0.0
  {
    dailyProfit * days as real
  }

  function Commission(profit: Money): (c: Money)
    ensures 20.0 * c == profit
    ensures profit >= 0.0 ==> 0.0 <= c <= profit
  {
    profit * COMMISSION_RATE
  }

  /** The accrual pass credits an investment when it is active and at
      least one whole day has elapsed since its last claim. */
  predicate Due(inv: Investment, now: Millis)
  {
    inv.status == Active && ElapsedDays(inv.lastProfitClaim, now) >= 1
  }

  function ProfitDue(inv: Investment, now: Millis): Money
  {
    Profit(inv.dailyProfit, ElapsedDays(inv.lastProfitClaim, now))
  }

  /** A due investment after its credit: the profit is added to
      `totalEarned`, the claim mark moves to `now`, and the investment is
      completed once `now` has reached its end date. */
  function Accrued(inv: Investment, now: Millis): (r: Investment)
    requires Due(inv, now)
    ensures r.totalEarned == inv.totalEarned + ProfitDue(inv, now)
    ensures r.lastProfitClaim == now && !Due(r, now)
    ensures r.status == Completed <==> now >= inv.endDate
    ensures r.(totalEarned := inv.totalEarned, lastProfitClaim := inv.lastProfitClaim, status := inv.status) == inv
  {
    inv.(lastProfitClaim := now,
         totalEarned := inv.totalEarned + ProfitDue(inv, now),
         status := if now >= inv.endDate then Completed else inv.status)
  }

  /** What one pass does to one investment: credit it when due, otherwise
      leave it as it is. */
  function Settle(inv: Investment, now: Millis): (r: Investment)
    ensures !Due(r, now)
    ensures !Due(inv, now) ==> r == inv
    ensures Due(inv, now) ==> r == Accrued(inv, now)
    ensures inv.status == Completed ==> r == inv
    ensures r.totalEarned >= inv.totalEarned || inv.dailyProfit < 0.0
  {
    if Due(inv, now) then Accrued(inv, now) else inv
  }

  /** The worked example: 35 a day over three days adds 105. */
  lemma ThreeDaysAtThirtyFive(inv: Investment, now: Millis)
    requires inv.status == Active && inv.dailyProfit == 35.0 && inv.lastProfitClaim == now - 3 * DAY
    ensures Due(inv, now) && Accrued(inv, now).totalEarned == inv.totalEarned + 105.0
  {
  }

  /** Less than a day after the last claim nothing happens, even when the
      end date has already passed: the investment stays active. */
  lemma NotDueStaysActive(inv: Investment, now: Millis)
    requires inv.status == Active && now - inv.lastProfitClaim < DAY && now >= inv.endDate
    ensures Settle(inv, now) == inv && Settle(inv, now).status == Active
  {
  }

  /** Moving the claim mark to `now` drops the part of a day that had
      elapsed beyond the whole days credited: a claim 36 hours after the
      previous one credits one day, and the next day starts afresh. */
  lemma ClaimDropsPartialDay(inv: Investment, now: Millis)
    requires inv.status == Active && inv.endDate > now + DAY && inv.lastProfitClaim == now - DAY - DAY / 2
    ensures var r := Accrued(inv, now);
      && r.totalEarned == inv.totalEarned + inv.dailyProfit
      && !Due(r, now + DAY / 2)
  {
  }

  /** Profit is not capped at the end date: an investment of a two-day plan
      first claimed ten days after its start earns ten days of profit. */
  lemma AccrualNotCappedAtEndDate(inv: Investment, now: Millis)
    requires inv.status == Active && inv.lastProfitClaim == inv.startDate
    requires inv.endDate == inv.startDate + 2 * DAY && now == inv.startDate + 10 * DAY
    ensures Accrued(inv, now).totalEarned == inv.totalEarned + 10.0 * inv.dailyProfit
    ensures Accrued(inv, now).status == Completed
  {
  }
}
