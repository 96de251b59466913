/** Buying a VIP tier (pages/VIPMarket.tsx, `handleUnlock`). */
module VipMarket {
  import opened Wrappers
  import opened Types
  import opened Text
  import Store

  /** The guard `user.active_vip && user.active_vip >= vip.level`: a held
      tier of 0 is falsy in JavaScript and blocks nothing. */
  predicate HoldsAtLeast(u: User, vip: VipLevel) {
    u.activeVip.Some? && u.activeVip.value != 0 && u.activeVip.value >= vip.level
  }

  /** The expiry of a tier bought at `now`: `validity_days` whole days later. */
  function ExpiryFor(vip: VipLevel, now: int): int {
    now + vip.validityDays * DayMs
  }

  /** `handleUnlock`: refuses a tier not above the one held, then a price
      above the withdrawable balance; otherwise takes the full price from the
      withdrawable balance only, switches the tier, sets its expiry and logs
      an approved WITHDRAW of the price. */
  function Unlock(s: Store.State, vip: VipLevel, now: int, txId: string): (r: Result<Store.State, Error>)
    requires s.user.Some?
    ensures var u := s.user.value;
            && (HoldsAtLeast(u, vip) ==> r == Failure(AlreadyHigherOrEqualTier))
            && (!HoldsAtLeast(u, vip) && u.withdrawableBalance < vip.price ==> r == Failure(InsufficientBalance))
            && (r.Success? <==> !HoldsAtLeast(u, vip) && vip.price <= u.withdrawableBalance)
    ensures r.Success? ==> r.value.user.Some?
    ensures r.Success? && r.value.user.Some? ==>
            var u, u' := s.user.value, r.value.user.value;
            && u'.withdrawableBalance == u.withdrawableBalance - vip.price
            && u'.totalBalance == u.totalBalance
            && u'.activeVip == Some(vip.level)
            && u'.vipExpiryDate == Some(ExpiryFor(vip, now))
            && u'.(withdrawableBalance := u.withdrawableBalance, activeVip := u.activeVip,
                   vipExpiryDate := u.vipExpiryDate) == u
            && |r.value.transactions| == |s.transactions| + 1
            && r.value.transactions[1..] == s.transactions
            && (var t := r.value.transactions[0];
                t.kind == Withdraw && t.status == Approved && t.amount == vip.price &&
                t.userId == u.id && t.id == txId && t.createdAt == now &&
                t.details == Some("VIP Level " + IntToString(vip.level) + " Purchase"))
            && r.value.(user := s.user, transactions := s.transactions) == s
  {
    var u := s.user.value;
    if HoldsAtLeast(u, vip) then Failure(AlreadyHigherOrEqualTier)
    else if u.withdrawableBalance < vip.price then Failure(InsufficientBalance)
    else
      var patch := Store.NoChange.(
        activeVip := Some(Some(vip.level)),
        withdrawableBalance := Some(u.withdrawableBalance - vip.price),
        totalBalance := Some(u.totalBalance),
        vipExpiryDate := Some(Some(ExpiryFor(vip, now))));
      var draft := Store.TxDraft(u.id, Withdraw, vip.price, Approved,
                                 Some("VIP Level " + IntToString(vip.level) + " Purchase"));
      Success(s.(
        user := Store.UpdateUser(s.user, patch),
        transactions := Store.AddTransaction(s.transactions, draft, txId, now)))
  }

  /** An upgrade costs the full price of the new tier whatever tier was held
      before: nothing is credited for the old one. */
  lemma UpgradeChargesFullPrice(s1: Store.State, s2: Store.State, vip: VipLevel, now: int, txId: string)
    requires s1.user.Some? && s2.user.Some?
    requires s1.user.value.withdrawableBalance == s2.user.value.withdrawableBalance
    requires Unlock(s1, vip, now, txId).Success? && Unlock(s2, vip, now, txId).Success?
    ensures Unlock(s1, vip, now, txId).value.user.value.withdrawableBalance
         == Unlock(s2, vip, now, txId).value.user.value.withdrawableBalance
  {
  }

  /** Once bought, a (non-zero) tier cannot be bought again. */
  lemma RepurchaseRejected(s: Store.State, vip: VipLevel, now: int, txId: string, later: int, txId2: string)
    requires s.user.Some? && vip.level != 0
    requires Unlock(s, vip, now, txId).Success?
    ensures Unlock(Unlock(s, vip, now, txId).value, vip, later, txId2) == Failure(AlreadyHigherOrEqualTier)
  {
  }

  /** A purchase never spends money the user does not have. */
  lemma UnlockKeepsBalanceNonNegative(s: Store.State, vip: VipLevel, now: int, txId: string)
    requires s.user.Some? && Unlock(s, vip, now, txId).Success?
    ensures Unlock(s, vip, now, txId).value.user.value.withdrawableBalance >= 0
  {
  }
}
