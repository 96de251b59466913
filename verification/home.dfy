/** What the home page derives from the user (pages/Home.tsx). */
module Home {
  import opened Wrappers
  import opened Types
  import Catalog

  /** `Math.ceil(a / d)` for a positive divisor. */
  function CeilDiv(a: int, d: int): (q: int)
    requires d > 0
    ensures (q - 1) * d < a <= q * d
  {
    -((-a) / d)
  }

  /** `getRemainingDays`: whole days left until the expiry, rounded up, and
      never negative; none when no expiry is recorded. */
  function RemainingDays(expiry: Option<int>, now: int): (r: Option<int>)
    ensures r.None? <==> expiry.None?
    ensures r.Some? ==> r.value >= 0
    ensures r.Some? && expiry.value > now ==> (r.value - 1) * DayMs < expiry.value - now <= r.value * DayMs
    ensures r.Some? && expiry.value <= now ==> r.value == 0
  {
    match expiry
    case None => None
    case Some(e) =>
      var days := CeilDiv(e - now, DayMs);
      Some(if days > 0 then days else 0)
  }

  /** The count of days left only goes down as time passes. */
  lemma RemainingDaysNonIncreasing(expiry: int, t1: int, t2: int)
    requires t1 <= t2
    ensures RemainingDays(Some(expiry), t2).value <= RemainingDays(Some(expiry), t1).value
  {
  }

  /** The tier card of the home page. */
  function ActiveLevel(u: User, levels: seq<VipLevel>): (r: Option<VipLevel>)
    ensures r.Some? ==> r.value in levels && u.activeVip == Some(r.value.level)
    ensures r.None? <==> u.activeVip.None? || forall i :: 0 <= i < |levels| ==> levels[i].level != u.activeVip.value
    ensures r.Some? ==> exists i :: 0 <= i < |levels| && levels[i] == r.value &&
                                   forall j :: 0 <= j < i ==> levels[j].level != r.value.level
  {
    Catalog.FindLevel(levels, u.activeVip)
  }
}
