/** The daily task (pages/Tasks.tsx): a 24-hour cooldown measured from the
    last completion, and a profit credited to both balances. */
module Tasks {
  import opened Wrappers
  import opened Types
  import opened Text
  import Constants
  import Catalog
  import Store

  /** The cooldown still to run at `now`, in milliseconds, or none when the
      task is available. The task unlocks exactly 24 hours after the last
      completion. */
  function RemainingCooldown(last: Option<int>, now: int): (r: Option<int>)
    ensures r.None? <==> last.None? || now >= last.value + DayMs
    ensures r.Some? ==> r.value > 0 && now + r.value == last.value + DayMs
  {
    match last
    case None => None
    case Some(t) =>
      var diff := now - t;
      if diff < DayMs then Some(DayMs - diff) else None
  }

  /** Unless the clock went backwards, a running cooldown lasts at most a day. */
  lemma CooldownBounds(last: int, now: int)
    requires last <= now
    ensures var r := RemainingCooldown(Some(last), now);
            r.Some? ==> 0 < r.value <= DayMs
  {
  }

  /** Waiting never lengthens the cooldown. */
  lemma CooldownNonIncreasing(last: Option<int>, t1: int, t2: int)
    requires t1 <= t2
    ensures var r1, r2 := RemainingCooldown(last, t1), RemainingCooldown(last, t2);
            r2.Some? ==> r1.Some? && r2.value <= r1.value
  {
  }

  /** `handleCompleteTask`: needs a catalog entry for the user's tier and no
      running cooldown; then credits the tier's daily profit to both
      balances, stamps the completion time and logs an approved PROFIT. */
  function CompleteTask(s: Store.State, now: int, txId: string): (r: Result<Store.State, Error>)
    requires s.user.Some?
    ensures var u := s.user.value;
            var tier := Catalog.FindLevel(s.vipLevels, u.activeVip);
            && (tier.None? ==> r == Failure(NoActiveMembership))
            && (tier.Some? && RemainingCooldown(u.lastTaskCompletedAt, now).Some? ==> r == Failure(CooldownActive))
            && (r.Success? <==> tier.Some? && RemainingCooldown(u.lastTaskCompletedAt, now).None?)
    ensures r.Success? ==> r.value.user.Some?
    ensures r.Success? && r.value.user.Some? ==>
            var u, u' := s.user.value, r.value.user.value;
            var profit := Catalog.FindLevel(s.vipLevels, u.activeVip).value.dailyProfit;
            && u'.withdrawableBalance == u.withdrawableBalance + profit
            && u'.totalBalance == u.totalBalance + profit
            && u'.lastTaskCompletedAt == Some(now)
            && u'.(withdrawableBalance := u.withdrawableBalance, totalBalance := u.totalBalance,
                   lastTaskCompletedAt := u.lastTaskCompletedAt) == u
            && |r.value.transactions| == |s.transactions| + 1
            && r.value.transactions[1..] == s.transactions
            && (var t := r.value.transactions[0];
                t.kind == Profit && t.status == Approved && t.amount == profit &&
                t.userId == u.id && t.id == txId && t.createdAt == now &&
                t.details == Some("Daily task profit from " + Catalog.FindLevel(s.vipLevels, u.activeVip).value.name))
            && r.value.(user := s.user, transactions := s.transactions) == s
  {
    var u := s.user.value;
    match Catalog.FindLevel(s.vipLevels, u.activeVip)
    case None => Failure(NoActiveMembership)
    case Some(tier) =>
      if RemainingCooldown(u.lastTaskCompletedAt, now).Some? then Failure(CooldownActive)
      else
        var profit := tier.dailyProfit;
        var patch := Store.NoChange.(
          withdrawableBalance := Some(u.withdrawableBalance + profit),
          totalBalance := Some(u.totalBalance + profit),
          lastTaskCompletedAt := Some(Some(now)));
        var draft := Store.TxDraft(u.id, Profit, profit, Approved, Some("Daily task profit from " + tier.name));
        Success(s.(
          user := Store.UpdateUser(s.user, patch),
          transactions := Store.AddTransaction(s.transactions, draft, txId, now)))
  }

  /** A second completion inside the same 24 hours is refused. */
  lemma SecondTaskWithinDayRejected(s: Store.State, now: int, txId: string, later: int, txId2: string)
    requires s.user.Some? && CompleteTask(s, now, txId).Success?
    requires now <= later < now + DayMs
    ensures CompleteTask(CompleteTask(s, now, txId).value, later, txId2) == Failure(CooldownActive)
  {
  }

  /** Once 24 hours have passed the task is available again. */
  lemma TaskAvailableAfterDay(s: Store.State, now: int, txId: string, later: int, txId2: string)
    requires s.user.Some? && CompleteTask(s, now, txId).Success?
    requires later >= now + DayMs
    ensures CompleteTask(CompleteTask(s, now, txId).value, later, txId2).Success?
  {
  }

  /** The clock face `formatTime` shows: hours modulo a day, minutes and
      seconds. Together they spell the whole seconds of `ms` within the day. */
  function ClockFields(ms: nat): (r: (nat, nat, nat))
    ensures r.0 < 24 && r.1 < 60 && r.2 < 60
    ensures r.0 * 3600 + r.1 * 60 + r.2 == (ms / 1000) % 86400
  {
    var sec := (ms / 1000) % 60;
    var min := (ms / (1000 * 60)) % 60;
    var hrs := (ms / (1000 * 60 * 60)) % 24;
    ClockFieldsCorrect(ms);
    (hrs, min, sec)
  }

  lemma ClockFieldsCorrect(ms: nat)
    ensures (ms / (1000 * 60 * 60)) % 24 * 3600 + (ms / (1000 * 60)) % 60 * 60 + (ms / 1000) % 60
            == (ms / 1000) % 86400
  {
    var S := ms / 1000;
    var M := S / 60;
    var H := M / 60;
    assert ms / (1000 * 60) == M;
    assert ms / (1000 * 60 * 60) == H;
    var q := H / 24;
    assert S == 60 * M + S % 60;
    assert M == 60 * H + M % 60;
    assert H == 24 * q + H % 24;
    var x := H % 24 * 3600 + M % 60 * 60 + S % 60;
    assert S == 86400 * q + x;
    assert 0 <= x < 86400;
  }

  /** `n < 10 ? '0' + n : n`: two decimal digits spelling `n`. */
  function Pad2(n: nat): (r: string)
    requires n < 100
    ensures |r| == 2 && AllDigits(r) && DecimalValue(r) == n
  {
    DecimalRoundTrip(n);
    if n < 10 then "0" + NatToString(n) else NatToString(n)
  }

  /** `formatTime`: `hh:mm:ss` in Bangla digits. */
  function FormatTime(ms: nat): (r: string)
    ensures |r| == 8 && r[2] == ':' && r[5] == ':'
    ensures forall i :: 0 <= i < 8 && i != 2 && i != 5 ==> Constants.IsBanglaDigit(r[i])
  {
    var (h, m, sec) := ClockFields(ms);
    Constants.BanglaDigitsCodePoints();
    Constants.ToBanglaNum(Pad2(h)) + ":" + Constants.ToBanglaNum(Pad2(m)) + ":" + Constants.ToBanglaNum(Pad2(sec))
  }

  /** The number a two-digit Bangla field of a clock face denotes. */
  function ReadField(f: string): nat {
    var a := Constants.FromBanglaNum(f);
    if AllDigits(a) then DecimalValue(a) else 0
  }

  /** Reading the clock face back gives the hours, minutes and seconds it
      was made from. */
  lemma FormatTimeReadsBack(ms: nat)
    ensures var r := FormatTime(ms);
            (ReadField(r[0..2]), ReadField(r[3..5]), ReadField(r[6..8])) == ClockFields(ms)
  {
    var (h, m, sec) := ClockFields(ms);
    var r := FormatTime(ms);
    Constants.BanglaDigitsCodePoints();
    FieldReadsBack(h);
    FieldReadsBack(m);
    FieldReadsBack(sec);
    assert r[0..2] == Constants.ToBanglaNum(Pad2(h));
    assert r[3..5] == Constants.ToBanglaNum(Pad2(m));
    assert r[6..8] == Constants.ToBanglaNum(Pad2(sec));
  }

  lemma FieldReadsBack(n: nat)
    requires n < 100
    ensures ReadField(Constants.ToBanglaNum(Pad2(n))) == n
  {
    var p := Pad2(n);
    assert forall i :: 0 <= i < |p| ==> !Constants.IsBanglaDigit(p[i]);
    Constants.BanglaRoundTrip(p);
  }
}
