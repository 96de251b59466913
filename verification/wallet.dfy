/** Deposit and withdrawal requests and the user's history
    (pages/Wallet.tsx). */
module Wallet {
  import opened Wrappers
  import opened Types
  import Seqs
  import Store

  /** The smallest deposit the page accepts. */
  const MinDeposit: int := 500

  /** The PIN that stands in while the user has set none. */
  const DefaultPin: string := "1234"

  datatype PaymentMethod = Bkash | Nagad | Rocket | Bank

  function MethodId(m: PaymentMethod): string {
    match m
    case Bkash => "bkash"
    case Nagad => "nagad"
    case Rocket => "rocket"
    case Bank => "bank"
  }

  /** `transactions.filter(tx => tx.user_id === user.id)`. */
  function UserTransactions(log: seq<Transaction>, userId: string): (r: seq<Transaction>)
    ensures forall t :: t in r <==> t in log && t.userId == userId
    ensures forall t :: multiset(r)[t] == if t.userId == userId then multiset(log)[t] else 0
  {
    Seqs.Filter(log, (t: Transaction) => t.userId == userId)
  }

  /** `handleDeposit`: an amount that is not a number or is under 500 is
      refused; otherwise a PENDING DEPOSIT is logged and no balance moves.
      `amount` is the parsed input, `None` standing for NaN. */
  function RequestDeposit(s: Store.State, amount: Option<int>, via: PaymentMethod, now: int, txId: string)
    : (r: Result<Store.State, Error>)
    requires s.user.Some?
    ensures r.Failure? <==> amount.None? || amount.value < MinDeposit
    ensures r.Failure? ==> r.error == BelowMinimum
    ensures r.Success? ==>
            && |r.value.transactions| == |s.transactions| + 1
            && r.value.transactions[1..] == s.transactions
            && (var t := r.value.transactions[0];
                t.kind == Deposit && t.status == Pending && t.amount == amount.value &&
                t.userId == s.user.value.id && t.id == txId && t.createdAt == now &&
                t.details == Some("Deposit request via " + MethodId(via)))
            && r.value.(transactions := s.transactions) == s
  {
    if amount.None? || amount.value < MinDeposit then Failure(BelowMinimum)
    else
      var draft := Store.TxDraft(s.user.value.id, Deposit, amount.value, Pending,
                                 Some("Deposit request via " + MethodId(via)));
      Success(s.(transactions := Store.AddTransaction(s.transactions, draft, txId, now)))
  }

  /** `user.withdraw_pin || '1234'`: null and the empty string both fall
      back to the default. */
  function ExpectedPin(u: User): (r: string)
    ensures r != ""
    ensures u.withdrawPin.Some? && u.withdrawPin.value != "" ==> r == u.withdrawPin.value
    ensures u.withdrawPin.None? || u.withdrawPin.value == "" ==> r == DefaultPin
  {
    if u.withdrawPin.None? || u.withdrawPin.value == "" then DefaultPin else u.withdrawPin.value
  }

  /** `handleWithdraw`: refuses, in this order, an amount that is not a
      number or is under the configured minimum, an amount above the
      withdrawable balance, and a wrong PIN; otherwise takes the amount from
      both balances at once and logs a PENDING WITHDRAW. */
  function RequestWithdrawal(s: Store.State, amount: Option<int>, pin: string, now: int, txId: string)
    : (r: Result<Store.State, Error>)
    requires s.user.Some?
    ensures var u, min := s.user.value, s.config.minWithdrawal;
            && (amount.None? || amount.value < min ==> r == Failure(BelowMinimum))
            && (amount.Some? && min <= amount.value && amount.value > u.withdrawableBalance
                ==> r == Failure(InsufficientBalance))
            && (amount.Some? && min <= amount.value <= u.withdrawableBalance && pin != ExpectedPin(u)
                ==> r == Failure(InvalidPin))
            && (r.Success? <==> amount.Some? && min <= amount.value <= u.withdrawableBalance && pin == ExpectedPin(u))
    ensures r.Success? ==> r.value.user.Some?
    ensures r.Success? && r.value.user.Some? ==>
            var u, u', amt := s.user.value, r.value.user.value, amount.value;
            && u'.withdrawableBalance == u.withdrawableBalance - amt
            && u'.totalBalance == u.totalBalance - amt
            && u'.(withdrawableBalance := u.withdrawableBalance, totalBalance := u.totalBalance) == u
            && |r.value.transactions| == |s.transactions| + 1
            && r.value.transactions[1..] == s.transactions
            && (var t := r.value.transactions[0];
                t.kind == Withdraw && t.status == Pending && t.amount == amt &&
                t.userId == u.id && t.id == txId && t.createdAt == now &&
                t.details == Some("Withdrawal request"))
            && r.value.(user := s.user, transactions := s.transactions) == s
  {
    var u := s.user.value;
    if amount.None? || amount.value < s.config.minWithdrawal then Failure(BelowMinimum)
    else if amount.value > u.withdrawableBalance then Failure(InsufficientBalance)
    else if pin != ExpectedPin(u) then Failure(InvalidPin)
    else
      var amt := amount.value;
      var patch := Store.NoChange.(
        withdrawableBalance := Some(u.withdrawableBalance - amt),
        totalBalance := Some(u.totalBalance - amt));
      var draft := Store.TxDraft(u.id, Withdraw, amt, Pending, Some("Withdrawal request"));
      Success(s.(
        user := Store.UpdateUser(s.user, patch),
        transactions := Store.AddTransaction(s.transactions, draft, txId, now)))
  }

  /** Withdrawing everything is allowed and leaves exactly nothing; a
      successful withdrawal never drives a non-negative balance negative. */
  lemma WithdrawAll(s: Store.State, pin: string, now: int, txId: string)
    requires s.user.Some?
    requires s.config.minWithdrawal <= s.user.value.withdrawableBalance
    requires pin == ExpectedPin(s.user.value)
    ensures var r := RequestWithdrawal(s, Some(s.user.value.withdrawableBalance), pin, now, txId);
            r.Success? && r.value.user.value.withdrawableBalance == 0
  {
  }

  /** A new request shows at the top of its owner's history and nowhere
      else's. */
  lemma HistoryAfterRequest(log: seq<Transaction>, d: Store.TxDraft, id: string, now: int, userId: string)
    ensures var log' := Store.AddTransaction(log, d, id, now);
            UserTransactions(log', userId) ==
              (if d.userId == userId then [log'[0]] else []) + UserTransactions(log, userId)
  {
    var log' := Store.AddTransaction(log, d, id, now);
    Seqs.FilterAppend([log'[0]], log, (t: Transaction) => t.userId == userId);
  }
}
