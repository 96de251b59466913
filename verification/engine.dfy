/** The whole store driven by the actions the pages offer, with App.tsx's
    routing gates: pages other than login and registration need a user,
    the admin console needs an admin, and login and registration need
    nobody to be logged in. A refused action leaves the store as it was. */
module Engine {
  import opened Wrappers
  import opened Types
  import Constants
  import Seqs
  import Catalog
  import Store
  import VipMarket
  import Tasks
  import Wallet
  import AdminPanel
  import Register
  import Support

  datatype Action =
    | LogIn(user: User)
    | SignUp(form: Register.RegisterForm, id: string, now: int)
    | LogOut
    | BuyVip(index: nat, now: int, txId: string)
    | DoTask(now: int, txId: string)
    | AskDeposit(amount: Option<int>, via: Wallet.PaymentMethod, now: int, txId: string)
    | AskWithdrawal(amount: Option<int>, pin: string, now: int, txId: string)
    | FileTicket(subject: string, message: string, now: int, tokenId: string)
    | SaveSettings(input: Option<int>)
    | SaveVip(index: nat, edits: seq<AdminPanel.VipEdit>)
    | ResolveTicket(tokenId: string)

  /** The store after a handler's outcome: the new store, or the old one. */
  function Commit(s: Store.State, r: Result<Store.State, Error>): Store.State {
    match r
    case Success(s') => s'
    case Failure(_) => s
  }

  predicate IsAdmin(s: Store.State) {
    s.user.Some? && s.user.value.isAdmin
  }

  /** The tickets with their statuses blanked out: what a status update
      may not change. */
  function IgnoringStatus(tokens: seq<SupportToken>): (r: seq<SupportToken>)
    ensures |r| == |tokens|
    ensures forall i :: 0 <= i < |tokens| ==> r[i] == tokens[i].(status := Open)
  {
    if tokens == [] then [] else [tokens[0].(status := Open)] + IgnoringStatus(tokens[1..])
  }

  /** Resolving a ticket changes statuses and nothing else. */
  lemma ResolveKeepsTickets(tokens: seq<SupportToken>, id: string)
    ensures IgnoringStatus(AdminPanel.ResolveToken(tokens, id)) == IgnoringStatus(tokens)
  {
  }

  /** One action. `BuyVip` names the position of the tier card that was
      tapped in the catalog the market page lists; the card of the tier
      already held offers no button. `SaveVip` names the position of the
      tier opened in the edit form and the changes typed. */
  function Step(s: Store.State, a: Action): (r: Store.State)
    ensures r.transactions == s.transactions ||
            (|r.transactions| == |s.transactions| + 1 && r.transactions[1..] == s.transactions)
    ensures r.supportTokens == s.supportTokens ||
            (|r.supportTokens| == |s.supportTokens| + 1 && r.supportTokens[1..] == s.supportTokens) ||
            (a.ResolveTicket? && IgnoringStatus(r.supportTokens) == IgnoringStatus(s.supportTokens))
    ensures !a.SaveVip? ==> r.vipLevels == s.vipLevels
    ensures |r.vipLevels| == |s.vipLevels| &&
            forall j :: 0 <= j < |s.vipLevels| ==> r.vipLevels[j].level == s.vipLevels[j].level
    ensures !a.SaveSettings? ==> r.config == s.config
    ensures (a.BuyVip? && s.user.Some? && a.index < |s.vipLevels| &&
             s.user.value.activeVip == Some(s.vipLevels[a.index].level)) ==> r == s
    ensures !a.LogIn? && !a.SignUp? && !a.LogOut? ==>
            (r.user.Some? <==> s.user.Some?) && (r.user.Some? ==> r.user.value.id == s.user.value.id)
  {
    match a
    case LogIn(u) => if s.user.None? then Store.Login(s, u) else s
    case SignUp(f, id, now) =>
      if s.user.Some? then s
      else (match Register.Register(f, id, now)
        case Success(u) => Store.Login(s, u)
        case Failure(_) => s)
    case LogOut => Store.Logout(s)
    case BuyVip(i, now, txId) =>
      if s.user.None? || i >= |s.vipLevels| || s.user.value.activeVip == Some(s.vipLevels[i].level) then s
      else Commit(s, VipMarket.Unlock(s, s.vipLevels[i], now, txId))
    case DoTask(now, txId) =>
      if s.user.None? then s else Commit(s, Tasks.CompleteTask(s, now, txId))
    case AskDeposit(amount, via, now, txId) =>
      if s.user.None? then s else Commit(s, Wallet.RequestDeposit(s, amount, via, now, txId))
    case AskWithdrawal(amount, pin, now, txId) =>
      if s.user.None? then s else Commit(s, Wallet.RequestWithdrawal(s, amount, pin, now, txId))
    case FileTicket(subject, message, now, tokenId) =>
      if s.user.None? then s else Commit(s, Support.SubmitTicket(s, subject, message, now, tokenId))
    case SaveSettings(input) =>
      if !IsAdmin(s) then s
      else (match AdminPanel.SaveSettings(s.config, input)
        case Success(c) => s.(config := c)
        case Failure(_) => s)
    case SaveVip(i, edits) =>
      if !IsAdmin(s) || i >= |s.vipLevels| then s
      else s.(vipLevels := AdminPanel.SaveVip(s.vipLevels, Some(AdminPanel.ApplyEdits(s.vipLevels[i], edits))))
    case ResolveTicket(id) =>
      if !IsAdmin(s) then s
      else ResolveKeepsTickets(s.supportTokens, id);
           s.(supportTokens := AdminPanel.ResolveToken(s.supportTokens, id))
  }

  function Run(s: Store.State, acts: seq<Action>): Store.State
    decreases |acts|
  {
    if acts == [] then s else Run(Step(s, acts[0]), acts[1..])
  }

  /** No price and no daily profit in the catalog is negative. */
  predicate CatalogSound(levels: seq<VipLevel>) {
    forall i :: 0 <= i < |levels| ==> levels[i].price >= 0 && levels[i].dailyProfit >= 0
  }

  /** The balance invariant: the withdrawable balance is never negative and
      never exceeds the total balance. */
  predicate BalancesSound(u: User) {
    0 <= u.withdrawableBalance <= u.totalBalance
  }

  predicate Sound(s: Store.State) {
    (s.user.Some? ==> BalancesSound(s.user.value)) && CatalogSound(s.vipLevels)
  }

  /** The actions the invariant is stated for: logins bring a user whose
      balances are sound, and tier edits type no negative price or profit. */
  predicate SoundAction(a: Action) {
    && (a.LogIn? ==> BalancesSound(a.user))
    && (a.SaveVip? ==> forall k :: 0 <= k < |a.edits| ==> AdminPanel.SoundEdit(a.edits[k]))
  }

  /** The store the application starts from is sound. */
  lemma InitialSound()
    ensures Sound(Store.Initial)
  {
  }

  /** Every handler keeps the balances sound: a purchase needs the price in
      the withdrawable balance and takes it from there only, a task adds the
      same non-negative profit to both balances, a withdrawal takes the same
      amount from both and no more than is withdrawable, and a saved tier
      edit types no negative price or profit. */
  lemma StepSound(s: Store.State, a: Action)
    requires Sound(s) && SoundAction(a)
    ensures Sound(Step(s, a))
  {
    if a.SaveVip? && IsAdmin(s) && a.index < |s.vipLevels| {
      AdminPanel.SoundEditsKeepEconomics(s.vipLevels[a.index], a.edits);
    }
  }

  /** The invariant holds after any run of sound actions. */
  lemma {:induction false} RunSound(s: Store.State, acts: seq<Action>)
    requires Sound(s)
    requires forall i :: 0 <= i < |acts| ==> SoundAction(acts[i])
    ensures Sound(Run(s, acts))
    decreases |acts|
  {
    if acts != [] {
      StepSound(s, acts[0]);
      RunSound(Step(s, acts[0]), acts[1..]);
    }
  }

  /** The invariant needs its condition on the actions: the tier form takes
      any number, and once an admin saves a negative price, buying that tier
      makes the withdrawable balance exceed the total. */
  lemma NegativePriceBreaksBalances(s: Store.State, u: User)
    requires s.user == Some(u) && u.isAdmin && u.activeVip.None? && |s.vipLevels| > 0
    requires u.withdrawableBalance == 0 && u.totalBalance == 0
    ensures var r := Run(s, [SaveVip(0, [AdminPanel.Reprice(-1000)]), BuyVip(0, 0, "t")]);
            BalancesSound(u) && !Sound(r) &&
            r.user.Some? && r.user.value.withdrawableBalance == 1000 && r.user.value.totalBalance == 0
  {
    var v := s.vipLevels[0].(price := -1000);
    assert AdminPanel.ApplyEdits(s.vipLevels[0], [AdminPanel.Reprice(-1000)]) == v by {
      assert [AdminPanel.Reprice(-1000)][1..] == [];
    }
    var s1 := s.(vipLevels := AdminPanel.SaveVip(s.vipLevels, Some(v)));
    assert Step(s, SaveVip(0, [AdminPanel.Reprice(-1000)])) == s1;
    assert s1.vipLevels[0] == v;
    var r1 := VipMarket.Unlock(s1, v, 0, "t");
    assert r1.Success?;
    assert Step(s1, BuyVip(0, 0, "t")) == r1.value;
    assert Run(s, [SaveVip(0, [AdminPanel.Reprice(-1000)]), BuyVip(0, 0, "t")]) == Run(s1, [BuyVip(0, 0, "t")]);
  }

  /** The log only grows at the front: after any run the old log is still
      there, unchanged, behind at most one new entry per action. The same
      holds for the support tickets: they are never deleted, and apart from
      their status they stay as filed, in order, behind the newer ones. */
  lemma RunKeepsLedger(s: Store.State, acts: seq<Action>)
    ensures var r := Run(s, acts);
            && |s.transactions| <= |r.transactions| <= |s.transactions| + |acts|
            && r.transactions[|r.transactions| - |s.transactions|..] == s.transactions
            && |s.supportTokens| <= |r.supportTokens| <= |s.supportTokens| + |acts|
            && IgnoringStatus(r.supportTokens)[|r.supportTokens| - |s.supportTokens|..] ==
               IgnoringStatus(s.supportTokens)
  {
    RunKeepsLog(s, acts);
    RunKeepsTickets(s, acts);
  }

  /** The old transaction log survives any run, behind at most one new
      entry per action. */
  lemma {:induction false} RunKeepsLog(s: Store.State, acts: seq<Action>)
    ensures var r := Run(s, acts);
            && |s.transactions| <= |r.transactions| <= |s.transactions| + |acts|
            && r.transactions[|r.transactions| - |s.transactions|..] == s.transactions
    decreases |acts|
  {
    if acts != [] {
      var s1 := Step(s, acts[0]);
      RunKeepsLog(s1, acts[1..]);
      Seqs.SuffixStep(Run(s1, acts[1..]).transactions, s1.transactions, s.transactions);
    }
  }

  /** Tickets are never deleted, and apart from their status they stay as
      filed, in order, behind at most one newer ticket per action. */
  lemma {:induction false} RunKeepsTickets(s: Store.State, acts: seq<Action>)
    ensures var r := Run(s, acts);
            && |s.supportTokens| <= |r.supportTokens| <= |s.supportTokens| + |acts|
            && IgnoringStatus(r.supportTokens)[|r.supportTokens| - |s.supportTokens|..] ==
               IgnoringStatus(s.supportTokens)
    decreases |acts|
  {
    if acts != [] {
      var s1 := Step(s, acts[0]);
      RunKeepsTickets(s1, acts[1..]);
      StepKeepsTickets(s, acts[0]);
      Seqs.SuffixStep(IgnoringStatus(Run(s1, acts[1..]).supportTokens),
                      IgnoringStatus(s1.supportTokens), IgnoringStatus(s.supportTokens));
    }
  }

  /** One action puts at most one ticket in front and otherwise changes
      statuses only. */
  lemma StepKeepsTickets(s: Store.State, a: Action)
    ensures Seqs.GrowsAtFront(IgnoringStatus(Step(s, a).supportTokens), IgnoringStatus(s.supportTokens))
  {
    var r := Step(s, a).supportTokens;
    if |r| != |s.supportTokens| {
      IgnoringStatusTail(r);
    }
  }

  lemma IgnoringStatusTail(tokens: seq<SupportToken>)
    requires tokens != []
    ensures IgnoringStatus(tokens)[1..] == IgnoringStatus(tokens[1..])
  {
  }

  /** No run of actions adds, drops, moves or re-keys a catalog entry. */
  lemma {:induction false} RunKeepsCatalogKeys(s: Store.State, acts: seq<Action>)
    ensures var r := Run(s, acts);
            |r.vipLevels| == |s.vipLevels| &&
            forall j :: 0 <= j < |s.vipLevels| ==> r.vipLevels[j].level == s.vipLevels[j].level
    decreases |acts|
  {
    if acts != [] {
      RunKeepsCatalogKeys(Step(s, acts[0]), acts[1..]);
    }
  }

  /** A deposit request lands in the admin's deposit queue and in the
      user's history. */
  lemma DepositReachesQueue(s: Store.State, amount: Option<int>, via: Wallet.PaymentMethod, now: int, txId: string)
    requires s.user.Some? && Wallet.RequestDeposit(s, amount, via, now, txId).Success?
    ensures var log := Wallet.RequestDeposit(s, amount, via, now, txId).value.transactions;
            log[0] in AdminPanel.PendingDeposits(log) && log[0] !in AdminPanel.PendingWithdrawals(log) &&
            log[0] in Wallet.UserTransactions(log, s.user.value.id)
  {
  }

  /** A withdrawal request lands in the admin's withdrawal queue and in the
      user's history; a tier purchase, approved at once, does not. */
  lemma WithdrawalReachesQueue(s: Store.State, amount: Option<int>, pin: string, now: int, txId: string)
    requires s.user.Some? && Wallet.RequestWithdrawal(s, amount, pin, now, txId).Success?
    ensures var log := Wallet.RequestWithdrawal(s, amount, pin, now, txId).value.transactions;
            log[0] in AdminPanel.PendingWithdrawals(log) &&
            log[0] in Wallet.UserTransactions(log, s.user.value.id)
    ensures forall vip :: VipMarket.Unlock(s, vip, now, txId).Success? ==>
              var log := VipMarket.Unlock(s, vip, now, txId).value.transactions;
              log[0] !in AdminPanel.PendingWithdrawals(log)
  {
  }

  /** A filed ticket is in the admin's open queue. */
  lemma FiledTicketIsOpen(s: Store.State, subject: string, message: string, now: int, tokenId: string)
    requires s.user.Some? && Support.SubmitTicket(s, subject, message, now, tokenId).Success?
    ensures var log := Support.SubmitTicket(s, subject, message, now, tokenId).value.supportTokens;
            log[0] in AdminPanel.OpenSupport(log)
  {
  }

  /** The minimum an admin saves is the one withdrawals are held to: less
      is refused as below the minimum, exactly that much is not. */
  lemma SettingsGovernWithdrawal(s: Store.State, m: int, pin: string, now: int, txId: string)
    requires IsAdmin(s) && m >= 0
    ensures var s1 := Step(s, SaveSettings(Some(m)));
            && s1.config.minWithdrawal == m
            && s1.user.Some?
            && Wallet.RequestWithdrawal(s1, Some(m), pin, now, txId) != Failure(BelowMinimum)
            && forall x :: x < m ==> Wallet.RequestWithdrawal(s1, Some(x), pin, now, txId) == Failure(BelowMinimum)
  {
  }

  /** Only a withdrawal lowers the total balance: a purchase leaves it as
      it was and a task raises it. */
  lemma TotalFallsOnlyOnWithdrawal(s: Store.State, a: Action)
    requires Sound(s) && s.user.Some?
    requires !a.AskWithdrawal? && !a.LogIn? && !a.SignUp? && !a.LogOut?
    ensures Step(s, a).user.Some?
    ensures Step(s, a).user.value.totalBalance >= s.user.value.totalBalance
  {
  }

  /** A freshly registered user holds no tier, so the task is refused. */
  lemma NewUserCannotTask(s: Store.State, f: Register.RegisterForm, id: string, now: int, later: int, txId: string)
    requires s.user.None? && Register.Register(f, id, now).Success?
    ensures var s1 := Step(s, SignUp(f, id, now));
            s1.user.Some? && Tasks.CompleteTask(s1, later, txId) == Failure(NoActiveMembership)
  {
  }

  /** A user with 10000 withdrawable and no tier buys tier 1 of the built-in
      catalog, does the task at once, and tries again a second later. */
  lemma PurchaseThenTaskScenario(u: User, now: int)
    requires u.withdrawableBalance == 10000 && u.totalBalance == 10000
    requires u.activeVip.None? && u.lastTaskCompletedAt.None?
    ensures var s0 := Store.Initial.(user := Some(u));
            var s1 := Run(s0, [BuyVip(0, now, "t1")]);
            var s2 := Run(s1, [DoTask(now, "t2")]);
            var s3 := Run(s2, [DoTask(now + 1000, "t3")]);
            && s1.user.Some? && |s1.transactions| == 1
            && s1.user.value.activeVip == Some(1)
            && s1.user.value.withdrawableBalance == 9000
            && s1.user.value.totalBalance == 10000
            && s1.user.value.vipExpiryDate == Some(now + 200 * DayMs)
            && s1.transactions[0].kind == Withdraw && s1.transactions[0].status == Approved
            && s1.transactions[0].amount == 1000
            && s2.user.Some? && |s2.transactions| == 2
            && s2.user.value.withdrawableBalance == 9200
            && s2.user.value.totalBalance == 10200
            && s2.user.value.lastTaskCompletedAt == Some(now)
            && s2.transactions[0].kind == Profit && s2.transactions[0].amount == 200
            && s3 == s2
  {
    var s0 := Store.Initial.(user := Some(u));
    var v := Constants.VipData[0];
    assert v.level == 1 && v.price == 1000 && v.dailyProfit == 200 && v.validityDays == 200;
    var r1 := VipMarket.Unlock(s0, v, now, "t1");
    assert r1.Success?;
    var s1 := r1.value;
    assert Run(s0, [BuyVip(0, now, "t1")]) == s1;
    assert Catalog.FindLevel(s1.vipLevels, Some(1)) == Some(v);
    var r2 := Tasks.CompleteTask(s1, now, "t2");
    assert r2.Success?;
    var s2 := r2.value;
    assert Run(s1, [DoTask(now, "t2")]) == s2;
    assert Tasks.CompleteTask(s2, now + 1000, "t3") == Failure(CooldownActive);
    assert Run(s2, [DoTask(now + 1000, "t3")]) == s2;
  }

  /** Deposits under 500 and withdrawals with a wrong PIN record nothing. */
  lemma RefusedRequestsScenario(u: User, now: int)
    requires u.withdrawableBalance == 1000 && u.withdrawPin == Some("4321")
    ensures var s0 := Store.Initial.(user := Some(u));
            && Step(s0, AskDeposit(Some(400), Wallet.Bkash, now, "t1")) == s0
            && Step(s0, AskWithdrawal(Some(600), "1234", now, "t2")) == s0
            && Wallet.RequestWithdrawal(s0, Some(600), "1234", now, "t2") == Failure(InvalidPin)
  {
  }
}
