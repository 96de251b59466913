/** The in-memory store of App.tsx and its primitive updates: the shallow
    user merge, the config merge, the two prepend-only ledgers and the
    support-status update. Persistence to local storage is not modelled. */
module Store {
  import opened Wrappers
  import opened Types
  import Constants

  /** `Partial<User>`: a field is `Some(v)` when the patch sets it to `v`
      (for a nullable field, `v` may itself be `None`). */
  datatype UserPatch = UserPatch(
    id: Option<string>,
    username: Option<string>,
    phone: Option<string>,
    email: Option<string>,
    totalBalance: Option<int>,
    withdrawableBalance: Option<int>,
    activeVip: Option<Option<int>>,
    vipExpiryDate: Option<Option<int>>,
    referrerId: Option<Option<string>>,
    withdrawPin: Option<Option<string>>,
    isBlocked: Option<bool>,
    isAdmin: Option<bool>,
    lastTaskCompletedAt: Option<Option<int>>,
    createdAt: Option<int>)

  /** The patch `{}`. */
  const NoChange: UserPatch :=
    UserPatch(None, None, None, None, None, None, None, None, None, None, None, None, None, None)

  /** `{ ...u, ...p }`. */
  function Merge(u: User, p: UserPatch): (r: User)
    ensures Full(r) == Then(Full(u), p)
  {
    User(
      p.id.GetOr(u.id),
      p.username.GetOr(u.username),
      p.phone.GetOr(u.phone),
      p.email.GetOr(u.email),
      p.totalBalance.GetOr(u.totalBalance),
      p.withdrawableBalance.GetOr(u.withdrawableBalance),
      p.activeVip.GetOr(u.activeVip),
      p.vipExpiryDate.GetOr(u.vipExpiryDate),
      p.referrerId.GetOr(u.referrerId),
      p.withdrawPin.GetOr(u.withdrawPin),
      p.isBlocked.GetOr(u.isBlocked),
      p.isAdmin.GetOr(u.isAdmin),
      p.lastTaskCompletedAt.GetOr(u.lastTaskCompletedAt),
      p.createdAt.GetOr(u.createdAt))
  }

  /** The patch that sets every field to its value in `u`. */
  function Full(u: User): UserPatch {
    UserPatch(
      Some(u.id), Some(u.username), Some(u.phone), Some(u.email),
      Some(u.totalBalance), Some(u.withdrawableBalance), Some(u.activeVip),
      Some(u.vipExpiryDate), Some(u.referrerId), Some(u.withdrawPin),
      Some(u.isBlocked), Some(u.isAdmin), Some(u.lastTaskCompletedAt), Some(u.createdAt))
  }

  /** `{ ...p, ...q }`: the later patch wins where both set a field. */
  function Then(p: UserPatch, q: UserPatch): UserPatch {
    UserPatch(
      if q.id.Some? then q.id else p.id,
      if q.username.Some? then q.username else p.username,
      if q.phone.Some? then q.phone else p.phone,
      if q.email.Some? then q.email else p.email,
      if q.totalBalance.Some? then q.totalBalance else p.totalBalance,
      if q.withdrawableBalance.Some? then q.withdrawableBalance else p.withdrawableBalance,
      if q.activeVip.Some? then q.activeVip else p.activeVip,
      if q.vipExpiryDate.Some? then q.vipExpiryDate else p.vipExpiryDate,
      if q.referrerId.Some? then q.referrerId else p.referrerId,
      if q.withdrawPin.Some? then q.withdrawPin else p.withdrawPin,
      if q.isBlocked.Some? then q.isBlocked else p.isBlocked,
      if q.isAdmin.Some? then q.isAdmin else p.isAdmin,
      if q.lastTaskCompletedAt.Some? then q.lastTaskCompletedAt else p.lastTaskCompletedAt,
      if q.createdAt.Some? then q.createdAt else p.createdAt)
  }

  /** The empty patch changes nothing, and a patch that sets every field
      determines the result whatever the old user was. */
  lemma MergeIdentities(u: User)
    ensures Merge(u, NoChange) == u
    ensures Merge(u, Full(u)) == u
    ensures forall v :: Merge(v, Full(u)) == u
  {
  }

  /** Two successive merges are one merge of the combined patch, and merging
      the same patch twice changes nothing more. */
  lemma MergeThen(u: User, p: UserPatch, q: UserPatch)
    ensures Merge(Merge(u, p), q) == Merge(u, Then(p, q))
    ensures Merge(Merge(u, p), p) == Merge(u, p)
  {
  }

  /** `updateUser`: merges into the logged-in user; with nobody logged in the
      user stays null. */
  function UpdateUser(current: Option<User>, p: UserPatch): (r: Option<User>)
    ensures current.None? <==> r.None?
    ensures current.Some? ==> r.value == Merge(current.value, p)
  {
    match current
    case None => None
    case Some(u) => Some(Merge(u, p))
  }

  datatype ConfigPatch = ConfigPatch(minWithdrawal: Option<int>)

  /** `updateAppConfig`: overwrites only the keys the patch sets. */
  function UpdateAppConfig(c: AppConfig, p: ConfigPatch): (r: AppConfig)
    ensures p.minWithdrawal.Some? ==> r.minWithdrawal == p.minWithdrawal.value
    ensures p.minWithdrawal.None? ==> r == c
  {
    AppConfig(p.minWithdrawal.GetOr(c.minWithdrawal))
  }

  /** `Omit<Transaction, 'id' | 'created_at'>`: what a handler supplies. */
  datatype TxDraft = TxDraft(
    userId: string,
    kind: TransactionType,
    amount: int,
    status: TransactionStatus,
    details: Option<string>)

  function DraftOf(t: Transaction): TxDraft {
    TxDraft(t.userId, t.kind, t.amount, t.status, t.details)
  }

  /** `addTransaction`: the draft, stamped with a fresh id and the current
      time, goes in front of the log; the old entries follow unchanged and
      in order. */
  function AddTransaction(log: seq<Transaction>, d: TxDraft, id: string, now: int): (r: seq<Transaction>)
    ensures |r| == |log| + 1
    ensures r[1..] == log
    ensures DraftOf(r[0]) == d && r[0].id == id && r[0].createdAt == now
  {
    [Transaction(id, d.userId, d.kind, d.amount, d.status, now, d.details)] + log
  }

  /** `Omit<SupportToken, 'id' | 'created_at' | 'status'>`. */
  datatype TokenDraft = TokenDraft(userId: string, username: string, subject: string, message: string)

  function TokenDraftOf(t: SupportToken): TokenDraft {
    TokenDraft(t.userId, t.username, t.subject, t.message)
  }

  /** `addSupportToken`: a new OPEN token in front of the log. */
  function AddSupportToken(log: seq<SupportToken>, d: TokenDraft, id: string, now: int): (r: seq<SupportToken>)
    ensures |r| == |log| + 1
    ensures r[1..] == log
    ensures TokenDraftOf(r[0]) == d && r[0].id == id && r[0].createdAt == now
    ensures r[0].status == Open
  {
    [SupportToken(id, d.userId, d.username, d.subject, d.message, Open, now)] + log
  }

  /** `updateSupportToken`: every token with the given id gets the new
      status; nothing else changes, and an unknown id changes nothing. */
  function UpdateSupportToken(log: seq<SupportToken>, id: string, status: SupportStatus): (r: seq<SupportToken>)
    ensures |r| == |log|
    ensures forall i :: 0 <= i < |log| ==> r[i].(status := log[i].status) == log[i]
    ensures forall i :: 0 <= i < |log| ==> r[i].status == if log[i].id == id then status else log[i].status
    ensures (forall i :: 0 <= i < |log| ==> log[i].id != id) ==> r == log
  {
    if log == [] then []
    else
      var t := log[0];
      [if t.id == id then t.(status := status) else t] + UpdateSupportToken(log[1..], id, status)
  }

  /** Setting the same status twice is the same as once. */
  lemma UpdateSupportTokenIdempotent(log: seq<SupportToken>, id: string, status: SupportStatus)
    ensures UpdateSupportToken(UpdateSupportToken(log, id, status), id, status) == UpdateSupportToken(log, id, status)
  {
  }

  /** Everything App.tsx holds. */
  datatype State = State(
    user: Option<User>,
    config: AppConfig,
    transactions: seq<Transaction>,
    supportTokens: seq<SupportToken>,
    vipLevels: seq<VipLevel>)

  /** The store before anything has been loaded or done. */
  const Initial: State := State(None, AppConfig(500), [], [], Constants.VipData)

  /** `login`: the session now belongs to `u`; nothing else changes. */
  function Login(s: State, u: User): (r: State)
    ensures r.user == Some(u) && r.(user := s.user) == s
  {
    s.(user := Some(u))
  }

  /** `logout`. */
  function Logout(s: State): (r: State)
    ensures r.user.None? && r.(user := s.user) == s
  {
    s.(user := None)
  }
}
