/** The entities of the ledger and membership engine (types.ts).
    Money is an integer amount of taka; every timestamp is an integer
    number of milliseconds. */
module Types {
  import opened Wrappers

  datatype TransactionType = Deposit | Withdraw | Profit | Commission

  datatype TransactionStatus = Pending | Approved | Rejected

  datatype SupportStatus = Open | InProgress | Resolved

  /** One day, the unit of the task cooldown and of VIP validity. */
  const DayMs: int := 24 * 60 * 60 * 1000

  datatype User = User(
    id: string,
    username: string,
    phone: string,
    email: string,
    totalBalance: int,
    withdrawableBalance: int,
    activeVip: Option<int>,
    vipExpiryDate: Option<int>,
    referrerId: Option<string>,
    withdrawPin: Option<string>,
    isBlocked: bool,
    isAdmin: bool,
    lastTaskCompletedAt: Option<int>,
    createdAt: int)

  /** A catalog entry, keyed by `level`. */
  datatype VipLevel = VipLevel(
    level: int,
    name: string,
    price: int,
    dailyProfit: int,
    tasksPerDay: int,
    validityDays: int,
    imageUrl: Option<string>)

  datatype Transaction = Transaction(
    id: string,
    userId: string,
    kind: TransactionType,
    amount: int,
    status: TransactionStatus,
    createdAt: int,
    details: Option<string>)

  datatype SupportToken = SupportToken(
    id: string,
    userId: string,
    username: string,
    subject: string,
    message: string,
    status: SupportStatus,
    createdAt: int)

  datatype AppConfig = AppConfig(minWithdrawal: int)

  /** Why a handler returned early without touching the store. */
  datatype Error =
    | AlreadyHigherOrEqualTier
    | InsufficientBalance
    | BelowMinimum
    | InvalidPin
    | NoActiveMembership
    | CooldownActive
    | MissingFields
    | PasswordMismatch
    | InvalidNumber
}
