# NCP members: ledger and VIP-membership engine in Dafny

This project models the engine inside the NCP members client, a mobile
web app. A user buys a VIP tier from a catalog, does one task a day for a
profit, and asks to deposit or withdraw money. The user can also file
support tickets. An admin edits the minimum withdrawal and the tier
economics, and resolves tickets. The app keeps one store: the logged-in
user, the transaction log, the support-ticket log, the VIP catalog and the
app config. The page handlers change this store.

Each handler is a pure function from the store to a `Result`. A handler
either rejects with a typed `Error` and leaves the store untouched, or
returns the new store. Money is an integer amount. Time is an integer
number of milliseconds, and a day is 86,400,000 ms. The current time, the
fresh ids and the parsed numeric inputs are parameters. A parsed number is
an `Option<int>`, where `None` stands for `NaN`.

Modules, one per source file:

- `Types` (types.ts): the three enums, `User`, `VipLevel`, `Transaction`, `SupportToken`, `AppConfig`, and `Error`.
- `Constants` (components/constants.tsx): the built-in catalog and the Bangla digit transliteration.
- `Store` (App.tsx): the store and its primitives. These are the shallow user merge, the config merge, the two logs that only grow at the front, and the ticket-status update.
- `VipMarket`, `Tasks`, `Wallet`, `AdminPanel`, `Home`, `Register`, `Support`, `Profile`: the page handlers and derived values.
- `Catalog`: the lookup `levels.find(v => v.level === user.active_vip)`, which three pages share.
- `Engine`: a trace of actions run through App.tsx's route guards, plus the invariants proved over every handler.
- `Wrappers`, `Seqs`, `Text`: `Option`/`Result`, `filter`/`find`, and the decimal `toString` and ASCII `toUpperCase` the pages use.

The model follows the code as written:

- A tier can be held with no expiry. The login mock user has tier 1 and a null expiry. No rule ties the expiry to the tier.
- A task needs a catalog entry whose level equals the held tier. It never looks at the expiry. An expired tier still earns.
- Replacing a level that is not in the catalog does nothing.
- Ticket status is not forward-only. `updateSupportToken` writes any status. The admin console only offers RESOLVED.
- Nothing approves or rejects a transaction, and nothing credits back a rejected withdrawal.
- JavaScript truthiness is kept. A held tier of `0` does not block a purchase, though the market disables the card whose level equals the held tier (pages/VIPMarket.tsx:112). A PIN of `null` or `""` both fall back to `"1234"`.
- The admin panel's source declares the pending-deposit list under a garbled name (pages/AdminPanel.tsx:25). It then reads `pendingDeposits` (pages/AdminPanel.tsx:70), which is never declared. The model gives the filter the evident intent: DEPOSIT and PENDING.

## Model

| member | source | states |
|---|---|---|
| Store.Merge | App.tsx:60-67 | `{...u, ...p}`: every field of the result is the patch's value where the patch sets it and the old value elsewhere |
| Store.MergeIdentities | App.tsx:63 | the empty patch changes nothing; a patch that sets every field fixes the result whatever the old user was |
| Store.MergeThen | App.tsx:63 | two merges equal one merge of the combined patch, later keys winning; merging the same patch twice is merging it once |
| Store.UpdateUser | App.tsx:60-67 | with nobody logged in the user stays null; otherwise it becomes the merge |
| Store.UpdateAppConfig | App.tsx:69-75 | only the keys the patch sets are overwritten |
| Store.AddTransaction | App.tsx:82-93 | the new entry goes in front with the caller's fields plus the fresh id and time; the old log follows unchanged; length grows by one |
| Store.AddSupportToken | App.tsx:95-107 | one new token in front, carrying the draft's fields, the fresh id and time, and status OPEN; old tokens follow unchanged |
| Store.UpdateSupportToken | App.tsx:109-115 | length and every field but status are preserved; matching ids get the new status; an unknown id changes nothing |
| Store.UpdateSupportTokenIdempotent | App.tsx:111 | setting the same status twice equals setting it once |
| Store.Login | App.tsx:50-53 | the session becomes the given user and nothing else changes |
| Store.Logout | App.tsx:55-58 | the session becomes empty and nothing else changes |
| Engine.InitialSound | App.tsx:23-27 | the starting store (no user, minimum 500, empty logs, the built-in catalog) satisfies the balance and catalog invariant |
| Constants.VipDataLevels | components/constants.tsx:5-17 | the built-in catalog has 11 tiers and tier i+1 sits at position i, so levels are unique and strictly ascending |
| Constants.VipDataEconomics | components/constants.tsx:5-17 | price and daily profit strictly increase with level; every tier has one task a day and 200 days' validity |
| Constants.BanglaDigitsCodePoints | components/constants.tsx:20 | the digit array is the ten consecutive code points U+09E6..U+09EF |
| Constants.BanglaMapAgrees | components/constants.tsx:28-31 | the lookup table's keys are exactly the ASCII digits and each maps to the same Bangla digit as the array |
| Constants.ToBanglaNum | components/constants.tsx:19-22 | length is kept; each ASCII digit d becomes the d-th Bangla digit; other characters are kept; no ASCII digit remains |
| Constants.ToBanglaNumber | components/constants.tsx:19-22 | a number's decimal spelling transliterated: reading the Bangla digits back gives the spelling, and for a non-negative number the result is Bangla digits only and denotes the number |
| Constants.ToBanglaIdempotent | components/constants.tsx:21 | transliterating twice equals transliterating once |
| Constants.BanglaRoundTrip | components/constants.tsx:19-22 | on text with no Bangla digits, reversing the transliteration gives the text back |
| Catalog.FindLevel | pages/Tasks.tsx:17 | the result is the first catalog entry whose level equals the held tier; none exactly when no tier is held or no entry has that level |
| Catalog.FindLevelUnique | pages/Home.tsx:12 | when levels are unique, looking up an entry's level returns that entry |
| Tasks.RemainingCooldown | pages/Tasks.tsx:20-33 | none when no task was ever done or 24h have passed; otherwise a positive remainder that ends exactly at last + 24h |
| Tasks.CooldownBounds | pages/Tasks.tsx:25-32 | when the clock has not gone backwards, a running cooldown lies in (0, 24h] |
| Tasks.CooldownNonIncreasing | pages/Tasks.tsx:25-32 | a later time never has a longer or newly started cooldown |
| Tasks.CompleteTask | pages/Tasks.tsx:40-74 | rejects with NoActiveMembership when no catalog entry matches the tier, then with CooldownActive; otherwise both balances rise by the tier's daily profit, the completion time is now, one approved PROFIT of that amount is logged with details "Daily task profit from <tier name>", and nothing else changes |
| Tasks.SecondTaskWithinDayRejected | pages/Tasks.tsx:46-49 | a second completion within 24 hours of a successful one is rejected with CooldownActive |
| Tasks.TaskAvailableAfterDay | pages/Tasks.tsx:28-32 | 24 hours after a successful completion the task succeeds again |
| Tasks.ClockFields | pages/Tasks.tsx:76-79 | hours < 24, minutes < 60, seconds < 60, and together they spell the whole seconds of the input modulo one day |
| Tasks.Pad2 | pages/Tasks.tsx:81-83 | the padded field is two decimal digits whose value is the number |
| Tasks.FormatTime | pages/Tasks.tsx:76-86 | eight characters: Bangla digits with ':' at positions 2 and 5 |
| Tasks.FormatTimeReadsBack | pages/Tasks.tsx:76-86 | reading the three fields of the face back gives the hours, minutes and seconds |
| VipMarket.Unlock | pages/VIPMarket.tsx:16-52 | rejects a target not above a held non-zero tier, then a price above the withdrawable balance (an equal balance passes); on success withdrawable falls by exactly the price, total is unchanged, the tier and expiry now + validity days are set, one approved WITHDRAW of the price for this user is logged with details "VIP Level <n> Purchase", and nothing else changes |
| VipMarket.UpgradeChargesFullPrice | pages/VIPMarket.tsx:33-38 | the charge does not depend on the tier held before: no credit for the old tier |
| VipMarket.RepurchaseRejected | pages/VIPMarket.tsx:17-20 | after buying a non-zero tier, buying it again is rejected with AlreadyHigherOrEqualTier |
| VipMarket.UnlockKeepsBalanceNonNegative | pages/VIPMarket.tsx:21-24 | a successful purchase leaves a non-negative withdrawable balance |
| Wallet.UserTransactions | pages/Wallet.tsx:24 | the history holds exactly the user's transactions, each as often as in the log |
| Wallet.HistoryAfterRequest | pages/Wallet.tsx:24 | a new entry shows first in its owner's history and in no one else's, and the rest keeps its order |
| Wallet.RequestDeposit | pages/Wallet.tsx:26-46 | rejects NaN or an amount below 500 with BelowMinimum; otherwise logs one PENDING DEPOSIT of the amount for this user with details "Deposit request via <method>" and leaves the user and balances untouched |
| Wallet.ExpectedPin | pages/Wallet.tsx:60 | the stored PIN when it is set and non-empty, `"1234"` when it is null or empty; never empty |
| Wallet.RequestWithdrawal | pages/Wallet.tsx:48-83 | rejects, in order, NaN or below the configured minimum, above the withdrawable balance, a wrong PIN; succeeds exactly when all pass; then both balances fall by the amount and one PENDING WITHDRAW with details "Withdrawal request" is logged |
| Wallet.WithdrawAll | pages/Wallet.tsx:56 | withdrawing the whole withdrawable balance is allowed and leaves zero |
| AdminPanel.SaveSettings | pages/AdminPanel.tsx:34-39 | rejects NaN or a negative minimum; otherwise, zero included, the minimum becomes the input |
| AdminPanel.ApplyEdit | pages/AdminPanel.tsx:107-122 | one form change sets the typed field (name, price, daily profit or image) to the typed value and leaves every other field as it was |
| AdminPanel.ApplyEdits | pages/AdminPanel.tsx:107-122 | any editing session keeps the level key, task capacity and validity |
| AdminPanel.ReplaceLevel | pages/AdminPanel.tsx:48 | same length and order, every position keeps its level; exactly the entries with the edited level are replaced; no match leaves the list unchanged |
| AdminPanel.SoundEditsKeepEconomics | pages/AdminPanel.tsx:107-122 | an editing session that never types a negative price or profit leaves a tier with none |
| AdminPanel.SaveVip | pages/AdminPanel.tsx:46-52 | nothing happens when no tier is being edited; otherwise every entry with the edited level becomes the edit and every other entry stays; length and each position's level are kept |
| AdminPanel.EditKeepsCatalogKeys | pages/AdminPanel.tsx:46-52 | saving an edit of entry i puts the edit at i and keeps the length and every position's level |
| AdminPanel.PendingWithdrawals | pages/AdminPanel.tsx:24 | exactly the WITHDRAW and PENDING transactions, each as often as in the log, so the badge count is theirs |
| AdminPanel.PendingDeposits | pages/AdminPanel.tsx:25 | exactly the DEPOSIT and PENDING transactions, each as often as in the log |
| AdminPanel.OpenSupport | pages/AdminPanel.tsx:26 | exactly the tickets not RESOLVED, each as often as in the log |
| AdminPanel.ResolveToken | pages/AdminPanel.tsx:166 | the resolved ticket leaves the open queue, every other open ticket stays and none joins; the ticket with that id becomes RESOLVED and every other ticket is untouched, position by position |
| Home.CeilDiv | pages/Home.tsx:19 | `Math.ceil(a / d)`: the least q with a <= q*d |
| Home.RemainingDays | pages/Home.tsx:14-21 | none exactly when there is no expiry; otherwise never negative, 0 once now reaches the expiry, and before that the number of days rounded up |
| Home.RemainingDaysNonIncreasing | pages/Home.tsx:18-20 | the days left never grow as time passes |
| Home.ActiveLevel | pages/Home.tsx:12 | the tier card is the first catalog entry with the held level, or none exactly when no entry matches |
| Register.Register | pages/Register.tsx:19-45 | rejects an empty username, phone or password, then differing passwords; otherwise the name and phone are copied, both balances are 0, tier, expiry, PIN and last task are null, the user is neither blocked nor admin, and the referrer is the code exactly when one was entered |
| Support.UserTokens | pages/Support.tsx:18 | exactly the tickets of this user, each as often as in the log |
| Support.SubmitTicket | pages/Support.tsx:20-38 | an empty subject or message files nothing; otherwise one OPEN ticket with this user's id and name and the entered text goes in front |
| Support.SubmittedTicketListed | pages/Support.tsx:18 | a filed ticket appears in its owner's list |
| Support.StatusBadgeDistinct | pages/Support.tsx:40-49 | each of the three statuses has its own non-empty badge |
| Profile.ReferralCode | pages/Profile.tsx:19 | "NCP" followed by the upper-cased first min(6, length) characters of the id; length 3 + min(6, length) |
| Profile.ReferralCodeDependsOnPrefix | pages/Profile.tsx:19 | ids that agree, ignoring case, on their first six characters give the same code |
| Profile.ProfileLevel | pages/Profile.tsx:16 | the badge comes from the built-in catalog: tier 1..11 gives its built-in entry, anything else none |
| Engine.Step | App.tsx:133-143 | an action adds at most one transaction, in front; tickets only gain one in front, or, on resolving, change status and nothing else; the tier card already held offers no purchase; only tier saving changes the catalog, and no action changes its length or any position's level; only settings change the config; page actions keep the logged-in user's identity |
| Engine.StepSound | pages/Wallet.tsx:56-70 | every handler keeps 0 <= withdrawable <= total, given a catalog with no negative price or profit, a logged-in user whose balances satisfy it, and tier edits that type no negative price or profit |
| Engine.RunSound | pages/VIPMarket.tsx:21-36 | the balance invariant holds after any run of actions whose logins bring users with sound balances and whose tier edits type no negative price or profit |
| Engine.NegativePriceBreaksBalances | pages/AdminPanel.tsx:113 | without that condition the invariant fails: an admin holding nothing who saves a price of -1000 for the first tier and buys it ends with 1000 withdrawable and 0 total |
| Engine.RunKeepsCatalogKeys | pages/AdminPanel.tsx:46-52 | after any run the catalog has the same length and the same level at every position |
| Engine.DepositReachesQueue | pages/AdminPanel.tsx:25 | an accepted deposit request is first in the log, in the admin's pending-deposit queue, not in the withdrawal queue, and in the user's history |
| Engine.WithdrawalReachesQueue | pages/AdminPanel.tsx:24 | an accepted withdrawal request is first in the log, in the admin's pending-withdrawal queue and in the user's history; a tier purchase's entry is not in that queue |
| Engine.FiledTicketIsOpen | pages/AdminPanel.tsx:26 | a filed ticket is in the admin's open-ticket queue |
| Engine.SettingsGovernWithdrawal | pages/AdminPanel.tsx:34-39 | after an admin saves minimum m, a withdrawal of m is not refused as below the minimum and every smaller amount is |
| Engine.ResolveKeepsTickets | pages/AdminPanel.tsx:166 | resolving a ticket leaves every ticket as it was apart from its status |
| Engine.RunKeepsLog | App.tsx:82-93 | after any run, the old transaction log is intact behind at most one new entry per action |
| Engine.StepKeepsTickets | App.tsx:95-115 | one action puts at most one ticket in front of the list and otherwise changes statuses only |
| Engine.RunKeepsTickets | App.tsx:95-115 | after any run, no ticket is deleted, and apart from their status the old tickets are intact in order behind at most one new ticket per action |
| Engine.RunKeepsLedger | App.tsx:82-115 | after any run, the old transaction log is intact behind at most one new entry per action; the old tickets, apart from their status, are intact in order behind at most one new ticket per action |
| Engine.TotalFallsOnlyOnWithdrawal | pages/VIPMarket.tsx:35-36 | in a store whose balances are sound and whose catalog has no negative price or daily profit, no action other than a withdrawal (or a change of session) lowers the total balance; the admin form accepts negative numbers, and after one a task lowers it |
| Engine.NewUserCannotTask | pages/Register.tsx:33 | a freshly registered user has no tier, so the task is rejected with NoActiveMembership |
| Engine.PurchaseThenTaskScenario | pages/VIPMarket.tsx:29-46 | 10000 buys tier 1: 9000 withdrawable, total 10000, expiry now + 200 days, one 1000 WITHDRAW; the task adds 200 to both balances; a second task a second later changes nothing |
| Engine.RefusedRequestsScenario | pages/Wallet.tsx:28-63 | a 400 deposit and a wrong-PIN 600 withdrawal leave the store unchanged |

## Left out

- Rendering, styling, routing components, and the progress-ring arithmetic (pages/Tasks.tsx:121-128) are presentation and floating point.
- Local-storage loading and saving, and the JSON round trip (App.tsx:31-48 and the `setItem` calls), are I/O. The store lives in memory.
- `setTimeout` and `setInterval` are left out. Each handler is one atomic step. The handlers' captured user can be stale between the click and the timeout, a concurrency artifact that is not modelled. The task page's `cooldown` state is recomputed at the click instead of read from the last interval tick.
- `Math.random` ids, `new Date()`, ISO strings and `setDate` calendar and daylight-saving behaviour are left out. Ids and `now` are parameters, a day is exactly 86,400,000 ms, and one `now` serves a whole handler.
- `parseFloat` and `Number` parsing are left out. Amounts arrive parsed as integers, or as `None` for NaN. Fractional amounts are not modelled.
- `formatCurrency` depends on the locale's `toLocaleString`, so it is left out.
- `window.confirm` is treated as confirmed. `alert`, the clipboard, sharing, and the register URL built from `window.location` are browser APIs.
- Login's hard-coded credential check (pages/Login.tsx) is left out. Any user can be logged in through `Engine.LogIn`.
- The admin panel's `mockUsers` list and its user view are left out. So is the "1% charge" that only appears in display text.
- The unused `TaskHistory` type is left out.
- Tasks.FormatTime: takes a non-negative count of milliseconds. The only caller passes a running cooldown, which is positive, so negative inputs are not modelled.
- Profile.ReferralCode: `toUpperCase` is modelled for ASCII letters only. Ids are base-36 strings, so no other characters occur.
- Engine.StepSound: stated only for sound actions. The tier edit form stores `Number(...)` unchecked (pages/AdminPanel.tsx:113, 117), so the source itself lets an admin break the invariant; `Engine.NegativePriceBreaksBalances` shows how.
- Engine.RunSound: holds only for runs of sound actions, for the same reason; a login is assumed to bring a user with sound balances.
- Engine.Step: `BuyVip` names a position in the listed catalog, because the market page only offers listed tiers. Calling `VipMarket.Unlock` directly accepts any tier.
- Engine.Step: `SaveVip` names the position of the tier whose Edit button was pressed, plus the form changes typed since. The form state between clicks is folded into that one action.
