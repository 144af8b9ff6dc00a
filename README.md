# discord-coins: a verified model of the coin ledger

This project models the coin ledger of the discord-coins bot. Server members earn
coins in three ways:

- staying in a voice channel with other unmuted members (the per-minute `coins_tick`);
- chatting in allow-listed text channels;
- receiving a role that carries a configured bonus.

They spend coins by paying each other, depositing into their company's bank, and
buying services. Companies buy company services from their own balance.

The ledger is the `Economy.Ledger` class. It holds the bot's two tables as maps:

- `users`: member id to balance, blacklist flag, company and donations;
- `companies`: name to tag, category, role, faction and balance.

Every database operation of `cogs/economy.py` is a method of the class, and its new
state is given by an effect function on the maps (`Added`, `WithBalance`, `Transfer`, `Donate`,
`CreditAll`, ...). The effect functions and the lemmas about them state what the
bot promises:

- the sentinel answers (`-1`, `None`, `(0, 0)`);
- that nothing else changes;
- conservation of coins under payment and deposit;
- additivity of accrual;
- that the schema's constraints are kept.

Around the ledger sit the pure decision rules, each a function with its contract:

- the command gate and the guards of the commands;
- the chat-coin gate and its allow-list lookup;
- parsing of the allow-list from the configuration;
- classification of command errors and of lost database connections;
- the staff and company-membership tests.

Modules follow the source files:

- `Database`: `database.py`;
- `Companies`: `cogs/companies.py`;
- `Economy`: `cogs/economy.py`;
- `UserCog`: `cogs/user.py`;
- `Coins`: `coins.py`.

Three support modules hold what Python's standard library provides:

- `Text`: `str.lower`, `str.strip`, `int`;
- `Seqs`: `sorted`, `bisect_left`;
- `Totals`: sums over a table.

`Wrappers` has `Option` and `Result`.

The blacklist flag stops only the voice tick and the commands:

- `payment` (cogs/economy.py:162-194) never reads the receiver's flag. The only blacklist test on the way to it is `cog_check` (cogs/user.py:39-40), and that test is on the author, so a blacklisted member can still be paid.
- Chat coins (cogs/user.py:44-55) go through `add_to_balance`, which ignores the flag, so a blacklisted member still earns chat coins.

## Model

| member | source | states |
|---|---|---|
| Database.NewUser | database.py:22-30 | a new user row has the given balance, is not blacklisted, has no company and no donations |
| Database.NewCompany | database.py:35-44 | a new company row starts at balance 0 with the given tag, category and role |
| Database.DeleteCompany | database.py:28 | ON DELETE SET NULL: the company row goes, its members lose their company and keep everything else, other rows are unchanged, and the schema (foreign key, column widths, unique tag) stays valid |
| Database.RenameCompany | database.py:28 | ON UPDATE CASCADE: the row moves to a free name, its members follow it, every other row is unchanged, and the schema stays valid |
| Database.CheckConnectionAsWritten | database.py:53-69 | as written: a successful probe uses the connection and every failure, lost connections included, is re-raised unchanged, since the driver's error is not the class the `except` names |
| Database.CheckConnection | database.py:53-69 | as intended: a successful probe uses the connection; a driver OperationalError with code 2006, 2013 or 2055, and only such an error, becomes a disconnection; every other failure is re-raised unchanged |
| Database.LostConnectionNotRetried | database.py:62-67 | the two listeners differ exactly on the three lost-connection codes, where the one as written re-raises instead of asking the pool to retry |
| Companies.IsStaff | cogs/companies.py:17-21 | staff exactly when the member holds the governatore or the console role; nobody is staff when neither role exists |
| Companies.GetCompanyFor | cogs/companies.py:23-32 | None without a row, otherwise the row's company (itself possibly None); a company it names is a row of `companies` whenever the schema holds |
| Economy.Added | cogs/economy.py:102-116 | add_to_balance: an existing row gains `amount` in its balance only, a missing row is created with balance `amount` and defaults elsewhere, every other row is unchanged |
| Economy.AddedTwice | cogs/economy.py:102-116 | two successive add_to_balance calls for one member equal one call with the sum, negative amounts included |
| Economy.WithBalance | cogs/economy.py:82-87 | set_balance: the member's balance becomes `amount`, creating the row with defaults if absent, and no other field or row changes |
| Economy.WithBlacklisted | cogs/economy.py:140-152 | blacklist / remove_from_blacklist: only the flag of that member changes, creating a row with balance 0 if absent |
| Economy.WithBlacklistedIdempotent | cogs/economy.py:140-152 | setting the same flag twice is setting it once |
| Economy.BlacklistAll | cogs/economy.py:154-160 | blacklist_role: every member of the role ends flagged, only flags change on existing rows, new rows are default rows with the flag, non-members are untouched |
| Economy.BlacklistAllValid | cogs/economy.py:154-160 | flagging members keeps the schema valid |
| Economy.Transfer | cogs/economy.py:184-190 | the sender loses `amount`, the receiver (created with balance 0 if absent) gains it, the two balances' sum is kept, every other row is unchanged |
| Economy.TransferConserves | cogs/economy.py:184-190 | a payment keeps the total of all balances |
| Economy.Donate | cogs/economy.py:200-208 | company_deposit's update: sender balance down by `amount`, donations and the company's balance up by `amount`, nothing else changes |
| Economy.DonateConserves | cogs/economy.py:200-208 | a deposit keeps the schema valid, the donations rise by exactly what the company gains, and the coins of members and companies together are conserved |
| Economy.EligibleIds | cogs/economy.py:49-53 | the eligible ids are exactly those members who are not afk, hold the accrual role and are neither muted nor deafened, in any of the four ways |
| Economy.EligibleIdsCount | cogs/economy.py:49-53 | `unmuted` has one entry per eligible member: its length is the number of eligible positions, and each id occurs as often as it sits at an eligible position |
| Economy.Unmuted | cogs/economy.py:48-53 | the loop gathering `unmuted` yields the eligible ids in channel order |
| Economy.ChannelCredits | cogs/economy.py:46-55 | a channel credits nobody unless two or more of its members are eligible, and then all of them |
| Economy.ChannelCreditsThreshold | cogs/economy.py:46-55 | a channel credits anyone exactly when at least two of its member positions are eligible |
| Economy.Credit | cogs/economy.py:57-66 | one tick credit: a blacklisted row is unchanged, any other member gets add_to_balance of the gain |
| Economy.CreditAll | cogs/economy.py:56-66 | crediting a list in order leaves a row for every member already present and every member credited, and no other |
| Economy.CreditAllConcat | cogs/economy.py:42-66 | crediting two lists in turn is crediting their concatenation |
| Economy.CreditAllAt | cogs/economy.py:56-66 | accrual is additive: a member listed n times gains n times the gain unless blacklisted, and a new member gets a row with n times the gain |
| Economy.CreditAllValid | cogs/economy.py:56-66 | accrual keeps the schema valid |
| Economy.GuildCredits | cogs/economy.py:45-55 | a guild credits exactly the members some one of its channels credits |
| Economy.TickCredits | cogs/economy.py:42-55 | a tick credits exactly the members some guild credits |
| Economy.TickCreditsMembers | cogs/economy.py:42-55 | a tick credits exactly the members some channel of some guild credits |
| Economy.NewRole | cogs/economy.py:77 | the first role of `after` missing from `before`, and None exactly when there is none (where Python raises StopIteration) |
| Economy.SpecialBonus | cogs/economy.py:75-79 | a bonus only when the role list grew and the first gained role has a configured bonus, and then that bonus |
| Economy.GrownRolesHaveNewRole | cogs/economy.py:76-77 | a member's roles are distinct, so a grown role list always contains a gained role and the search cannot fail |
| Economy.UserPurchase | cogs/economy.py:265-299 | buy_service's debit: -1 and no change without a row or, unforced, below the cost; forced returns the balance unchanged; otherwise debits the cost and returns the new balance |
| Economy.CompanyPurchase | cogs/economy.py:310-346 | the same debit decision against the company row under the lower-cased name |
| Economy.ForcedPurchaseLooksRefused | cogs/economy.py:267-270 | a forced purchase by a member holding -1 returns the same -1 a refusal returns |
| Economy.Ledger.GetBalance | cogs/economy.py:118-127 | (balance, donations) of the row, or (0, 0) without one |
| Economy.Ledger.GetCompanyBalance | cogs/economy.py:129-138 | the balance of the company with exactly that name, or 0 |
| Economy.Ledger.IsBlacklisted | cogs/economy.py:26-35 | true exactly when a row exists and is flagged |
| Economy.Ledger.AddToBalance | cogs/economy.py:102-116 | the users table becomes Added of the old one, and the new balance is returned |
| Economy.Ledger.SetBalance | cogs/economy.py:82-87 | the users table becomes WithBalance of the old one |
| Economy.Ledger.SetCompanyBalance | cogs/economy.py:89-100 | None and no change when no company has exactly that name, otherwise the balance is set and `amount` returned |
| Economy.Ledger.Blacklist | cogs/economy.py:140-145 | the users table becomes WithBlacklisted(true) of the old one |
| Economy.Ledger.RemoveFromBlacklist | cogs/economy.py:147-152 | the users table becomes WithBlacklisted(false) of the old one |
| Economy.Ledger.BlacklistRole | cogs/economy.py:154-160 | the loop leaves the users table equal to BlacklistAll of the old one |
| Economy.Ledger.Payment | cogs/economy.py:162-194 | -1 and no change when the sender has no row or too few coins; otherwise the table becomes Transfer of the old one and the sender's new balance is returned |
| Economy.Ledger.CompanyDeposit | cogs/economy.py:196-211 | -1 and no change when the sender has no row or too few coins; otherwise the tables become Donate of the old ones and the sender's new balance is returned |
| Economy.Ledger.CoinsTick | cogs/economy.py:37-68 | one tick leaves the users table equal to crediting, in order, everyone every channel of every guild credits; companies are untouched |
| Economy.Ledger.CreditGuild | cogs/economy.py:45-66 | the channel loop of one guild credits what its channels credit, in order |
| Economy.Ledger.CreditChannel | cogs/economy.py:46-66 | one channel credits its ChannelCredits |
| Economy.Ledger.CreditEach | cogs/economy.py:56-66 | the credit loop applies Credit to each listed member in order |
| Economy.Ledger.OnMemberUpdate | cogs/economy.py:74-80 | the member is credited SpecialBonus when there is one; otherwise nothing changes |
| Economy.Ledger.BuyService | cogs/economy.py:256-299 | the users table and the returned value are UserPurchase of the old table |
| Economy.Ledger.BuyCompanyService | cogs/economy.py:301-346 | the companies table and the returned value are CompanyPurchase under the lower-cased company name |
| UserCog.BinarySearch | cogs/user.py:11-14 | binary_search as written answers -1 or nothing |
| UserCog.BinarySearchAsWritten | cogs/user.py:11-14 | on a sorted list it answers -1 exactly when `x` is absent and some element exceeds it |
| UserCog.BinarySearchMissesLargerIds | cogs/user.py:11-14 | an id above every allow-listed channel is absent yet not reported as -1 |
| UserCog.Whitelisted | cogs/user.py:50-52 | the intended allow-list test: true only for listed ids, and for every listed id of a sorted list |
| Seqs.BisectLeft | cogs/user.py:12 | bisect_left: every element before the result is below `x`, every element from it on is at least `x` |
| UserCog.ChatCredit | cogs/user.py:44-55 | on a sorted allow-list, a message earns coins exactly when its author is not a bot, it is in a text channel, the allow-list is empty, lists the channel or has every id below the channel's, and it is long enough; it then earns `coins_for_message` |
| UserCog.OnMessage | cogs/user.py:44-55 | the author is credited ChatCredit through add_to_balance, and nothing changes when there is none |
| UserCog.ChatCreditIntended | cogs/user.py:44-55 | the intended gate: as ChatCredit, but a non-empty allow-list admits exactly the listed channels |
| UserCog.ChatCreditDiffers | cogs/user.py:50-52 | the gate as written credits whatever the intended one credits, and differs from it exactly for a creditable message in a channel above every id of a non-empty allow-list |
| UserCog.ChatCreditAboveListedIds | cogs/user.py:50-55 | allow-list [10], a message in channel 20: credited as written, not as intended |
| UserCog.CogCheck | cogs/user.py:33-41 | denied exactly when a command channel is set, the author is no administrator and the channel differs; the blacklist error exactly when not denied and `is_blacklisted` holds for the author (a row exists and is flagged); allowed otherwise |
| UserCog.Pay | cogs/user.py:87-99 | disabled for non-administrators and non-positive amounts are refused without touching the ledger; then a -1 from payment (no row or too few coins, paying oneself included) is "not enough coins" and success reports the transfer |
| UserCog.CompanyDepositCommand | cogs/user.py:101-118 | the two refusals of pay, then "not in a company"; the ledger is called only after all three checks, and its -1 is "not enough coins" |
| UserCog.Matches | cogs/user.py:212-213 | the services whose name equals the request once both are lower-cased |
| Text.Lower | cogs/user.py:213 | lower-casing keeps the length and maps each character by itself, ASCII capitals to small letters |
| Text.LowerIdempotent | cogs/user.py:213 | lower-casing twice is lower-casing once |
| UserCog.MatchesIgnoresCase | cogs/user.py:212-213 | requests that lower-case alike find the same services in the same order |
| UserCog.MatchesLowerRequest | cogs/user.py:212-213 | lower-casing the request first changes nothing, because the comparison already lower-cases it |
| UserCog.UserServiceRun | cogs/user.py:212-219 | one reply per service bought |
| UserCog.UserServiceRunReplies | cogs/user.py:215-219 | each reply is "bought" naming its service, or "not enough coins" |
| UserCog.UserServiceRunEffect | cogs/user.py:212-219 | only the buyer's balance moves; a forced run or a buyer without a row changes nothing; unforced, the balance falls by exactly the cost of the purchases reported made and never below zero from a non-negative start |
| UserCog.GiveUserServiceSpec | cogs/user.py:208-222 | "service not found" exactly when no service matches; only the buyer's row changes and it stays non-negative |
| UserCog.GiveUserService | cogs/user.py:208-222 | the loop's ledger and replies equal GiveUserServiceSpec |
| UserCog.CompanyServiceRun | cogs/user.py:234-241 | one reply per company service bought |
| UserCog.CompanyServiceRunReplies | cogs/user.py:237-241 | each reply is "bought" naming its service, or "not enough coins" |
| UserCog.CompanyServiceRunEffect | cogs/user.py:234-241 | only the company's balance moves, by exactly the cost of the purchases reported made when unforced, and never below zero from a non-negative start |
| UserCog.CompanyServiceRunValid | cogs/user.py:234-241 | company purchases keep the schema valid |
| UserCog.GiveCompanyServiceSpec | cogs/user.py:224-246 | "not in a company" exactly without a company, then "not a company administrator" exactly without a staff role, "service not found" exactly when no service matches; only the company row stored under the lower-cased company name can change, whichever company that row belongs to |
| UserCog.CompanyServiceRunNoRow | cogs/economy.py:310-313 | when no company is stored under the lower-cased name (a company whose stored name has capitals, with no other company under its lower-cased form), no balance moves and every purchase answers "not enough coins" |
| UserCog.GiveCompanyService | cogs/user.py:224-246 | the command's companies table and replies equal GiveCompanyServiceSpec, and users are untouched |
| UserCog.BuyMatchingCompanyServices | cogs/user.py:231-244 | the loop finds a service exactly when one matches and buys each match in turn |
| Coins.NonEmpty | coins.py:43-44 | the entries looked at are never more than the value has and never empty |
| Coins.NonEmptyMembers | coins.py:43-44 | the entries kept are exactly the non-empty ones |
| Coins.NonEmptyCount | coins.py:43-44 | each non-empty entry is kept as often as it occurs and the empty ones are dropped, so as many entries are kept as are non-empty |
| Coins.ParseEntry | coins.py:45 | an entry of only whitespace does not parse |
| Text.Strip | coins.py:45 | the stripped text is the input with a whitespace prefix and a whitespace suffix removed, has no whitespace at either end, and is empty exactly for all-whitespace text |
| Text.ParseInt | coins.py:45 | int() accepts exactly an optionally signed non-empty run of digits, and gives the digits' value, negated after a minus sign |
| Text.ParseShow | coins.py:45 | parsing a printed integer gives it back |
| Coins.ParseEach | coins.py:43-45 | a successful parse has one value per entry |
| Coins.ParseEachMeaning | coins.py:43-45 | parsing succeeds exactly when every entry parses, then each value is its entry's; a failure names an entry that does not parse |
| Coins.FailurePersists | coins.py:43-45 | the first failing entry is the one reported, whatever follows |
| Seqs.Sort | coins.py:46 | sorted: ascending, a permutation, same length |
| Coins.SortedIdList | coins.py:41-46 | the first bad entry is reported; otherwise the ids are ascending, a permutation of the parsed non-empty entries, and as many as the value has non-empty entries, duplicates kept |
| Coins.BlankEntryRejected | coins.py:44-45 | a whitespace-only entry passes the emptiness test but makes the list fail |
| Coins.OnCommandError | coins.py:69-82 | each outcome exactly for its errors: usage errors show the usage, bad arguments get their message, a check failure is reported only for the Admin cog, blacklisted members are told so, unknown commands and other cogs' check failures are silent, all else goes to the default handler |
| Coins.GloballyBlockDms | coins.py:84-85 | a command is allowed exactly when it comes from a guild |

## Left out

- Discord I/O is not modelled: embeds, notifications, private channels, channel positions and the role added by `buy_service`/`buy_company_service` (cogs/economy.py:275-295, 321-341). Replies are `UserCog.Reply` values, and the Discord objects are parameters: message, voice states, roles, administrator flag, configuration values.
- SQLAlchemy sessions, merges, commits, the MySQL engine and the pool are not modelled. Each operation is one atomic update of the two maps. Only the pool's checkout listener is modelled.
- The `tasks.loop` scheduler, `timeit`, the slow-tick warning and the no-op `guild.unavailable` test (cogs/economy.py:37-44, 69-72) are not modelled.
- Balances, donations and `coins_for_message` are `Float` columns and a float setting in the source. Here they are unbounded integers, so rounding is not modelled.
- cogs/admin.py is not part of this model. Its commands are thin wrappers over the ledger operations modelled here.
- Config loading and validation, message formatting, logging and start-up role lookup are not modelled. The start-up role lookup appears only as the `Option` role ids of `IsStaff`. Configuration values are parameters. `SortedIdList` takes the value as a sequence of entries, so a single-entry value, which the validator would iterate character by character, is not modelled.
- The ranking queries `top`, `companies_top` and `company_top_donors` are not modelled. They are ordered, limited SQL queries rendered into embeds.
- Text.Lower: lower-cases ASCII letters only, because Unicode case mapping is not modelled. Text.Strip likewise strips ASCII whitespace only.
- Text.ParseInt: does not accept the underscores, surrounding whitespace or non-ASCII digits that Python's `int()` accepts.
- Special-role keys are strings in the configuration (`str(new_role.id)`, cogs/economy.py:78). Here they are a map from role ids, so a key that is not a decimal id cannot be represented.
- Economy.Ledger.Payment: requires a sender able to pay to differ from the receiver. For a sender paying themselves with enough coins, the source adds a second row under the same id and its commit fails; without a row or with too few coins it returns -1 before any commit, as modelled.
- Economy.Ledger.CompanyDeposit: requires that a sender able to pay has a company. The source would fail on the missing company, and the command checks first (cogs/user.py:110-113).
- UserCog.Pay: requires an author able to pay a positive amount to differ from the receiver, for the same reason as `Payment`; a member who mentions themselves without enough coins is answered "not enough coins", as modelled.
- Database.CheckConnection: the exceptions are a three-way datatype of driver errors, so the exception class hierarchy and the `args` tuple are not modelled; which class reaches the listener is a reading of the driver and pool semantics (see Findings).
- Company lookups by name (`filter_by(name=...)`, cogs/economy.py:91, 131, 310) are modelled as exact string comparison. A case-insensitive database collation would also find "Roma" when "roma" is asked for; that is not modelled.
- Economy.NewRole: returns None where `next` raises StopIteration. That case cannot arise for a grown list of distinct roles (`GrownRolesHaveNewRole`).
- UserCog.CogCheck: takes the `''` command-channel setting (no command channel) as `None`.

## Findings

| source | as written | input that shows it | evidently intended | confidence | as-written member | corrected member |
|---|---|---|---|---|---|---|
| cogs/user.py:11-14 | `binary_search` returns -1 only when the first position not below the id holds another id. When every listed id is smaller, it returns None, and `on_message` does not reject the channel | allow-list `[10]`, message in channel `20`: bisect_left gives 1 = len, so the result is None and the message earns coins | a channel earns chat coins only when it is on a non-empty allow-list | high; not executed | UserCog.ChatCreditAboveListedIds | UserCog.ChatCreditIntended |
| database.py:59-67 | the listener receives the raw driver connection, so a failed `SELECT 1` raises the MySQL driver's `OperationalError`, not the SQLAlchemy class the `except` names; every failure propagates and a lost connection is never turned into a disconnection | a probe failing with driver error code 2006 (server has gone away): re-raised instead of `DisconnectionError`, so the pool does not retry | the three lost-connection codes become a disconnection and the pool retries on a fresh connection | medium (reading of the driver and pool semantics); not executed | Database.LostConnectionNotRetried | Database.CheckConnection |
