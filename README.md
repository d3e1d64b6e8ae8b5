# task-earnings-bot in Dafny

This project models the core of the "FonPay Task Earnings" Telegram bot, an
"earn by watching ads" bot backed by PostgreSQL. It covers five parts:

- **The Telegraf bot of `server.js`** (`server.dfy`, module `Server`). The
  `Bot` class holds the `users` rows and the `ads.watched_count` counters, keyed
  by `telegram_id`. `Start` registers a sender unless they are already known.
  `PerformTask` follows the "🎯 Perform Task" handler statement by statement:
  read the count, insert the `ads` row if there is none, then either credit and
  reset (count at 10 or more) or increment, crediting again when the count
  reaches 10. The same handler as a pure transition, `Press`, carries the
  lemmas: the three cases, the frame, the 0..10 range and the 20-per-11-presses
  cycle. Routing of text messages to the `bot.hears` handlers and to the
  "Invalid text" catch-all is modelled by `Route` and `InvalidText`.
- **The webhook handler of `src/telegram.js`** (`webhook.dfy`, module
  `Webhook`), written as pure functions. It picks the update's message, trims
  the text with JavaScript's white-space set, splits it on `" "`, drops empty
  pieces and lower-cases the first one. The if/else chain then picks exactly
  one reply, including the `/approve` admin gate and the `/task` and
  `/referral` links. `Handle` returns the reply (sending it is I/O) and the
  HTTP answer.
- **The schema and settings of `src/db.js`** (`db.dfy`, module `Db`). Each
  `CREATE TABLE IF NOT EXISTS` statement is a catalog update, and a new row
  takes its column defaults. The `Database` class runs `initializeDatabase`
  and holds the `settings` rows used by `setSetting` (an upsert) and
  `getSetting` (which reads `value || null`).
- **The ad sessions of `src/utils.js` and the postback of `src/monetag.js`**
  (`sessions.dfy`, module `Sessions`). The `Store` class holds the users and
  the session table. It issues fresh session ids, marks a session completed by
  id, and answers the ad network's postback with 400, "OK" or 500.
- **Shared values** (`common.dfy`, module `Common`): `Option`, `Result`, and
  the decimal text `String(n)` gives an integer, with its injectivity.

The bot is meant to pay one credit per ten ads watched, per session. The
code does otherwise in places, and the model follows the code:

- The Perform Task handler credits at the press from 9 to 10 and again at the
  next press, so it pays 20 over 11 presses (`ElevenPressesCreditTwenty`),
  not 10.
- `completeAdView` completes a session outright; nothing counts the views of
  a session.
- The `INSERT ... ON CONFLICT (telegram_id) DO NOTHING` into `ads`
  (server.js:108) names a conflict target that the `ads` table (server.js:49-54)
  has no unique constraint for, so PostgreSQL rejects that statement. The model
  gives it its evident meaning: insert the row if there is none.
- `src/utils.js` writes to a `sessions(user_telegram_id, completed)` table that
  `src/db.js` never creates (it creates `ad_sessions(telegram_id, ...)`). The
  session table is therefore an abstract map from id to owner and completion.
- `src/telegram.js` uses `app` and `db`, which it never declares. The model
  treats them as the Express application and the database.
- The `/balance` command of `src/telegram.js` (line 80) selects `wallet_coins`
  from `users`. Neither `users` table has that column: `src/db.js` and
  server.js both create `coins` instead (`Db.NoWalletCoinsColumn`,
  `Server.ServerNoWalletCoinsColumn`). Against either schema the query raises
  an error, and the bot answers "Unable to fetch balance". The webhook model
  keeps the lookup abstract (`CoinsLookup`): `LookupFails` is that outcome,
  and `Rows` is what the command would do with such a column.

## Model

| member | source | states |
|---|---|---|
| Server.Bot.PerformTask | server.js:103-124 | the new `users`/`ads` state and the reply are exactly one `Press` of that user |
| Server.PressCases | server.js:110-122 | below 10 the count rises by exactly 1; 9→10 credits 10 and leaves the count at 10; at 10 or more it credits 10 and resets to 0 without incrementing |
| Server.PressFrame | server.js:111-121 | a press changes only the presser's rows, and their balance by 0 or +10 and nothing else in it |
| Server.PressKeepsRange | server.js:110-116 | a count in 0..10 stays in 0..10 |
| Server.PressesUpToTen | server.js:116-122 | from a count of 10-n, n presses reach 10 and credit once |
| Server.ElevenPressesCreditTwenty | server.js:111-122 | from count 0, 11 presses credit 10 twice (20 in all) and return the count to 0 |
| Server.Credit | server.js:112 | the UPDATE adds the amount to that user's balance, leaves other users alone, and changes nothing when the user has no row |
| Server.Register | server.js:78-83 | a new id gets a row with the sender's username, first and last name (`""` when missing), balance 0 and coins 0; every existing row is kept, so a known id leaves the table unchanged |
| Server.ServerNoWalletCoinsColumn | server.js:24-37 | server.js's `users` table has `coins` and no `wallet_coins` column |
| Server.Bot.ShowWallet | server.js:127-137 | the reply is the intended `Wallet` reply: the stored balance and coins exactly when the query succeeds and the sender has a row, otherwise the error reply |
| Server.Wallet | server.js:127-137 | the intended wallet reply shows the stored balance and coins exactly when the query succeeds and the sender has a row |
| Server.WalletAsWrittenAlwaysErrors | server.js:127-136 | as written, the handler answers "Error fetching wallet details" to every sender, because `toFixed` on pg's text form of the NUMERIC balance throws |
| Server.RegisteredSenderGetsWalletError | server.js:78-83 | a newly registered sender (balance 0) gets the error reply as written and `WalletShown(0, 0)` as intended |
| Server.RegisterIdempotent | server.js:78-83 | registering the same id twice is registering once |
| Server.Bot.Start | server.js:72-83 | `/start` makes the users table `Register(old users, sender)` and leaves `ads` alone |
| Server.NewUserMatchesSchema | server.js:24-37 | the registration insert succeeds on server.js's users table and fills balance and coins with their default 0 |
| Server.Includes | server.js:169 | `includes` holds exactly when some element equals the text |
| Server.InvalidText | server.js:168-171 | the invalid-text reply fires exactly when the text is none of the six labels |
| Server.RouteReachesCatchAllOnlyWithInvalidText | server.js:167-172 | the catch-all handler runs exactly for text that is not `/start` and not a label |
| Webhook.Trim | src/telegram.js:35 | the trimmed text neither starts nor ends with white space, and is empty exactly when the text is all white space |
| Webhook.TrimOnlyRemovesSpace | src/telegram.js:35 | the trimmed text is the slice of the text after its leading white space, followed only by white space |
| Webhook.TrimIdempotent | src/telegram.js:35 | trimming twice is trimming once |
| Webhook.Split | src/telegram.js:42 | `split(" ")` yields at least one piece, none containing a space |
| Webhook.JoinSplit | src/telegram.js:42 | joining the pieces with `" "` gives back the text |
| Webhook.SplitJoin | src/telegram.js:42 | splitting a join of space-free pieces gives back the pieces |
| Webhook.TokensShape | src/telegram.js:42 | after `filter(Boolean)` no token is empty or holds a space, and there are none exactly when the text is all spaces |
| Webhook.FirstToken | src/telegram.js:42-43 | a word after a run of spaces and before a space or the end is the first token |
| Webhook.LowerIdempotent | src/telegram.js:43 | lower-casing keeps the length, leaves no A-Z, and is idempotent |
| Webhook.CommandIsFirstWord | src/telegram.js:35-43 | the command is the lower-cased first word after the leading white space, when a space or only white space follows the word (`"/help\t"` is `/help`) |
| Webhook.CommandOfTrimmed | src/telegram.js:35-43 | for every text whose trimmed form is a word (no space in it) followed by a space or nothing, the command is that word lower-cased; with `BlankTextHasNoCommand` this covers every text |
| Webhook.BlankTextHasNoCommand | src/telegram.js:35-43 | a missing or all-white-space text has no command |
| Webhook.StripSchemeNoMatch | src/telegram.js:93 | with no `http://`/`https://` anywhere, the replace changes nothing |
| Webhook.StripSchemeFirstMatch | src/telegram.js:93 | with the leftmost match at i, exactly that match is removed |
| Webhook.StripSchemeFrom | src/telegram.js:93 | the same, for the text from position k on |
| Webhook.StripLeadingScheme | src/telegram.js:93 | a base of `https://h` or `http://h` becomes `h` |
| Webhook.LinksAndSchemes | src/telegram.js:76-94 | with BASE_URL `scheme+h`, the referral link is `https://h/r/<id>` while the task link keeps the scheme after `https://` |
| Webhook.LinksWithoutBaseUrl | src/telegram.js:76-94 | without BASE_URL both links are built on the Host header |
| Webhook.HandleOutcomes | src/telegram.js:27-111 | no message: no reply and 200 "no message"; a message with a chat: exactly the chain's reply and 200 "ok" |
| Webhook.CallbackUsesMessageText | src/telegram.js:29-35 | a button press is handled like its message, whatever its `callback_data` |
| Webhook.ApproveGate | src/telegram.js:99-104 | the admin reply fires exactly when the command starts with `/approve` and `String(userId)` equals the admin id; unknown-command exactly when no branch matches |
| Webhook.AdminGateUnique | src/telegram.js:57-99 | with no admin id nobody passes; with one, at most one sender id passes |
| Webhook.IdTextNotUndefined | src/telegram.js:99 | no integer id has the text "undefined", so a sender without an id is never the admin |
| Common.IntTextInjective | src/telegram.js:99 | distinct integers have distinct `String()` texts |
| Common.ParseDigitsOfDigits | src/telegram.js:99 | reading back the decimal digits of n gives n |
| Webhook.BlankTextIsUnknown | src/telegram.js:35-104 | a blank or missing text gets "Unknown command", from any sender |
| Webhook.MissingRowReportsZero | src/telegram.js:80-81 | a missing row or NULL `wallet_coins` reports 0 coins |
| Db.CreateIfNotExists | src/db.js:29-44 | the table exists afterwards, with its declared columns when it is new; an existing table and every other table keep their columns |
| Db.CreateAllKeys | src/db.js:26-124 | afterwards the database holds exactly the earlier tables and the ones the statements name |
| Db.CreateAllFresh | src/db.js:29-121 | on a database holding none of them, statements with distinct names create each table with exactly its declared columns |
| Db.SchemaNamesDistinct | src/db.js:29-121 | the nine tables of `initializeDatabase` have distinct names |
| Db.SchemaCreated | src/db.js:26-124 | `initializeDatabase` on a database holding none of its tables creates all nine with their declared columns, `users`, `withdrawals` and `ad_sessions` among them |
| Db.NoWalletCoinsColumn | src/db.js:30-43 | the `users` table has `coins` and no `wallet_coins` column, so the `/balance` query of src/telegram.js:80 fails against it |
| Db.CreateAllKeeps | src/db.js:26-124 | after the statements, every named table exists and every earlier table is unchanged |
| Db.CreateAllExisting | src/db.js:26-124 | statements whose tables all exist change nothing |
| Db.CreateAllIdempotent | src/db.js:29-121 | running `initializeDatabase` twice gives the schema of running it once |
| Db.Database.InitializeDatabase | src/db.js:26-124 | the catalog becomes the nine statements applied in order; settings are unchanged |
| Db.Database.CreateTables | src/db.js:29-121 | running statements in order gives `CreateAll` of them |
| Db.Insert | src/db.js:29-43 | an insert succeeds exactly when it names existing columns; the row has every column, the given values, and the defaults elsewhere |
| Db.InsertedDefault | src/db.js:36-41 | a column left out of a successful insert gets its declared default |
| Db.NewUserDefaults | src/db.js:30-43 | any `users` insert that names only existing columns and leaves out coins, balance, is_banned and referred_by gives coins 0, balance 0, is_banned false and no referrer |
| Db.NewWithdrawalPending | src/db.js:72 | a new withdrawal has status 'pending' |
| Db.NewAdSessionIncomplete | src/db.js:81 | a new ad session has completed false |
| Db.SettingValue | src/db.js:20-23 | the read value is present exactly when the key is stored with a non-empty value, and is that value |
| Db.SetThenGet | src/db.js:11-23 | after a set, a non-empty value reads back, NULL or "" reads as null, and other keys read as before |
| Db.Database.SetSetting | src/db.js:11-18 | the upsert replaces the key's value and keeps the other keys; it fails only without a settings table |
| Db.Database.GetSetting | src/db.js:20-23 | the read returns `value \|\| null`, and null for an absent key |
| Sessions.Completed | src/utils.js:16-18 | the named session becomes completed, the others are kept, and an unknown id changes nothing |
| Sessions.CompletedIdempotent | src/utils.js:17 | completing twice is completing once; two completions commute |
| Sessions.Store.GetUser | src/utils.js:3-6 | returns the row of that `telegram_id`, or nothing when there is none |
| Sessions.Store.StartTaskSession | src/utils.js:8-14 | adds exactly one session, owned by the user and not completed, under a fresh id that it returns |
| Sessions.Store.CompleteAdView | src/utils.js:16-18 | the session table becomes `Completed(old, id)`; a database failure writes nothing |
| Sessions.Store.HandleMonetagPostback | src/monetag.js:4-14 | the new session table and the answer are exactly `Postback` of the old table and the body |
| Sessions.PostbackOutcomes | src/monetag.js:4-14 | a falsy or missing sessionId answers 400 and changes nothing; a missing body or a failing update answers 500 and changes nothing; otherwise "OK" and that session completed; an unknown id changes nothing |
| Sessions.PostbackIdempotent | src/monetag.js:8 | a repeated postback leaves the table as the first successful one did |

## Left out

- Transport and plumbing are not modelled. That means `sendTelegram`, the axios call and the Telegram API, `bot.launch`, `app.listen` and the signal handlers. It also means the pg `Pool` setup and `client.release`, and `console` logging. A reply is modelled by which branch fires and the links it carries.
- Reply wording, Markdown/HTML formatting and keyboards are left out. So are the reply strings that break across raw lines inside quotes.
- Floating-point display is left out: `balance * rate` with `toFixed(4)` in `/balance`, and the two-decimal balance of the intended wallet reply. Coins and balances are integers. The throw of `balance?.toFixed(2)` on a text balance is modelled (see Findings).
- Concurrency is left out. Each Perform Task press runs as one sequential step, although the source reads and then updates without a transaction.
- The withdraw, refer, settings and help `bot.hears` handlers only send fixed or formatted text. They are modelled only as the handler `Route` picks. The wallet-balance handler is modelled as written (`WalletAsWritten`) and as intended (`Wallet`, `Bot.ShowWallet`), apart from the formatting of its reply.
- Withdrawal approval, referral bonuses, bank-detail changes and per-session view thresholds have no logic in these files. They appear only as schema or prompt text, so they are not modelled.
- server.js's own `initializeDatabase` is modelled only for its `users` table (`ServerUsersTable`), the table that `/start` inserts into. Its `withdrawals` and `ads` tables are left out.
- Database failures are modelled only where the source handles them or where the schema decides them. That is the postback path (`dbFails`), the `/balance` lookup (`LookupFails`), the wallet-balance query (`queryFails`), and a missing `settings` table in `setSetting`/`getSetting`. Elsewhere a query is assumed to succeed.
- Common.IntText: gives every integer its plain decimal text. JavaScript's `String` uses exponent notation from 1e21 on and loses precision above 2^53. Telegram ids lie far below both, so the model does not follow those cases.
- Db.Insert: does not enforce NOT NULL, PRIMARY KEY or UNIQUE constraints, nor column types. It only computes the row an accepted insert stores.
- Webhook.Lower: lower-cases A-Z and the Kelvin sign (whose lower case is `k`) and keeps every other character. Full Unicode `toLowerCase` is not modelled. It is not needed because every command compared is ASCII.
- Server.Route: Telegraf's `/start` command match is modelled as the text `/start`, optionally followed by a space or `@` and more text. Message entities are not modelled.
- Sessions.ParamText: only integer JSON numbers, strings and booleans are modelled for `sessionId`. Non-integer numbers are left out, and so are objects and arrays: both are truthy and pass the guard, and pg sends an object as its `JSON.stringify` text and an array as a PostgreSQL array literal.
- Sessions.Store.StartTaskSession: ids are issued as the decimal text of a counter. The database's own id generation is not modelled.

## Findings

| source | as written | input that shows it | evidently intended | confidence | as-written member | corrected member |
|---|---|---|---|---|---|---|
| server.js:132 | `balance?.toFixed(2)` is called on the `balance` column, which is NUMERIC (server.js:31). node-postgres, with no type parser set (server.js:14-17), returns NUMERIC as a string, and a string has no `toFixed`. The TypeError is caught at server.js:134-135, and the reply is "Error fetching wallet details". | a sender registered by `/start` (balance 0), with the query succeeding | the reply shows the balance and the coins | not executed; rests on node-postgres returning NUMERIC as text by default | Server.RegisteredSenderGetsWalletError | Server.Wallet |
