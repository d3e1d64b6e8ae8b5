/** The Telegraf bot of server.js: registration on `/start`, the "Perform
    Task" ad-watch counter with its reward, and the reply-keyboard routing with
    its catch-all for invalid text. The `users` and `ads` tables are maps keyed
    by `telegram_id`. */
module Server {
  import opened Common
  import Db

  const PerformTaskLabel := "🎯 Perform Task"
  const WalletLabel := "💰 Wallet Balance"
  const WithdrawLabel := "🏦 Withdraw"
  const ReferLabel := "👥 Refer & Earn"
  const SettingsLabel := "⚙️ Settings"
  const HelpLabel := "🆘 Get Help"

  /** The labels the invalid-text handler accepts, in its order. */
  const ValidCmds := [PerformTaskLabel, WalletLabel, WithdrawLabel, ReferLabel, SettingsLabel, HelpLabel]

  /** Ads per task, and the amount each credit adds to the balance. */
  const AdsPerTask := 10
  const Reward := 10

  /** server.js's own `users` table (its `initializeDatabase`). */
  const ServerUsersTable := Db.TableDef("users", [
    Db.Column("id", Db.Serial), Db.Col("telegram_id"), Db.Col("username"),
    Db.Col("first_name"), Db.Col("last_name"), Db.Column("balance", Db.Num(0)),
    Db.Column("coins", Db.Num(0)), Db.Col("bank_name"), Db.Col("account_number"),
    Db.Column("created_at", Db.Now)])

  /** The columns of a `users` row that the bot writes or credits. */
  datatype UserRow = UserRow(username: string, firstName: string, lastName: string, balance: int, coins: int)

  /** `ctx.from`: the Telegram user who sent the update. */
  datatype Sender = Sender(id: int, username: Option<string>, firstName: Option<string>, lastName: Option<string>)

  /** The row `/start` inserts: the sender's names, and the column defaults. */
  function NewUser(from: Sender): UserRow
  {
    UserRow(OrEmpty(from.username), OrEmpty(from.firstName), OrEmpty(from.lastName), 0, 0)
  }

  /** The columns `/start` supplies for a new sender. */
  function Registration(from: Sender): Db.Row
  {
    var u := NewUser(from);
    map["telegram_id" := Db.Num(from.id), "username" := Db.Text(u.username),
        "first_name" := Db.Text(u.firstName), "last_name" := Db.Text(u.lastName)]
  }

  /** Where the columns of server.js's `users` table that `/start` supplies
      or leaves to their defaults sit, and that no earlier column shares the
      names of the defaulted ones. */
  lemma ServerUsersColumnsAt()
    ensures var cols := ServerUsersTable.columns;
            && |cols| == 10
            && cols[1].name == "telegram_id" && cols[2].name == "username"
            && cols[3].name == "first_name" && cols[4].name == "last_name"
            && cols[5] == Db.Column("balance", Db.Num(0)) && cols[6] == Db.Column("coins", Db.Num(0))
    ensures forall j :: 0 <= j < 5 ==> ServerUsersTable.columns[j].name != "balance"
    ensures forall j :: 0 <= j < 6 ==> ServerUsersTable.columns[j].name != "coins"
  {
  }

  /** server.js's `users` table has a `coins` column and no `wallet_coins`
      column either. */
  lemma ServerNoWalletCoinsColumn()
    ensures "coins" in Db.Names(ServerUsersTable.columns)
    ensures "wallet_coins" !in Db.Names(ServerUsersTable.columns)
  {
    ServerUsersColumnsAt();
  }

  /** The row `NewUser` builds is the one the insert produces from server.js's
      schema: the given names, and balance and coins at their default 0. */
  lemma NewUserMatchesSchema(from: Sender)
    ensures var u := NewUser(from);
            var r := Db.Insert(ServerUsersTable, Registration(from));
            && r.Success? && "balance" in r.value && "coins" in r.value && "username" in r.value
            && r.value["balance"] == Db.Num(u.balance) && r.value["coins"] == Db.Num(u.coins)
            && r.value["username"] == Db.Text(u.username)
  {
    ServerUsersColumnsAt();
    var given := Registration(from);
    assert given.Keys <= Db.Names(ServerUsersTable.columns);
    Db.InsertedDefault(ServerUsersTable, given, 5);
    Db.InsertedDefault(ServerUsersTable, given, 6);
  }

  /** `INSERT ... ON CONFLICT (telegram_id) DO NOTHING`: a new sender gets a
      fresh row with its names (`""` for a missing one), a zero balance and
      zero coins; a known one keeps its row, and every other row is kept. */
  function Register(users: map<int, UserRow>, from: Sender): (r: map<int, UserRow>)
    ensures from.id in r && r.Keys == users.Keys + {from.id}
    ensures forall k :: k in users ==> r[k] == users[k]
    ensures from.id !in users ==>
              r[from.id] == UserRow(OrEmpty(from.username), OrEmpty(from.firstName),
                                    OrEmpty(from.lastName), 0, 0)
    ensures from.id in users ==> r == users
  {
    if from.id in users then users else users[from.id := NewUser(from)]
  }

  /** Registering the same sender twice is registering once. */
  lemma RegisterIdempotent(users: map<int, UserRow>, from: Sender, again: Sender)
    requires again.id == from.id
    ensures Register(Register(users, from), again) == Register(users, from)
  {
  }

  /** The two tables the counter touches: `users` and `ads.watched_count`. */
  datatype Tables = Tables(users: map<int, UserRow>, ads: map<int, int>)

  /** The replies of the Perform Task handler: "You completed all ads!", or
      "Ad watched" with its progress and remaining count, followed by "Task
      complete!" when `taskComplete`. */
  datatype TaskReply = AllAdsCompleted | AdWatched(progress: int, remaining: int, taskComplete: bool)

  /** `watched_count` of the user's `ads` row, 0 when there is none. */
  function Watched(ads: map<int, int>, id: int): int
  {
    if id in ads then ads[id] else 0
  }

  /** `UPDATE users SET balance = balance + amount WHERE telegram_id = id`:
      it changes nothing when the user has no row. */
  function Credit(users: map<int, UserRow>, id: int, amount: int): (r: map<int, UserRow>)
    ensures r.Keys == users.Keys
    ensures forall k :: k in users && k != id ==> r[k] == users[k]
    ensures id in users ==> r[id] == users[id].(balance := users[id].balance + amount)
  {
    if id in users then users[id := users[id].(balance := users[id].balance + amount)] else users
  }

  /** One press of "Perform Task" by user `id`, as a state transition. */
  function Press(t: Tables, id: int): (Tables, TaskReply)
  {
    var w := Watched(t.ads, id);
    if w >= AdsPerTask then
      (Tables(Credit(t.users, id, Reward), t.ads[id := 0]), AllAdsCompleted)
    else
      var users := if w + 1 >= AdsPerTask then Credit(t.users, id, Reward) else t.users;
      (Tables(users, t.ads[id := w + 1]), AdWatched(w + 1, AdsPerTask - w - 1, w + 1 >= AdsPerTask))
  }

  /** A press below 10 raises the count by exactly one; the press from 9 to 10
      credits 10 and leaves the count at 10; a press at 10 or more credits 10
      and resets the count to 0 without incrementing it. */
  lemma PressCases(t: Tables, id: int)
    ensures var (t', reply) := Press(t, id);
            var w := Watched(t.ads, id);
            && (w < 10 ==> t'.ads[id] == w + 1 && reply.AdWatched? && reply.progress == w + 1)
            && (w < 9 ==> t'.users == t.users)
            && (w == 9 ==> t'.ads[id] == 10 && t'.users == Credit(t.users, id, 10) && reply.taskComplete)
            && (w >= 10 ==> t'.ads[id] == 0 && t'.users == Credit(t.users, id, 10) && reply == AllAdsCompleted)
  {
  }

  /** A press changes the presser's balance by 0 or +10 and nothing else of
      their row, and touches no other user's rows in either table. */
  lemma PressFrame(t: Tables, id: int)
    ensures var t' := Press(t, id).0;
            && t'.users.Keys == t.users.Keys
            && t'.ads.Keys == t.ads.Keys + {id}
            && (forall k :: k in t.users && k != id ==> t'.users[k] == t.users[k])
            && (forall k :: k in t.ads && k != id ==> t'.ads[k] == t.ads[k])
            && (id in t.users ==>
                  && t'.users[id].balance - t.users[id].balance in {0, Reward}
                  && t'.users[id] == t.users[id].(balance := t'.users[id].balance))
  {
  }

  /** A count in 0..10 stays in 0..10. */
  lemma PressKeepsRange(t: Tables, id: int)
    requires 0 <= Watched(t.ads, id) <= AdsPerTask
    ensures 0 <= Watched(Press(t, id).0.ads, id) <= AdsPerTask
  {
  }

  /** `n` presses in a row by the same user. */
  function PressTimes(t: Tables, id: int, n: nat): Tables
    decreases n
  {
    if n == 0 then t else PressTimes(Press(t, id).0, id, n - 1)
  }

  /** From a count of `10 - n`, `n` presses bring the count to 10 and credit
      once, on the last of them. */
  lemma {:induction false} PressesUpToTen(t: Tables, id: int, n: nat)
    requires 1 <= n <= AdsPerTask && Watched(t.ads, id) == AdsPerTask - n
    ensures PressTimes(t, id, n) == Tables(Credit(t.users, id, Reward), t.ads[id := AdsPerTask])
    decreases n
  {
    var t1 := Press(t, id).0;
    if n > 1 {
      assert t1 == Tables(t.users, t.ads[id := AdsPerTask - n + 1]);
      PressesUpToTen(t1, id, n - 1);
      assert t1.ads[id := AdsPerTask] == t.ads[id := AdsPerTask];
    }
  }

  /** From a count of 0 (or no `ads` row), `n` = 11 presses credit the user
      twice, 20 in all, and bring the count back to 0: the tenth press credits
      and so does the eleventh. (`n` is a parameter so that the eleven presses
      are not unfolded one by one.) */
  lemma ElevenPressesCreditTwenty(t: Tables, id: int, n: nat)
    requires Watched(t.ads, id) == 0 && n == AdsPerTask + 1
    ensures var t' := PressTimes(t, id, n);
            && t' == Tables(Credit(Credit(t.users, id, Reward), id, Reward), t.ads[id := 0])
            && (id in t.users ==> t'.users[id].balance == t.users[id].balance + 2 * Reward)
  {
    var t10 := Tables(Credit(t.users, id, Reward), t.ads[id := AdsPerTask]);
    PressesUpToTen(t, id, n - 1);
    PressTimesSplit(t, id, n - 1, 1);
    PressOnce(t10, id);
    assert Press(t10, id).0 == Tables(Credit(t10.users, id, Reward), t10.ads[id := 0]);
    assert t10.ads[id := 0] == t.ads[id := 0];
  }

  lemma PressOnce(t: Tables, id: int)
    ensures PressTimes(t, id, 1) == Press(t, id).0
  {
  }

  lemma {:induction false} PressTimesSplit(t: Tables, id: int, m: nat, n: nat)
    ensures PressTimes(t, id, m + n) == PressTimes(PressTimes(t, id, m), id, n)
    decreases m
  {
    if m > 0 {
      PressTimesSplit(Press(t, id).0, id, m - 1, n);
    }
  }

  /** `Array.prototype.includes` on a list of strings. */
  function Includes(xs: seq<string>, x: string): (r: bool)
    ensures r <==> exists i :: 0 <= i < |xs| && xs[i] == x
    decreases |xs|
  {
    if xs == [] then false else xs[0] == x || Includes(xs[1..], x)
  }

  /** The `bot.on("text")` handler replies "Invalid text" exactly when the
      text is not one of the six labels. */
  function InvalidText(text: string): (invalid: bool)
    ensures invalid <==> text !in {PerformTaskLabel, WalletLabel, WithdrawLabel, ReferLabel, SettingsLabel, HelpLabel}
  {
    assert ValidCmds == [PerformTaskLabel, WalletLabel, WithdrawLabel, ReferLabel, SettingsLabel, HelpLabel];
    assert ValidCmds[0] == PerformTaskLabel && ValidCmds[1] == WalletLabel && ValidCmds[2] == WithdrawLabel;
    assert ValidCmds[3] == ReferLabel && ValidCmds[4] == SettingsLabel && ValidCmds[5] == HelpLabel;
    !Includes(ValidCmds, text)
  }

  /** The handler Telegraf runs for a text message: the first registered one
      that matches, in registration order. */
  datatype Handler = StartHandler | PerformTask | WalletBalance | Withdraw | ReferAndEarn
                   | SettingsMenu | GetHelp | TextHandler

  /** Telegraf's `/start` command: the text is `/start`, optionally followed by
      `@botname` or by a space and a payload. */
  predicate IsStartCommand(text: string)
  {
    text == "/start" || (|text| > 6 && text[..6] == "/start" && text[6] in {' ', '@'})
  }

  function Route(text: string): Handler
  {
    if IsStartCommand(text) then StartHandler
    else if text == PerformTaskLabel then PerformTask
    else if text == WalletLabel then WalletBalance
    else if text == WithdrawLabel then Withdraw
    else if text == ReferLabel then ReferAndEarn
    else if text == SettingsLabel then SettingsMenu
    else if text == HelpLabel then GetHelp
    else TextHandler
  }

  /** Every label reaches its own `bot.hears` handler, so the catch-all runs
      only for other text and then always replies "Invalid text". */
  lemma RouteReachesCatchAllOnlyWithInvalidText(text: string)
    ensures Route(text) == TextHandler <==> !IsStartCommand(text) && InvalidText(text)
    ensures text == PerformTaskLabel ==> Route(text) == PerformTask
  {
  }

  /** The replies of the wallet-balance handler: "Error fetching wallet
      details", or the balance and the coins. */
  datatype WalletReply = WalletError | WalletShown(balance: int, coins: int)

  /** A NUMERIC cell as node-postgres hands it to JavaScript: NULL, or the
      value's text, since no type parser is installed for NUMERIC. */
  datatype PgNumeric = PgNull | PgText(text: string)

  /** The cell of a stored balance: `users.balance` is NUMERIC. */
  function BalanceCell(balance: int): PgNumeric
  {
    PgText(IntText(balance))
  }

  /** `balance?.toFixed(2) || 0` on that cell: NULL shows 0, and a string has
      no `toFixed`, so calling it throws a TypeError. */
  function ShownBalance(cell: PgNumeric): Result<int>
  {
    match cell
    case PgNull => Success(0)
    case PgText(_) => Failure("balance.toFixed is not a function")
  }

  /** The wallet-balance handler as written: a failing query or a missing row
      answers the error reply, and so does a throw while building the reply,
      which the `catch` turns into the same error reply. */
  function WalletAsWritten(users: map<int, UserRow>, id: int, queryFails: bool): WalletReply
  {
    if queryFails || id !in users then WalletError
    else match ShownBalance(BalanceCell(users[id].balance))
      case Success(b) => WalletShown(b, users[id].coins)
      case Failure(_) => WalletError
  }

  /** Every stored balance is a non-NULL NUMERIC, so the handler as written
      answers the error reply to every sender. */
  lemma WalletAsWrittenAlwaysErrors(users: map<int, UserRow>, id: int, queryFails: bool)
    ensures WalletAsWritten(users, id, queryFails) == WalletError
  {
  }

  /** The wallet-balance handler as intended: the stored balance and coins of
      the sender's row, or the error reply when the query fails or there is
      no row. */
  function Wallet(users: map<int, UserRow>, id: int, queryFails: bool): (reply: WalletReply)
    ensures reply.WalletShown? <==> !queryFails && id in users
    ensures reply.WalletShown? ==> reply.balance == users[id].balance && reply.coins == users[id].coins
  {
    if queryFails || id !in users then WalletError else WalletShown(users[id].balance, users[id].coins)
  }

  /** A sender who has just registered, with a balance of 0, gets "Error
      fetching wallet details" from the handler as written, where the intended
      handler shows a balance of 0 and 0 coins. */
  lemma RegisteredSenderGetsWalletError(from: Sender)
    ensures var users := Register(map[], from);
            && from.id in users && users[from.id].balance == 0
            && WalletAsWritten(users, from.id, false) == WalletError
            && Wallet(users, from.id, false) == WalletShown(0, 0)
  {
    WalletAsWrittenAlwaysErrors(Register(map[], from), from.id, false);
  }

  /** The bot's state: the `users` rows and `ads.watched_count`, by `telegram_id`. */
  class Bot {
    var users: map<int, UserRow>
    var ads: map<int, int>

    constructor ()
      ensures users == map[] && ads == map[]
    {
      users := map[];
      ads := map[];
    }

    /** `bot.start`: insert the sender's row unless one exists. */
    method Start(from: Sender)
      modifies this
      ensures users == Register(old(users), from)
      ensures ads == old(ads)
    {
      if from.id !in users {
        users := users[from.id := UserRow(OrEmpty(from.username), OrEmpty(from.firstName), OrEmpty(from.lastName), 0, 0)];
      }
    }

    /** `bot.hears("💰 Wallet Balance")` as intended (`Wallet`): read the
        sender's balance and coins. A missing row, or a query that fails
        (`queryFails`), gets the error reply; otherwise the reply shows the
        stored values. */
    method ShowWallet(id: int, queryFails: bool) returns (reply: WalletReply)
      ensures reply == Wallet(users, id, queryFails)
      ensures reply.WalletShown? <==> !queryFails && id in users
      ensures reply.WalletShown? ==> reply.balance == users[id].balance && reply.coins == users[id].coins
    {
      if queryFails || id !in users {
        return WalletError;
      }
      reply := WalletShown(users[id].balance, users[id].coins);
    }

    /** `bot.hears("🎯 Perform Task")`, statement by statement. */
    method PerformTask(id: int) returns (reply: TaskReply)
      modifies this
      ensures (Tables(users, ads), reply) == Press(old(Tables(users, ads)), id)
    {
      ghost var before := Tables(users, ads);
      var watched := if id in ads then ads[id] else 0;
      if watched == 0 && id !in ads {
        ads := ads[id := 0];
      }
      var remaining := AdsPerTask - watched;
      if remaining <= 0 {
        if id in users {
          users := users[id := users[id].(balance := users[id].balance + Reward)];
        }
        ads := ads[id := 0];
        return AllAdsCompleted;
      }
      ads := ads[id := ads[id] + 1];
      assert ads == before.ads[id := watched + 1];
      reply := AdWatched(watched + 1, remaining - 1, watched + 1 >= AdsPerTask);
      if watched + 1 >= AdsPerTask {
        if id in users {
          users := users[id := users[id].(balance := users[id].balance + Reward)];
        }
      }
      assert users == (if watched + 1 >= AdsPerTask then Credit(before.users, id, Reward) else before.users);
    }
  }
}
