/** The PostgreSQL side of the bot (src/db.js): the tables that
    `initializeDatabase` creates with `CREATE TABLE IF NOT EXISTS`, the column
    defaults a new row receives, and the `settings` key/value table that
    `setSetting` and `getSetting` use. */
module Db {
  import opened Common

  /** A cell value. `Now` is `DEFAULT NOW()`, `Serial` a `SERIAL` counter value. */
  datatype Value = Null | Num(n: int) | Bool(b: bool) | Text(s: string) | Now | Serial

  /** A column: its name and its `DEFAULT` (`Null` when it has none). */
  datatype Column = Column(name: string, default: Value)

  /** One `CREATE TABLE IF NOT EXISTS name (columns)` statement. */
  datatype TableDef = TableDef(name: string, columns: seq<Column>)

  type Row = map<string, Value>

  function Col(name: string): Column { Column(name, Null) }

  const UsersTable := TableDef("users", [
    Column("id", Serial), Col("telegram_id"), Col("username"),
    Col("first_name"), Col("referred_by"), Column("coins", Num(0)),
    Column("balance", Num(0)), Col("bank_name"), Col("account_number"),
    Col("account_name"), Column("is_banned", Bool(false)), Column("created_at", Now)])

  const TransactionsTable := TableDef("transactions", [
    Column("id", Serial), Col("telegram_id"), Col("type"),
    Column("coins", Num(0)), Column("amount", Num(0)), Col("meta"),
    Column("created_at", Now)])

  const ReferralsTable := TableDef("referrals", [
    Column("id", Serial), Col("referrer_id"), Col("referred_id"),
    Column("created_at", Now)])

  const WithdrawalsTable := TableDef("withdrawals", [
    Column("id", Serial), Col("telegram_id"), Col("amount"),
    Column("status", Text("pending")), Column("created_at", Now)])

  const AdSessionsTable := TableDef("ad_sessions", [
    Col("id"), Col("telegram_id"),
    Column("completed", Bool(false)), Column("created_at", Now)])

  const AdViewsTable := TableDef("ad_views", [
    Column("id", Serial), Col("session_id"), Col("telegram_id"),
    Column("validated", Bool(false)), Column("created_at", Now)])

  const HelpRequestsTable := TableDef("help_requests", [
    Column("id", Serial), Col("telegram_id"), Col("message"),
    Column("status", Text("open")), Column("created_at", Now)])

  const SettingsTable := TableDef("settings", [Col("key"), Col("value")])

  const AdminLogsTable := TableDef("admin_logs", [
    Column("id", Serial), Col("admin_id"), Col("action"), Col("meta"),
    Column("created_at", Now)])

  /** The statements of `initializeDatabase`, in the order it runs them. */
  const Schema := [UsersTable, TransactionsTable, ReferralsTable, WithdrawalsTable,
                   AdSessionsTable, AdViewsTable, HelpRequestsTable, SettingsTable, AdminLogsTable]

  /** The tables of a database, by name. */
  type Catalog = map<string, seq<Column>>

  /** `CREATE TABLE IF NOT EXISTS`: an existing table of that name is kept as it is. */
  function CreateIfNotExists(c: Catalog, t: TableDef): (r: Catalog)
    ensures t.name in r && r.Keys == c.Keys + {t.name}
    ensures t.name in c ==> r[t.name] == c[t.name]
    ensures t.name !in c ==> r[t.name] == t.columns
    ensures forall n :: n in c && n != t.name ==> r[n] == c[n]
  {
    if t.name in c then c else c[t.name := t.columns]
  }

  /** Running the statements `ts` one after another. */
  function CreateAll(c: Catalog, ts: seq<TableDef>): Catalog
    decreases |ts|
  {
    if ts == [] then c else CreateIfNotExists(CreateAll(c, ts[..|ts| - 1]), ts[|ts| - 1])
  }

  /** After the statements ran, every table they name exists, and every table
      that existed before is still there with its columns unchanged. */
  lemma {:induction false} CreateAllKeeps(c: Catalog, ts: seq<TableDef>)
    ensures forall k :: 0 <= k < |ts| ==> ts[k].name in CreateAll(c, ts)
    ensures forall n :: n in c ==> n in CreateAll(c, ts) && CreateAll(c, ts)[n] == c[n]
    decreases |ts|
  {
    if ts != [] {
      var front := ts[..|ts| - 1];
      CreateAllKeeps(c, front);
      forall k | 0 <= k < |ts| ensures ts[k].name in CreateAll(c, ts) {
        if k < |ts| - 1 { assert ts[k] == front[k]; }
      }
    }
  }

  /** Statements whose tables all exist change nothing. */
  lemma {:induction false} CreateAllExisting(c: Catalog, ts: seq<TableDef>)
    requires forall k :: 0 <= k < |ts| ==> ts[k].name in c
    ensures CreateAll(c, ts) == c
    decreases |ts|
  {
    if ts != [] {
      var front := ts[..|ts| - 1];
      assert forall k :: 0 <= k < |front| ==> front[k] == ts[k];
      CreateAllExisting(c, front);
    }
  }

  /** Running the same statements twice gives the same catalog as running them once. */
  lemma CreateAllIdempotent(c: Catalog, ts: seq<TableDef>)
    ensures CreateAll(CreateAll(c, ts), ts) == CreateAll(c, ts)
  {
    CreateAllKeeps(c, ts);
    CreateAllExisting(CreateAll(c, ts), ts);
  }

  /** The names of the tables that the statements `ts` create. */
  function TableNames(ts: seq<TableDef>): set<string>
  {
    set j | 0 <= j < |ts| :: ts[j].name
  }

  /** After the statements ran, the database holds exactly the tables it held
      before and the ones the statements name. */
  lemma {:induction false} CreateAllKeys(c: Catalog, ts: seq<TableDef>)
    ensures CreateAll(c, ts).Keys == c.Keys + TableNames(ts)
    decreases |ts|
  {
    if ts != [] {
      var front := ts[..|ts| - 1];
      CreateAllKeys(c, front);
      assert TableNames(ts) == TableNames(front) + {ts[|ts| - 1].name} by {
        forall n | n in TableNames(ts) ensures n in TableNames(front) + {ts[|ts| - 1].name} {
          var j :| 0 <= j < |ts| && ts[j].name == n;
          if j < |ts| - 1 { assert front[j] == ts[j]; }
        }
        forall n | n in TableNames(front) ensures n in TableNames(ts) {
          var j :| 0 <= j < |front| && front[j].name == n;
          assert ts[j] == front[j];
        }
      }
    }
  }

  /** On a database holding none of their tables, statements with distinct
      names create every one of their tables with exactly its declared columns. */
  lemma {:induction false} CreateAllFresh(c: Catalog, ts: seq<TableDef>, k: nat)
    requires k < |ts|
    requires forall j :: 0 <= j < |ts| ==> ts[j].name !in c
    requires forall i, j :: 0 <= i < j < |ts| ==> ts[i].name != ts[j].name
    ensures ts[k].name in CreateAll(c, ts) && CreateAll(c, ts)[ts[k].name] == ts[k].columns
    decreases |ts|
  {
    var front := ts[..|ts| - 1];
    if k < |ts| - 1 {
      assert front[k] == ts[k];
      CreateAllFresh(c, front, k);
    } else {
      CreateAllKeys(c, front);
      assert ts[k].name !in TableNames(front);
    }
  }

  /** The nine tables of `initializeDatabase` have distinct names. */
  lemma SchemaNamesDistinct()
    ensures forall i, j :: 0 <= i < j < |Schema| ==> Schema[i].name != Schema[j].name
  {
  }

  /** `initializeDatabase` on a database holding none of its tables (a new
      one, say) creates each of them with its declared columns; in particular
      `users`, `withdrawals` and `ad_sessions`, whose defaults
      `NewUserDefaults`, `NewWithdrawalPending` and `NewAdSessionIncomplete`
      are about. */
  lemma SchemaCreated(c: Catalog)
    requires forall k :: 0 <= k < |Schema| ==> Schema[k].name !in c
    ensures forall k :: 0 <= k < |Schema| ==>
              Schema[k].name in CreateAll(c, Schema) && CreateAll(c, Schema)[Schema[k].name] == Schema[k].columns
    ensures "users" in CreateAll(c, Schema) && CreateAll(c, Schema)["users"] == UsersTable.columns
    ensures "withdrawals" in CreateAll(c, Schema) && CreateAll(c, Schema)["withdrawals"] == WithdrawalsTable.columns
    ensures "ad_sessions" in CreateAll(c, Schema) && CreateAll(c, Schema)["ad_sessions"] == AdSessionsTable.columns
  {
    SchemaNamesDistinct();
    forall k | 0 <= k < |Schema|
      ensures Schema[k].name in CreateAll(c, Schema) && CreateAll(c, Schema)[Schema[k].name] == Schema[k].columns
    {
      CreateAllFresh(c, Schema, k);
    }
    assert Schema[0] == UsersTable && Schema[3] == WithdrawalsTable && Schema[4] == AdSessionsTable;
  }


  /** The default of the first column named `name` at or after position `i`;
      `Null` when there is none. */
  function DefaultFrom(cols: seq<Column>, name: string, i: nat): Value
    requires i <= |cols|
    decreases |cols| - i
  {
    if i == |cols| then Null
    else if cols[i].name == name then cols[i].default
    else DefaultFrom(cols, name, i + 1)
  }

  function DefaultIn(cols: seq<Column>, name: string): Value { DefaultFrom(cols, name, 0) }

  /** The value a new row gets in column `name`: the one given, else the default. */
  function Cell(cols: seq<Column>, given: Row, name: string): Value
  {
    if name in given then given[name] else DefaultIn(cols, name)
  }

  function Names(cols: seq<Column>): set<string>
  {
    set i | 0 <= i < |cols| :: cols[i].name
  }

  /** `INSERT INTO t (given columns) VALUES (...)`: fails on a column the
      table does not have; otherwise every column of the table is filled, from
      the given values first and the defaults second. */
  function Insert(t: TableDef, given: Row): (r: Result<Row>)
    ensures r.Success? <==> given.Keys <= Names(t.columns)
    ensures r.Success? ==> r.value.Keys == Names(t.columns)
    ensures r.Success? ==> forall n :: n in given ==> r.value[n] == given[n]
    ensures r.Success? ==> forall n :: n in r.value && n !in given ==> r.value[n] == DefaultIn(t.columns, n)
  {
    if given.Keys <= Names(t.columns) then Success(map n | n in Names(t.columns) :: Cell(t.columns, given, n))
    else Failure("column does not exist")
  }

  /** The `k`-th column's default is the one found for its name when no
      earlier column has that name. */
  lemma {:induction false} DefaultAt(cols: seq<Column>, k: nat, i: nat)
    requires i <= k < |cols|
    requires forall j :: i <= j < k ==> cols[j].name != cols[k].name
    ensures DefaultFrom(cols, cols[k].name, i) == cols[k].default
    decreases k - i
  {
    if i < k {
      DefaultAt(cols, k, i + 1);
    }
  }

  /** An insert that names only existing columns and leaves out the `k`-th
      one fills that column with its declared default. */
  lemma InsertedDefault(t: TableDef, given: Row, k: nat)
    requires given.Keys <= Names(t.columns)
    requires k < |t.columns| && t.columns[k].name !in given
    requires forall j :: 0 <= j < k ==> t.columns[j].name != t.columns[k].name
    ensures var r := Insert(t, given);
            r.Success? && t.columns[k].name in r.value && r.value[t.columns[k].name] == t.columns[k].default
  {
    DefaultAt(t.columns, k, 0);
  }

  /** Where the `users` columns with a default other than a serial or the
      clock sit, and that no earlier column shares their names. */
  lemma UsersColumnsAt()
    ensures var cols := UsersTable.columns;
            && |cols| == 12
            && cols[1].name == "telegram_id" && cols[2].name == "username" && cols[3].name == "first_name"
            && cols[4] == Col("referred_by") && cols[5] == Column("coins", Num(0))
            && cols[6] == Column("balance", Num(0)) && cols[10] == Column("is_banned", Bool(false))
    ensures forall j :: 0 <= j < 4 ==> UsersTable.columns[j].name != "referred_by"
    ensures forall j :: 0 <= j < 5 ==> UsersTable.columns[j].name != "coins"
    ensures forall j :: 0 <= j < 6 ==> UsersTable.columns[j].name != "balance"
    ensures forall j :: 0 <= j < 10 ==> UsersTable.columns[j].name != "is_banned"
  {
  }

  /** The `users` table has a `coins` column and no `wallet_coins` column, so
      a query that selects `wallet_coins` from it raises an error. */
  lemma NoWalletCoinsColumn()
    ensures "coins" in Names(UsersTable.columns)
    ensures "wallet_coins" !in Names(UsersTable.columns)
  {
    UsersColumnsAt();
  }

  /** Any insert into `users` that names only existing columns and leaves
      out coins, balance, is_banned and referred_by creates a row with 0
      coins, a 0 balance, not banned and with no referrer. */
  lemma NewUserDefaults(given: Row)
    requires given.Keys <= Names(UsersTable.columns)
    requires "coins" !in given && "balance" !in given && "is_banned" !in given && "referred_by" !in given
    ensures var r := Insert(UsersTable, given);
            && r.Success? && "coins" in r.value && "balance" in r.value && "is_banned" in r.value
            && "referred_by" in r.value
            && r.value["coins"] == Num(0) && r.value["balance"] == Num(0)
            && r.value["is_banned"] == Bool(false) && r.value["referred_by"] == Null
  {
    UsersColumnsAt();
    InsertedDefault(UsersTable, given, 4);
    InsertedDefault(UsersTable, given, 5);
    InsertedDefault(UsersTable, given, 6);
    InsertedDefault(UsersTable, given, 10);
  }

  /** A withdrawal inserted with its user and amount is `'pending'`. */
  lemma NewWithdrawalPending(id: int, amount: int)
    ensures var r := Insert(WithdrawalsTable, map["telegram_id" := Num(id), "amount" := Num(amount)]);
            r.Success? && "status" in r.value && r.value["status"] == Text("pending")
  {
    var cols := WithdrawalsTable.columns;
    var given := map["telegram_id" := Num(id), "amount" := Num(amount)];
    assert cols[1].name == "telegram_id" && cols[2].name == "amount";
    assert given.Keys <= Names(cols);
    InsertedDefault(WithdrawalsTable, given, 3);
  }

  /** An ad session inserted with its id and user is not completed. */
  lemma NewAdSessionIncomplete(sessionId: string, id: int)
    ensures var r := Insert(AdSessionsTable, map["id" := Text(sessionId), "telegram_id" := Num(id)]);
            r.Success? && "completed" in r.value && r.value["completed"] == Bool(false)
  {
    var cols := AdSessionsTable.columns;
    var given := map["id" := Text(sessionId), "telegram_id" := Num(id)];
    assert cols[0].name == "id" && cols[1].name == "telegram_id";
    assert given.Keys <= Names(cols);
    InsertedDefault(AdSessionsTable, given, 2);
  }

  /** What `getSetting` returns for the stored rows: `value || null`, so a
      missing key, a NULL value and the empty string all read as null. */
  function SettingValue(settings: map<string, Option<string>>, key: string): (r: Option<string>)
    ensures r.Some? <==> key in settings && settings[key].Some? && settings[key].value != ""
    ensures r.Some? ==> settings[key] == r
  {
    if key in settings && settings[key].Some? && settings[key].value != "" then settings[key] else None
  }

  /** After `setSetting(k, v)` with a non-empty `v`, `getSetting(k)` is `v`;
      with the empty string or NULL it is null; other keys read as before. */
  lemma SetThenGet(settings: map<string, Option<string>>, key: string, value: Option<string>, other: string)
    requires other != key
    ensures value.Some? && value.value != "" ==> SettingValue(settings[key := value], key) == value
    ensures value == None || value == Some("") ==> SettingValue(settings[key := value], key) == None
    ensures SettingValue(settings[key := value], other) == SettingValue(settings, other)
  {
  }

  /** The bot's database: its tables and the rows of `settings`. */
  class Database {
    var tables: Catalog
    var settings: map<string, Option<string>>

    /** A database with no tables. */
    constructor ()
      ensures tables == map[] && settings == map[]
    {
      tables := map[];
      settings := map[];
    }

    /** `initializeDatabase`: the nine statements of `Schema`, in order. */
    method InitializeDatabase()
      modifies this
      ensures tables == CreateAll(old(tables), Schema)
      ensures settings == old(settings)
    {
      CreateTables(Schema);
    }

    /** Run `CREATE TABLE IF NOT EXISTS` for each table of `ts`, in order. */
    method CreateTables(ts: seq<TableDef>)
      modifies this
      ensures tables == CreateAll(old(tables), ts)
      ensures settings == old(settings)
    {
      var i := 0;
      while i < |ts|
        invariant 0 <= i <= |ts|
        invariant tables == CreateAll(old(tables), ts[..i])
        invariant settings == old(settings)
      {
        assert ts[..i + 1][..i] == ts[..i];
        tables := CreateIfNotExists(tables, ts[i]);
        i := i + 1;
      }
      assert ts[..i] == ts;
    }

    /** `setSetting(key, value)`: `INSERT ... ON CONFLICT (key) DO UPDATE`, an
        upsert; it fails only when there is no `settings` table. */
    method SetSetting(key: string, value: Option<string>) returns (r: Result<()>)
      modifies this
      ensures r.Success? <==> "settings" in old(tables)
      ensures settings == if r.Success? then old(settings)[key := value] else old(settings)
      ensures tables == old(tables)
    {
      if "settings" !in tables {
        return Failure("relation \"settings\" does not exist");
      }
      settings := settings[key := value];
      r := Success(());
    }

    /** `getSetting(key)`: the stored value, or null when the key is absent,
        its value NULL or the empty string. */
    method GetSetting(key: string) returns (r: Result<Option<string>>)
      ensures r.Success? <==> "settings" in tables
      ensures r.Success? ==> r.value == SettingValue(settings, key)
      ensures r.Success? && key !in settings ==> r.value == None
    {
      if "settings" !in tables {
        return Failure("relation \"settings\" does not exist");
      }
      if key in settings && settings[key].Some? && settings[key].value != "" {
        r := Success(settings[key]);
      } else {
        r := Success(None);
      }
    }
  }
}
