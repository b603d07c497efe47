/** The database connection manager: which engine is used, how SQLite statements are
    rewritten for PostgreSQL, the single shared manager, and the commit rule of a
    query. */
module Connections {
  import opened Wrappers
  import opened Strings

  datatype DbKind = PostgreSql | Sqlite

  /** Python truthiness of an optional string. */
  predicate Given(s: Option<string>) {
    s.Some? && s.value != []
  }

  /** `_detect_database_type`: the environment's DATABASE_URL, or the secrets' one when
      the environment has none (`None` also stands for secrets that cannot be read);
      PostgreSQL when that URL is non-empty and the driver imported. */
  function DetectDatabaseType(envUrl: Option<string>, secretsUrl: Option<string>, postgresAvailable: bool): (r: DbKind)
    ensures r == PostgreSql <==> postgresAvailable && (if envUrl.Some? then envUrl.value != [] else Given(secretsUrl))
  {
    var url := if envUrl.None? then secretsUrl else envUrl;
    if Given(url) && postgresAvailable then PostgreSql else Sqlite
  }

  /** An empty DATABASE_URL in the environment hides the secrets' URL. */
  lemma EmptyEnvironmentHidesSecrets(secretsUrl: Option<string>)
    ensures DetectDatabaseType(Some([]), secretsUrl, true) == Sqlite
    ensures Given(secretsUrl) ==> DetectDatabaseType(None, secretsUrl, true) == PostgreSql
  {
  }

  /** Without the driver the manager always uses SQLite. */
  lemma NoDriverMeansSqlite(envUrl: Option<string>, secretsUrl: Option<string>)
    ensures DetectDatabaseType(envUrl, secretsUrl, false) == Sqlite
  {
  }

  const Autoincrement := "AUTOINCREMENT"
  const KeyHead := "INTEGER PRIMARY KEY "
  const AutoPrimaryKey := KeyHead + Autoincrement
  const SerialPrimaryKey := "SERIAL PRIMARY KEY"
  const Datetime := "DATETIME"
  const DatetimeDefault := Datetime + " DEFAULT CURRENT_TIMESTAMP"
  const TimestampDefault := "TIMESTAMP DEFAULT CURRENT_TIMESTAMP"
  const Timestamp := "TIMESTAMP"

  /** The four PostgreSQL rewrites, in order, each a single-pass `str.replace`. */
  function PostgresRewrite(sql: string): string {
    var s1 := ReplaceAll(sql, AutoPrimaryKey, SerialPrimaryKey);
    var s2 := ReplaceAll(s1, Autoincrement, []);
    var s3 := ReplaceAll(s2, DatetimeDefault, TimestampDefault);
    ReplaceAll(s3, Datetime, Timestamp)
  }

  /** `convert_sql_for_db`: the statement unchanged for SQLite, rewritten for PostgreSQL. */
  function ConvertSqlForDb(kind: DbKind, sql: string): (r: string)
    ensures kind == Sqlite ==> r == sql
    ensures kind == PostgreSql ==> r == PostgresRewrite(sql)
  {
    if kind == PostgreSql then PostgresRewrite(sql) else sql
  }

  /** A statement that uses neither AUTOINCREMENT nor DATETIME is left alone by every
      engine. */
  lemma ConvertUntouched(kind: DbKind, sql: string)
    requires !Contains(sql, Autoincrement) && !Contains(sql, Datetime)
    ensures ConvertSqlForDb(kind, sql) == sql
  {
    UntouchedSteps(sql);
  }

  lemma UntouchedSteps(sql: string)
    requires !Contains(sql, Autoincrement) && !Contains(sql, Datetime)
    ensures ReplaceAll(sql, AutoPrimaryKey, SerialPrimaryKey) == sql
    ensures ReplaceAll(sql, Autoincrement, []) == sql
    ensures ReplaceAll(sql, DatetimeDefault, TimestampDefault) == sql
    ensures ReplaceAll(sql, Datetime, Timestamp) == sql
  {
    ContainsSuffixOfWord(sql, "INTEGER PRIMARY KEY ", Autoincrement);
    ReplaceAllAbsent(sql, AutoPrimaryKey, SerialPrimaryKey);
    ReplaceAllAbsent(sql, Autoincrement, []);
    ContainsPrefixOfWord(sql, DatetimeDefault, Datetime);
    ReplaceAllAbsent(sql, DatetimeDefault, TimestampDefault);
    ReplaceAllAbsent(sql, Datetime, Timestamp);
  }

  /** A character of the pattern that the text lacks makes `replace` the identity. */
  lemma NoCharNoReplace(s: string, pat: string, rep: string, c: char)
    requires |pat| > 0 && c in pat && c !in s
    ensures ReplaceAll(s, pat, rep) == s
  {
    NoCharNoContains(s, pat, c);
    ReplaceAllAbsent(s, pat, rep);
  }

  /** The rewrite, given the outcome of each of its four steps. */
  lemma RewriteBySteps(sql: string, s1: string, s2: string, s3: string, s4: string)
    requires ReplaceAll(sql, AutoPrimaryKey, SerialPrimaryKey) == s1
    requires ReplaceAll(s1, Autoincrement, []) == s2
    requires ReplaceAll(s2, DatetimeDefault, TimestampDefault) == s3
    requires ReplaceAll(s3, Datetime, Timestamp) == s4
    ensures ConvertSqlForDb(PostgreSql, sql) == s4
  {
  }

  /** The SQLite auto-increment key becomes a PostgreSQL serial key ... */
  lemma AutoPrimaryKeyBecomesSerial()
    ensures ConvertSqlForDb(PostgreSql, AutoPrimaryKey) == SerialPrimaryKey
  {
    WholeKeyReplaced();
    SerialKeyKept();
    RewriteBySteps(AutoPrimaryKey, SerialPrimaryKey, SerialPrimaryKey, SerialPrimaryKey, SerialPrimaryKey);
  }

  /** No later step touches the serial key. */
  lemma SerialKeyKept()
    ensures ReplaceAll(SerialPrimaryKey, Autoincrement, []) == SerialPrimaryKey
    ensures ReplaceAll(SerialPrimaryKey, DatetimeDefault, TimestampDefault) == SerialPrimaryKey
    ensures ReplaceAll(SerialPrimaryKey, Datetime, Timestamp) == SerialPrimaryKey
  {
    SerialKeyKeptByStep2();
    SerialKeyKeptByStep3();
    SerialKeyKeptByStep4();
  }

  lemma SerialKeyKeptByStep2()
    ensures ReplaceAll(SerialPrimaryKey, Autoincrement, []) == SerialPrimaryKey
  {
    NoCharNoReplace(SerialPrimaryKey, Autoincrement, [], 'U');
  }

  lemma SerialKeyKeptByStep3()
    ensures ReplaceAll(SerialPrimaryKey, DatetimeDefault, TimestampDefault) == SerialPrimaryKey
  {
    ShortNoContains(SerialPrimaryKey, DatetimeDefault);
    ReplaceAllAbsent(SerialPrimaryKey, DatetimeDefault, TimestampDefault);
  }

  lemma SerialKeyKeptByStep4()
    ensures ReplaceAll(SerialPrimaryKey, Datetime, Timestamp) == SerialPrimaryKey
  {
    NoCharNoReplace(SerialPrimaryKey, Datetime, Timestamp, 'D');
  }

  lemma WholeKeyReplaced()
    ensures ReplaceAll(AutoPrimaryKey, AutoPrimaryKey, SerialPrimaryKey) == SerialPrimaryKey
  {
    ReplaceAllLeading(AutoPrimaryKey, [], SerialPrimaryKey);
    assert AutoPrimaryKey + [] == AutoPrimaryKey;
    assert SerialPrimaryKey + [] == SerialPrimaryKey;
  }

  /** ... and only because that rewrite runs first: removing AUTOINCREMENT first would
      leave a bare "INTEGER PRIMARY KEY ". */
  lemma RewriteOrderMatters()
    ensures ReplaceAll(AutoPrimaryKey, Autoincrement, []) == KeyHead
    ensures ReplaceAll(AutoPrimaryKey, Autoincrement, []) != ReplaceAll(AutoPrimaryKey, AutoPrimaryKey, SerialPrimaryKey)
  {
    WordRemovedFromKey();
    WholeKeyReplaced();
    assert |KeyHead| != |SerialPrimaryKey|;
  }

  lemma WordRemovedFromKey()
    ensures ReplaceAll(AutoPrimaryKey, Autoincrement, []) == KeyHead
  {
    NoStraddleLast(KeyHead, Autoincrement, Autoincrement);
    NoCharNoContains(KeyHead, Autoincrement, 'U');
    DropTrailingWord(AutoPrimaryKey, KeyHead, Autoincrement);
  }

  /** `replace` deletes a final occurrence of the word when nothing else matches. */
  lemma DropTrailingWord(s: string, head: string, w: string)
    requires |w| > 0 && s == head + w && NoStraddle(head, w, w) && !Contains(head, w)
    ensures ReplaceAll(s, w, []) == head
  {
    ReplaceAllConcat(head, w, w, []);
    ReplaceAllAbsent(head, w, []);
    ReplaceAllWhole(w);
    assert head + [] == head;
  }

  /** `replace` deletes a word wrapped in text too short to hold another occurrence. */
  lemma DropInnerWord(s: string, a: string, w: string, b: string)
    requires |w| > 0 && s == a + (w + b) && |a| < |w| && |b| < |w| && NoStraddle(a, w + b, w)
    ensures ReplaceAll(s, w, []) == a + b
  {
    ReplaceAllConcat(a, w + b, w, []);
    ReplaceAllLeading(w, b, []);
    assert [] + b == b;
  }

  const NestedHead := "AUTO"
  const NestedTail := "INCREMENT"
  const NestedWord := NestedHead + (Autoincrement + NestedTail)

  /** A single pass can leave the word it removes: the rewritten statement is not
      guaranteed to be free of AUTOINCREMENT. */
  lemma AutoincrementCanSurvive()
    ensures ConvertSqlForDb(PostgreSql, NestedWord) == Autoincrement
  {
    NestedKeyAbsent();
    NestedWordRemoved();
    DatetimeDefaultAbsent();
    NoCharNoReplace(Autoincrement, Datetime, Timestamp, 'D');
    RewriteBySteps(NestedWord, NestedWord, Autoincrement, Autoincrement, Autoincrement);
  }

  lemma NestedKeyAbsent()
    ensures ReplaceAll(NestedWord, AutoPrimaryKey, SerialPrimaryKey) == NestedWord
  {
    ShortNoContains(NestedWord, AutoPrimaryKey);
    ReplaceAllAbsent(NestedWord, AutoPrimaryKey, SerialPrimaryKey);
  }

  lemma DatetimeDefaultAbsent()
    ensures ReplaceAll(Autoincrement, DatetimeDefault, TimestampDefault) == Autoincrement
  {
    ShortNoContains(Autoincrement, DatetimeDefault);
    ReplaceAllAbsent(Autoincrement, DatetimeDefault, TimestampDefault);
  }

  lemma NestedWordRemoved()
    ensures ReplaceAll(NestedWord, Autoincrement, []) == Autoincrement
  {
    var t := Autoincrement + NestedTail;
    assert NoStraddle(NestedHead, t, Autoincrement) by {
      forall i | |NestedHead| - |Autoincrement| < i < |NestedHead| ensures !MatchAt(NestedHead + t, i, Autoincrement) {
        if 0 <= i && i + |Autoincrement| <= |NestedHead + t| {
          assert (NestedHead + t)[i..i + |Autoincrement|][4 - i] == (NestedHead + t)[4] == 'A';
          assert Autoincrement[4 - i] != 'A';
        }
      }
    }
    DropInnerWord(NestedWord, NestedHead, Autoincrement, NestedTail);
    assert NestedHead + NestedTail == Autoincrement;
  }

  // ---------------------------------------------------------------------------
  // The manager and its single instance
  // ---------------------------------------------------------------------------

  class ConnectionManager {
    const dbType: DbKind
    const sqlitePath: string

    /** The engine is decided once, when the manager is built. */
    constructor (envUrl: Option<string>, secretsUrl: Option<string>, postgresAvailable: bool)
      ensures dbType == DetectDatabaseType(envUrl, secretsUrl, postgresAvailable)
      ensures sqlitePath == "building_inspection.db"
    {
      dbType := DetectDatabaseType(envUrl, secretsUrl, postgresAvailable);
      sqlitePath := "building_inspection.db";
    }
  }

  /** The module's global `_connection_manager`. */
  class Registry {
    var instance: ConnectionManager?

    constructor ()
      ensures instance == null
    {
      instance := null;
    }

    /** `get_connection_manager`: builds the manager on the first call and returns the
        same one ever after, whatever the environment says later. */
    method GetConnectionManager(envUrl: Option<string>, secretsUrl: Option<string>, postgresAvailable: bool)
      returns (m: ConnectionManager)
      modifies this
      ensures old(instance) != null ==> m == old(instance)
      ensures old(instance) == null ==> fresh(m) && m.dbType == DetectDatabaseType(envUrl, secretsUrl, postgresAvailable)
      ensures instance == m
    {
      if instance == null {
        instance := new ConnectionManager(envUrl, secretsUrl, postgresAvailable);
      }
      m := instance;
    }

    /** Two calls give one manager, so the engine the first call chose sticks. */
    method SameInstanceTwice(env1: Option<string>, env2: Option<string>, secretsUrl: Option<string>, postgresAvailable: bool)
      returns (m1: ConnectionManager, m2: ConnectionManager)
      modifies this
      ensures m1 == m2 && m2.dbType == m1.dbType
      ensures old(instance) == null ==> m2.dbType == DetectDatabaseType(env1, secretsUrl, postgresAvailable)
    {
      m1 := GetConnectionManager(env1, secretsUrl, postgresAvailable);
      m2 := GetConnectionManager(env2, secretsUrl, postgresAvailable);
    }
  }

  // ---------------------------------------------------------------------------
  // execute_query
  // ---------------------------------------------------------------------------

  datatype Fetch = FetchOne | FetchAll

  /** A row as the driver returns it. */
  type Row = seq<string>

  /** An executed statement with its parameters (none when the tuple is empty). */
  datatype Statement = Statement(query: string, params: seq<string>)

  /** What the engine does with the statement: raises, or runs it, producing rows (for a
      query) and a row count. */
  datatype EngineAnswer = Raises | Runs(rows: seq<Row>, rowCount: int)

  datatype QueryResult = Raised | OneRow(row: Option<Row>) | AllRows(rows: seq<Row>) | RowCount(n: int)

  /** The committed statements after the call: only a statement run without a fetch is
      committed; a failure is rolled back, and a fetch closes without committing. */
  function CommittedAfter(committed: seq<Statement>, s: Statement, fetch: Option<Fetch>, engine: EngineAnswer): seq<Statement> {
    if engine.Runs? && fetch.None? then committed + [s] else committed
  }

  /** The value returned: the first row, all rows, or the row count. */
  function ResultOf(fetch: Option<Fetch>, engine: EngineAnswer): QueryResult {
    match engine
    case Raises => Raised
    case Runs(rows, n) =>
      match fetch
      case Some(FetchOne) => OneRow(if rows == [] then None else Some(rows[0]))
      case Some(FetchAll) => AllRows(rows)
      case None => RowCount(n)
  }

  /** Commit happens exactly for a statement that ran without a fetch. */
  lemma CommitRule(committed: seq<Statement>, s: Statement, fetch: Option<Fetch>, engine: EngineAnswer)
    ensures CommittedAfter(committed, s, fetch, engine) == committed + [s] <==> engine.Runs? && fetch.None?
    ensures CommittedAfter(committed, s, fetch, engine) != committed + [s] ==> CommittedAfter(committed, s, fetch, engine) == committed
  {
    if !(engine.Runs? && fetch.None?) {
      assert |committed + [s]| != |committed|;
    }
  }

  /** A failed statement reports the failure and never a value. */
  lemma FailureRaises(fetch: Option<Fetch>, engine: EngineAnswer)
    ensures ResultOf(fetch, engine) == Raised <==> engine.Raises?
    ensures fetch.None? && engine.Runs? ==> ResultOf(fetch, engine) == RowCount(engine.rowCount)
  {
  }

  /** A connection and its one cursor. */
  class Connection {
    var open: bool
    var cursorOpen: bool
    var pending: seq<Statement>

    constructor ()
      ensures open && cursorOpen && pending == []
    {
      open := true;
      cursorOpen := true;
      pending := [];
    }
  }

  /** The statements the database holds. */
  class Database {
    var committed: seq<Statement>

    constructor ()
      ensures committed == []
    {
      committed := [];
    }

    /** `execute_query`: runs the statement on a new connection, commits only when no
        fetch is asked for, rolls back on failure, and closes the cursor and the
        connection whatever happens. */
    method ExecuteQuery(query: string, params: seq<string>, fetch: Option<Fetch>, engine: EngineAnswer)
      returns (result: QueryResult, conn: Connection)
      modifies this
      ensures committed == CommittedAfter(old(committed), Statement(query, params), fetch, engine)
      ensures result == ResultOf(fetch, engine)
      ensures fresh(conn) && !conn.open && !conn.cursorOpen && conn.pending == []
    {
      conn := new Connection();
      match engine {
        case Raises =>
          conn.pending := [];
          result := Raised;
        case Runs(rows, n) =>
          conn.pending := conn.pending + [Statement(query, params)];
          match fetch {
            case Some(FetchOne) =>
              result := OneRow(if rows == [] then None else Some(rows[0]));
            case Some(FetchAll) =>
              result := AllRows(rows);
            case None =>
              committed := committed + conn.pending;
              conn.pending := [];
              result := RowCount(n);
          }
      }
      conn.cursorOpen := false;
      conn.open := false;
      conn.pending := [];
    }
  }
}
