/**
 * The MySQL state list object: its options, the pool `init` creates, and the statements each
 * operation sends through that pool. The database is outside the model: what a query returns,
 * the JSON text of a value (JSON.stringify) and the value JSON text stands for (JSON.parse)
 * are parameters.
 */
module StateListStore {
  import opened JsValues
  import opened Wrappers
  import opened StateListSql
  import opened StateListFilters

  // ---------------------------------------------------------------------------------------
  // Options and init
  // ---------------------------------------------------------------------------------------

  /** The constructor's options; a missing option is JsUndefined. */
  datatype Options = Options(
    host: JsValue,
    port: JsValue,
    user: JsValue,
    password: JsValue,
    database: JsValue,
    connectionPoolLimit: JsValue)

  const NoOptions: Options := Options(JsUndefined, JsUndefined, JsUndefined, JsUndefined, JsUndefined, JsUndefined)

  /** One property of `_.defaults`: the given value unless it is undefined. */
  function Default(given: JsValue, fallback: JsValue): JsValue {
    if given == JsUndefined then fallback else given
  }

  predicate Complete(o: Options) {
    && o.host != JsUndefined && o.port != JsUndefined && o.user != JsUndefined
    && o.password != JsUndefined && o.database != JsUndefined && o.connectionPoolLimit != JsUndefined
  }

  /** Every option `o` gives (anything but undefined, even an empty or false one) is kept in `r`. */
  predicate KeepsGiven(o: Options, r: Options) {
    && (o.host != JsUndefined ==> r.host == o.host)
    && (o.port != JsUndefined ==> r.port == o.port)
    && (o.user != JsUndefined ==> r.user == o.user)
    && (o.password != JsUndefined ==> r.password == o.password)
    && (o.database != JsUndefined ==> r.database == o.database)
    && (o.connectionPoolLimit != JsUndefined ==> r.connectionPoolLimit == o.connectionPoolLimit)
  }

  /** The constructor's `_.defaults(options, defaults)`: only the undefined options take a default. */
  function WithDefaults(o: Options): (r: Options)
    ensures Complete(r)
    ensures KeepsGiven(o, r)
  {
    Options(
      Default(o.host, JsString("127.0.0.1")),
      Default(o.port, JsNumber(3306)),
      Default(o.user, JsString("root")),
      Default(o.password, JsString("root")),
      Default(o.database, JsString("eventstore")),
      Default(o.connectionPoolLimit, JsNumber(1)))
  }

  /** Applying the defaults twice changes nothing more. */
  lemma WithDefaultsIdempotent(o: Options)
    ensures WithDefaults(WithDefaults(o)) == WithDefaults(o)
  {
  }

  /** What `init` hands to the shared pool: the connection settings and a pool of exactly `connectionPoolLimit` connections. */
  datatype PoolConfig = PoolConfig(
    host: JsValue,
    port: JsValue,
    user: JsValue,
    password: JsValue,
    database: JsValue,
    min: JsValue,
    max: JsValue)

  const HostRequired: string := "host is required to be passed as part of the options"
  const PortRequired: string := "port is required to be passed as part of the options"
  const UserRequired: string := "user is required to be passed as part of the options"
  const PasswordRequired: string := "password is required to be passed as part of the options"
  const DatabaseRequired: string := "database is required to be passed as part of the options"

  predicate Connectable(o: Options) {
    Truthy(o.host) && Truthy(o.port) && Truthy(o.user) && Truthy(o.password) && Truthy(o.database)
  }

  /** The outcome of `init`: the pool settings, or the error for the first falsy connection option. */
  function InitCheck(o: Options): (r: Result<PoolConfig>)
    ensures r.Ok? <==> Connectable(o)
    ensures r.Ok? ==> r.value == PoolConfig(o.host, o.port, o.user, o.password, o.database,
                                            o.connectionPoolLimit, o.connectionPoolLimit)
    ensures !Truthy(o.host) ==> r == Err(HostRequired)
    ensures Truthy(o.host) && !Truthy(o.port) ==> r == Err(PortRequired)
    ensures Truthy(o.host) && Truthy(o.port) && !Truthy(o.user) ==> r == Err(UserRequired)
    ensures Truthy(o.host) && Truthy(o.port) && Truthy(o.user) && !Truthy(o.password) ==> r == Err(PasswordRequired)
    ensures Truthy(o.host) && Truthy(o.port) && Truthy(o.user) && Truthy(o.password) && !Truthy(o.database)
            ==> r == Err(DatabaseRequired)
  {
    if !Truthy(o.host) then Err(HostRequired)
    else if !Truthy(o.port) then Err(PortRequired)
    else if !Truthy(o.user) then Err(UserRequired)
    else if !Truthy(o.password) then Err(PasswordRequired)
    else if !Truthy(o.database) then Err(DatabaseRequired)
    else Ok(PoolConfig(o.host, o.port, o.user, o.password, o.database, o.connectionPoolLimit, o.connectionPoolLimit))
  }

  /** A state list built without options connects to root@127.0.0.1:3306/eventstore with a single connection. */
  lemma DefaultsConnect()
    ensures InitCheck(WithDefaults(NoOptions))
         == Ok(PoolConfig(JsString("127.0.0.1"), JsNumber(3306), JsString("root"), JsString("root"),
                          JsString("eventstore"), JsNumber(1), JsNumber(1)))
  {
  }

  /**
   * After the defaults, init fails exactly when one of the connection options was given but
   * falsy (an empty host, port 0, ...): a given option is never replaced by its default.
   */
  lemma InitAfterDefaults(o: Options)
    ensures InitCheck(WithDefaults(o)).Ok? <==>
      && (o.host == JsUndefined || Truthy(o.host))
      && (o.port == JsUndefined || Truthy(o.port))
      && (o.user == JsUndefined || Truthy(o.user))
      && (o.password == JsUndefined || Truthy(o.password))
      && (o.database == JsUndefined || Truthy(o.database))
  {
  }

  // ---------------------------------------------------------------------------------------
  // Rows written
  // ---------------------------------------------------------------------------------------

  /** The columns `_insertRow` sets; the JSON columns hold JsString(text) or JsNull. */
  datatype RowData = RowData(rowType: string, rowIndex: JsValue, stateJson: JsValue, metaJson: JsValue)

  /** A value's JSON column: its JSON text when it is truthy, NULL otherwise. */
  function JsonColumn(v: JsValue, stringify: JsValue -> string): (c: JsValue)
    ensures c == JsNull <==> !Truthy(v)
    ensures Truthy(v) ==> c == JsString(stringify(v))
  {
    if Truthy(v) then JsString(stringify(v)) else JsNull
  }

  /** `_insertRow`'s row: its type and index as given, state and meta as JSON text or NULL. */
  function InsertRow(rowType: string, index: JsValue, state: JsValue, meta: JsValue,
                     stringify: JsValue -> string): (row: RowData)
    ensures row.rowType == rowType && row.rowIndex == index
    ensures row.stateJson == JsNull <==> !Truthy(state)
    ensures row.metaJson == JsNull <==> !Truthy(meta)
  {
    RowData(rowType, index, JsonColumn(state, stringify), JsonColumn(meta, stringify))
  }

  /** A statement sent through the pool: a query text, or an `INSERT INTO <table> SET ?` with its row. */
  datatype Statement = Query(text: string) | Insert(table: string, row: RowData)

  // ---------------------------------------------------------------------------------------
  // What the list holds: the latest kept row of each index
  // ---------------------------------------------------------------------------------------

  /**
   * The row the SELECT's GROUP BY and MAX(id) pick for an index: among the rows the subquery's
   * WHERE keeps, the one of that index inserted last (ids grow with every insert). `keeps`
   * stands for that WHERE: the row index bound and the filters' conditions, tested on every
   * stored version of a row, deletions included. The id bound keeps a prefix of `rows`.
   */
  function Latest(rows: seq<RowData>, index: JsValue, keeps: RowData -> bool): (r: Option<RowData>)
    ensures r.Some? ==> r.value in rows && r.value.rowIndex == index && keeps(r.value)
    ensures r.Some? ==> exists i :: 0 <= i < |rows| && rows[i] == r.value && LaterUnkept(rows, i, index, keeps)
    ensures r.None? <==> forall i :: 0 <= i < |rows| ==> !Picks(rows[i], index, keeps)
    decreases |rows|
  {
    if rows == [] then None
    else
      var n := |rows| - 1;
      if Picks(rows[n], index, keeps) then Some(rows[n])
      else
        var r := Latest(rows[..n], index, keeps);
        LaterUnkeptExtends(rows, n, index, keeps, r);
        r
  }

  /** The subquery keeps `row` in the group of `index`. */
  predicate Picks(row: RowData, index: JsValue, keeps: RowData -> bool) {
    row.rowIndex == index && keeps(row)
  }

  /** No row after position `i` is kept in the group of `index`. */
  predicate LaterUnkept(rows: seq<RowData>, i: nat, index: JsValue, keeps: RowData -> bool) {
    forall j :: i < j < |rows| ==> !Picks(rows[j], index, keeps)
  }

  lemma LaterUnkeptExtends(rows: seq<RowData>, n: nat, index: JsValue, keeps: RowData -> bool, r: Option<RowData>)
    requires n == |rows| - 1 && !Picks(rows[n], index, keeps)
    requires r.Some? ==> exists i :: 0 <= i < n && rows[..n][i] == r.value && LaterUnkept(rows[..n], i, index, keeps)
    ensures r.Some? ==> exists i :: 0 <= i < |rows| && rows[i] == r.value && LaterUnkept(rows, i, index, keeps)
  {
    if r.Some? {
      var i :| 0 <= i < n && rows[..n][i] == r.value && LaterUnkept(rows[..n], i, index, keeps);
      assert rows[i] == r.value;
      assert LaterUnkept(rows, i, index, keeps) by {
        forall j | i < j < |rows|
          ensures !Picks(rows[j], index, keeps)
        {
          if j < n {
            assert rows[j] == rows[..n][j];
          }
        }
      }
    }
  }

  /** A read without conditions besides the list itself: every row is kept. */
  predicate KeepsAll(row: RowData) {
    true
  }

  /** The row an index shows: its latest kept row, unless that row is a deletion. */
  function Visible(rows: seq<RowData>, index: JsValue, keeps: RowData -> bool): (r: Option<RowData>)
    ensures r.Some? ==> r.value.rowType != "DELETE" && Latest(rows, index, keeps) == r
    ensures r.None? <==> Latest(rows, index, keeps).None? || Latest(rows, index, keeps).value.rowType == "DELETE"
  {
    match Latest(rows, index, keeps)
    case Some(row) => if row.rowType == "DELETE" then None else Some(row)
    case None => None
  }

  /** After `set`, every read whose conditions the new row meets (a read without conditions among them) shows it. */
  lemma SetShows(rows: seq<RowData>, index: JsValue, state: JsValue, meta: JsValue, stringify: JsValue -> string,
                 keeps: RowData -> bool)
    requires keeps(InsertRow("UPDATE", index, state, meta, stringify))
    ensures var row := InsertRow("UPDATE", index, state, meta, stringify);
      Visible(rows + [row], index, keeps) == Some(row)
  {
    var row := InsertRow("UPDATE", index, state, meta, stringify);
    assert (rows + [row])[|rows|] == row;
  }

  /** After `delete`, every read whose conditions keep the deletion (a read without conditions among them) shows nothing. */
  lemma DeleteHides(rows: seq<RowData>, index: JsValue, stringify: JsValue -> string, keeps: RowData -> bool)
    requires keeps(InsertRow("DELETE", index, JsNull, JsNull, stringify))
    ensures Visible(rows + [InsertRow("DELETE", index, JsNull, JsNull, stringify)], index, keeps) == None
  {
    var row := InsertRow("DELETE", index, JsNull, JsNull, stringify);
    assert (rows + [row])[|rows|] == row;
  }

  /**
   * The conditions are tested before the latest version is picked: a later version the
   * conditions reject (a deletion, whose generated columns are NULL, or an update that no
   * longer matches) leaves the earlier version that matched visible.
   */
  lemma RejectedLaterVersionShowsEarlier(rows: seq<RowData>, earlier: RowData, later: RowData, keeps: RowData -> bool)
    requires earlier.rowIndex == later.rowIndex && earlier.rowType != "DELETE"
    requires keeps(earlier) && !keeps(later)
    ensures Visible(rows + [earlier, later], earlier.rowIndex, keeps) == Some(earlier)
    ensures Visible(rows + [earlier, later], earlier.rowIndex, KeepsAll) == if later.rowType == "DELETE" then None else Some(later)
  {
    var all := rows + [earlier, later];
    assert all[|all| - 1] == later;
    assert all[..|all| - 1] == rows + [earlier];
    assert (rows + [earlier])[|rows|] == earlier;
  }

  /** A row inserted for one index leaves every other index as it was. */
  lemma InsertLeavesOthers(rows: seq<RowData>, row: RowData, other: JsValue, keeps: RowData -> bool)
    requires other != row.rowIndex
    ensures Latest(rows + [row], other, keeps) == Latest(rows, other, keeps)
    ensures Visible(rows + [row], other, keeps) == Visible(rows, other, keeps)
  {
    assert (rows + [row])[..|rows|] == rows;
  }

  // ---------------------------------------------------------------------------------------
  // Rows read
  // ---------------------------------------------------------------------------------------

  /** An element of the array filter resolves to. */
  datatype Row = Row(index: JsValue, value: JsValue, meta: JsValue)

  /** The value of a stored row's column, as the driver returns it. */
  function Column(stored: RowData, column: string): JsValue {
    if column == "row_type" then JsString(stored.rowType)
    else if column == "row_index" then stored.rowIndex
    else if column == "state_json" then stored.stateJson
    else if column == "meta_json" then stored.metaJson
    else JsUndefined
  }

  /** The result row MySQL returns for a stored row when the SELECT lists `columns`: those columns, in that order. */
  function SelectedRow(stored: RowData, columns: seq<string>): (x: JsValue)
    ensures x.JsObject? && |x.props| == |columns|
    ensures forall i :: 0 <= i < |columns| ==> x.props[i] == (columns[i], Column(stored, columns[i]))
  {
    JsObject(seq(|columns|, i requires 0 <= i < |columns| => (columns[i], Column(stored, columns[i]))))
  }

  /** A JSON column of a result row: the value its text parses to when the text is truthy, undefined otherwise. */
  function ParsedColumn(x: JsValue, column: string, parse: string -> JsValue): (v: JsValue)
    ensures !Truthy(Get(x, column)) ==> v == JsUndefined
    ensures Get(x, column) == JsString(Str(Get(x, column))) && Truthy(Get(x, column)) ==> v == parse(Str(Get(x, column)))
  {
    var c := Get(x, column);
    if Truthy(c) then parse(Str(c)) else JsUndefined
  }

  /** The `results.map` of `_filter`: index, value and meta of one result row. */
  function TranslateRow(x: JsValue, parse: string -> JsValue): Row {
    Row(Get(x, "row_index"), ParsedColumn(x, "state_json", parse), ParsedColumn(x, "meta_json", parse))
  }

  function TranslateRows(results: seq<JsValue>, parse: string -> JsValue): (rows: seq<Row>)
    ensures |rows| == |results|
  {
    seq(|results|, i requires 0 <= i < |results| => TranslateRow(results[i], parse))
  }

  /** As written, the SELECT does not read `meta_json`, so every row comes back with an undefined meta. */
  lemma MetaLostAsWritten(stored: RowData, parse: string -> JsValue)
    ensures TranslateRow(SelectedRow(stored, SelectedColumns), parse).meta == JsUndefined
  {
    var x := SelectedRow(stored, SelectedColumns);
    assert x.props[0].0 == "state_json" && x.props[1].0 == "row_index";
    assert forall i :: 0 <= i < |x.props| ==> x.props[i].0 != "meta_json";
  }

  /**
   * With `meta_json` selected, a row reads back as it was written: its index, and its state
   * and meta whenever they were truthy (the JSON text of a value parses back to it and is
   * never empty), undefined otherwise.
   */
  lemma StoredRowReadsBack(rowType: string, index: JsValue, state: JsValue, meta: JsValue,
                           stringify: JsValue -> string, parse: string -> JsValue)
    requires Truthy(state) ==> stringify(state) != "" && parse(stringify(state)) == state
    requires Truthy(meta) ==> stringify(meta) != "" && parse(stringify(meta)) == meta
    ensures TranslateRow(SelectedRow(InsertRow(rowType, index, state, meta, stringify), SelectedColumnsFixed), parse)
         == Row(index,
                if Truthy(state) then state else JsUndefined,
                if Truthy(meta) then meta else JsUndefined)
  {
    var stored := InsertRow(rowType, index, state, meta, stringify);
    var x := SelectedRow(stored, SelectedColumnsFixed);
    assert x.props[0] == ("state_json", stored.stateJson);
    assert x.props[1] == ("meta_json", stored.metaJson);
    assert x.props[2] == ("row_index", index);
    assert Get(x, "state_json") == stored.stateJson;
    assert Get(x, "meta_json") == stored.metaJson;
    assert Get(x, "row_index") == index;
  }

  // ---------------------------------------------------------------------------------------
  // The state list
  // ---------------------------------------------------------------------------------------

  /** A 32-bit MySQL INT, the type of `row_index`. */
  type SqlInt = x: int | -0x8000_0000 <= x < 0x8000_0000

  class StateList {
    var options: Options
    /** The shared pool, once `init` created it. */
    var pool: Option<PoolConfig>
    /** Every statement sent through the pool, oldest first. */
    var sent: seq<Statement>

    /** The constructor: the options with their defaults, and no pool yet. */
    constructor(options: Options)
      ensures this.options == WithDefaults(options) && pool == None && sent == []
    {
      this.options := WithDefaults(options);
      pool := None;
      sent := [];
    }

    /** `init`: checks the connection options in order and creates the pool. */
    method Init() returns (outcome: Result<PoolConfig>)
      modifies this
      ensures outcome == InitCheck(options)
      ensures options == old(options) && sent == old(sent)
      ensures pool == if outcome.Ok? then Some(outcome.value) else old(pool)
    {
      if !Truthy(options.host) {
        return Err(HostRequired);
      }
      if !Truthy(options.port) {
        return Err(PortRequired);
      }
      if !Truthy(options.user) {
        return Err(UserRequired);
      }
      if !Truthy(options.password) {
        return Err(PasswordRequired);
      }
      if !Truthy(options.database) {
        return Err(DatabaseRequired);
      }
      var config := PoolConfig(options.host, options.port, options.user, options.password, options.database,
                               options.connectionPoolLimit, options.connectionPoolLimit);
      pool := Some(config);
      return Ok(config);
    }

    /** `createList`: sends the CREATE TABLE statement built from the configuration. */
    method CreateList(config: StateListConfig)
      requires pool.Some?
      modifies this
      ensures sent == old(sent) + [Query(CreateListQuery(config))]
      ensures options == old(options) && pool == old(pool)
    {
      var fieldsString := FieldsString(config.fields);
      var secondaryKeyString := SecondaryKeyString(config.secondaryKeys);
      var indexString := IndexText(fieldsString);
      sent := sent + [Query(CreateTableText(config.name, fieldsString, indexString, secondaryKeyString))];
    }

    /** `delete`: inserts a DELETE row for the index, with no state and no meta. */
    method Delete(listName: JsValue, index: JsValue)
      requires pool.Some?
      modifies this
      ensures sent == old(sent) + [Insert(Str(listName), RowData("DELETE", index, JsNull, JsNull))]
      ensures options == old(options) && pool == old(pool)
    {
      var row := InsertRow("DELETE", index, JsNull, JsNull, (v: JsValue) => "");
      sent := sent + [Insert(Str(listName), row)];
    }

    /** `set`: inserts an UPDATE row carrying the new state and meta for the index. */
    method Set(listName: JsValue, index: JsValue, state: JsValue, meta: JsValue, stringify: JsValue -> string)
      requires pool.Some?
      modifies this
      ensures sent == old(sent) + [Insert(Str(listName), InsertRow("UPDATE", index, state, meta, stringify))]
      ensures options == old(options) && pool == old(pool)
    {
      sent := sent + [Insert(Str(listName), InsertRow("UPDATE", index, state, meta, stringify))];
    }

    /**
     * `push`: asks for the largest row index (`maxRows` is what that query returned) and
     * inserts a CREATE row at the next index.
     */
    method Push(listName: JsValue, state: JsValue, meta: JsValue, stringify: JsValue -> string,
                maxRows: seq<Option<SqlInt>>)
      requires pool.Some?
      modifies this
      ensures sent == old(sent) + [Query(NextRowIndexQuery(listName)),
                                   Insert(Str(listName), InsertRow("CREATE", JsNumber(NextRowIndex(maxRows)), state, meta, stringify))]
      ensures options == old(options) && pool == old(pool)
    {
      sent := sent + [Query(NextRowIndexQuery(listName))];
      var nextRowIndex: int := if |maxRows| > 0 && maxRows[0].Some? then maxRows[0].value as int + 1 else 0;
      sent := sent + [Insert(Str(listName), InsertRow("CREATE", JsNumber(nextRowIndex), state, meta, stringify))];
    }

    /**
     * `_filter`: sends the SELECT for the list, the conditions of `filters` and the optional
     * id, start index and limit, and translates the rows it returned (`results`).
     */
    method FilterRows(listName: JsValue, lastId: JsValue, startRowIndex: JsValue, limit: JsValue,
                      filters: seq<Filter>, results: seq<JsValue>, parse: string -> JsValue)
      returns (rows: seq<Row>)
      requires pool.Some?
      modifies this
      ensures sent == old(sent) + [Query(FilterQuery(listName, lastId, startRowIndex, limit, ListFiltersText(filters)))]
      ensures rows == TranslateRows(results, parse)
      ensures options == old(options) && pool == old(pool)
    {
      var additionalFilters := ListFilters(filters);
      var rowIndexFilter := RowIndexFilter(startRowIndex);
      var limitFilter := LimitFilter(limit);
      var idFilter := IdFilter(lastId);
      var getQuery := SelectText(listName, SelectedColumns, idFilter, rowIndexFilter, additionalFilters, limitFilter);
      sent := sent + [Query(getQuery)];
      rows := TranslateRows(results, parse);
    }

    /** `filter`: every row matching the filters, with no start index and no limit. */
    method Filter(listName: JsValue, lastId: JsValue, filters: seq<Filter>, results: seq<JsValue>,
                  parse: string -> JsValue)
      returns (rows: seq<Row>)
      requires pool.Some?
      modifies this
      ensures sent == old(sent) + [Query(FilterQuery(listName, lastId, JsNull, JsNull, ListFiltersText(filters)))]
      ensures rows == TranslateRows(results, parse)
      ensures options == old(options) && pool == old(pool)
    {
      rows := FilterRows(listName, lastId, JsNull, JsNull, filters, results, parse);
    }

    /** `find`: the first row `filter` would give, or nothing (undefined) when there is none. */
    method Find(listName: JsValue, lastId: JsValue, filters: seq<Filter>, results: seq<JsValue>,
                parse: string -> JsValue)
      returns (row: Option<Row>)
      requires pool.Some?
      modifies this
      ensures sent == old(sent) + [Query(FilterQuery(listName, lastId, JsNull, JsNull, ListFiltersText(filters)))]
      ensures row.None? <==> results == []
      ensures row.Some? ==> row.value == TranslateRow(results[0], parse)
      ensures options == old(options) && pool == old(pool)
    {
      var rows := FilterRows(listName, lastId, JsNull, JsNull, filters, results, parse);
      if |rows| > 0 {
        row := Some(rows[0]);
      } else {
        row := None;
      }
    }
  }
}
