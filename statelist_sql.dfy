/**
 * The SQL text the MySQL state list sends: the CREATE TABLE statement of createList, the
 * MAX(row_index) query behind push, and the SELECT of filter and find. Everything here is
 * text built from the caller's values; executing it is outside the model.
 */
module StateListSql {
  import opened JsValues
  import opened Wrappers

  /** An entry of `fields`: its `name` and `type` properties (JsUndefined when missing). */
  datatype Field = Field(name: JsValue, fieldType: JsValue)

  /** An entry of a secondary key's column array: its `name` property. */
  datatype KeyColumn = KeyColumn(name: JsValue)

  /** One own property of `secondaryKeys`: the key's name and its array of columns. */
  datatype SecondaryKey = SecondaryKey(name: string, columns: seq<KeyColumn>)

  /**
   * The argument of createList. A missing `fields` array or `secondaryKeys` object is the
   * empty one (both are skipped); `secondaryKeys` lists its own properties in creation order.
   * An object has no two properties with one name, so a `secondaryKeys` list that repeats a
   * name stands for no object of the source; looking a name up takes its first entry.
   */
  datatype StateListConfig = StateListConfig(name: JsValue, fields: seq<Field>, secondaryKeys: seq<SecondaryKey>)

  const Pad8: string := "        "
  const Pad12: string := Pad8 + "    "
  const Pad16: string := Pad8 + Pad8
  const Pad20: string := Pad16 + "    "
  const Pad24: string := Pad16 + Pad8
  const Pad28: string := Pad24 + "    "

  // ---------------------------------------------------------------------------------------
  // createList: generated columns
  // ---------------------------------------------------------------------------------------

  /** The field types createList maps to a column type (compared with ===). */
  predicate KnownType(t: JsValue) {
    t == JsString("string") || t == JsString("int") || t == JsString("boolean")
  }

  function SqlType(t: JsValue): string
    requires KnownType(t)
  {
    if t == JsString("string") then "varchar(250)" else if t == JsString("int") then "INT" else "BOOLEAN"
  }

  /**
   * One field's column definition: a column named after the field whose value is the
   * same-named member of `state_json`, then " NULL". A field of any other type writes only " NULL".
   */
  function ColumnDefinition(f: Field): string {
    var n := Str(f.name);
    (if KnownType(f.fieldType)
     then "`" + n + "` " + SqlType(f.fieldType) + " GENERATED ALWAYS AS (`state_json` ->> '$." + n + "')"
     else "")
    + " NULL"
  }

  function ColumnDefinitions(fields: seq<Field>): (defs: seq<string>)
    ensures |defs| == |fields|
  {
    seq(|fields|, i requires 0 <= i < |fields| => ColumnDefinition(fields[i]))
  }

  /** The generated columns: a leading comma, then the definitions separated by ", ". */
  function FieldsText(fields: seq<Field>): string {
    if fields == [] then "" else "," + Join(ColumnDefinitions(fields), ", ")
  }

  /** createList's first loop: appends each field's definition, with ", " after all but the last. */
  method FieldsString(fields: seq<Field>) returns (text: string)
    ensures text == FieldsText(fields)
  {
    text := "";
    if |fields| > 0 {
      text := text + ",";
      ghost var defs := ColumnDefinitions(fields);
      for index := 0 to |fields|
        invariant text == "," + Listed(defs, ", ", index)
      {
        ghost var before := text;
        text := text + ColumnDefinition(fields[index]);
        if index < |fields| - 1 {
          text := text + ", ";
        }
        ListedStep(defs, ", ", index, ",", before, text);
      }
      ListedAll(defs, ", ");
    }
  }

  /** Without fields there is nothing to add; with fields, the text starts with the comma that separates it from `meta_json`. */
  lemma FieldsTextShape(fields: seq<Field>)
    ensures FieldsText(fields) == "" <==> fields == []
    ensures fields != [] ==> FieldsText(fields)[0] == ','
  {
  }

  // ---------------------------------------------------------------------------------------
  // createList: secondary keys
  // ---------------------------------------------------------------------------------------

  function KeyNames(keys: seq<SecondaryKey>): (names: seq<string>)
    ensures |names| == |keys|
  {
    seq(|keys|, i requires 0 <= i < |keys| => keys[i].name)
  }

  /** `secondaryKeys[name]`: the columns of the first key with that name. */
  function ColumnsOf(keys: seq<SecondaryKey>, name: string): seq<KeyColumn>
    decreases |keys|
  {
    if keys == [] then [] else if keys[0].name == name then keys[0].columns else ColumnsOf(keys[1..], name)
  }

  function QuotedColumns(columns: seq<KeyColumn>): (quoted: seq<string>)
    ensures |quoted| == |columns|
  {
    seq(|columns|, i requires 0 <= i < |columns| => "`" + Str(columns[i].name) + "`")
  }

  /** One secondary key: its name, then its columns separated by ", " and closed by ")" after the last one. */
  function KeyText(name: string, columns: seq<KeyColumn>): string {
    ", KEY `" + name + "` (" + Join(QuotedColumns(columns), ", ") + (if columns == [] then "" else ")")
  }

  /** The keys in the order `for…in` visits the own properties of `secondaryKeys`. */
  function KeyOrder(keys: seq<SecondaryKey>): seq<string> {
    OwnKeyOrder(KeyNames(keys))
  }

  function KeyTexts(keys: seq<SecondaryKey>): (texts: seq<string>)
    ensures |texts| == |KeyOrder(keys)|
  {
    var order := KeyOrder(keys);
    seq(|order|, i requires 0 <= i < |order| => KeyText(order[i], ColumnsOf(keys, order[i])))
  }

  function KeysText(keys: seq<SecondaryKey>): string {
    Concat(KeyTexts(keys))
  }

  /** createList's second loop: for each own key, ", KEY `name` (" and the key's columns. */
  method SecondaryKeyString(keys: seq<SecondaryKey>) returns (text: string)
    ensures text == KeysText(keys)
  {
    text := "";
    var order := KeyOrder(keys);
    ghost var texts := KeyTexts(keys);
    for k := 0 to |order|
      invariant text == Concat(texts[..k])
    {
      var key := order[k];
      var keyObject := ColumnsOf(keys, key);
      ghost var start := text;
      var opening := ", KEY `" + key + "` (";
      text := text + opening;
      ghost var quoted := QuotedColumns(keyObject);
      for index := 0 to |keyObject|
        invariant text == start + opening + Closed(quoted, index)
      {
        ghost var before := text;
        var column := "`" + Str(keyObject[index].name) + "`";
        text := text + column;
        if index < |keyObject| - 1 {
          text := text + ", ";
        } else {
          text := text + ")";
        }
        ClosedStep(quoted, index, start + opening, before, text);
      }
      ClosedAll(quoted);
      KeyStep(start, opening, Closed(quoted, |quoted|), texts[k]);
      ConcatSnoc(texts, k);
    }
    assert texts[..|order|] == texts;
  }

  /** The first `k` parts joined by ", ", then ", " when more parts come or ")" after the last one. */
  ghost function Closed(parts: seq<string>, k: nat): string
    requires k <= |parts|
  {
    Join(parts[..k], ", ") + (if 0 < k < |parts| then ", " else if k == |parts| > 0 then ")" else "")
  }

  lemma ClosedStep(parts: seq<string>, k: nat, head: string, before: string, after: string)
    requires k < |parts| && before == head + Closed(parts, k)
    requires k < |parts| - 1 ==> after == before + parts[k] + ", "
    requires k == |parts| - 1 ==> after == before + parts[k] + ")"
    ensures after == head + Closed(parts, k + 1)
  {
    JoinSnoc(parts, ", ", k);
  }

  lemma ClosedAll(parts: seq<string>)
    ensures Closed(parts, |parts|) == Join(parts, ", ") + (if parts == [] then "" else ")")
  {
    assert parts[..|parts|] == parts;
  }

  lemma KeyStep(start: string, opening: string, rest: string, keyText: string)
    requires keyText == opening + rest
    ensures start + opening + rest == start + keyText
  {
  }

  /** Every key opens its column list, and closes it exactly when the key has at least one column. */
  lemma KeyTextCloses(name: string, columns: seq<KeyColumn>)
    ensures var t := KeyText(name, columns);
      |t| > 0 && (t[|t| - 1] == ')' <==> columns != [])
  {
    if columns == [] {
      assert KeyText(name, columns)[|KeyText(name, columns)| - 1] == '(';
    }
  }

  // ---------------------------------------------------------------------------------------
  // createList: the index and the statement
  // ---------------------------------------------------------------------------------------

  const RowIndexIndex: string := "INDEX idx_row_index (row_index)"

  /** The index element: preceded by a comma only when there are generated columns. */
  function IndexText(fieldsText: string): string {
    (if |fieldsText| > 0 then "," else "") + RowIndexIndex
  }

  /** The index element with the comma always in place, as the statement needs it. */
  function IndexTextFixed(): string {
    "," + RowIndexIndex
  }

  /** A table element that follows `meta_json JSON` has to start with the comma that separates it. */
  predicate Separated(element: string) {
    element != [] && element[0] == ','
  }

  /** As written, a list without fields puts its index straight after `meta_json JSON`, with no comma between. */
  lemma IndexUnseparatedWithoutFields()
    ensures !Separated(IndexText(FieldsText([])))
    ensures Separated(IndexTextFixed())
  {
  }

  /** With the comma always in place, every element after `meta_json JSON` is separated, fields or not. */
  lemma ElementsSeparated(fields: seq<Field>)
    ensures Separated(IndexTextFixed())
    ensures fields != [] ==> Separated(FieldsText(fields))
    ensures fields != [] ==> IndexText(FieldsText(fields)) == IndexTextFixed()
  {
  }

  function CreateTableText(name: JsValue, fieldsText: string, indexText: string, keysText: string): string {
    ColumnsText(name, fieldsText) + Pad16 + indexText + KeysPart(keysText)
  }

  function KeysPart(keysText: string): string {
    "\n" + Pad16 + keysText + "\n" + Pad12 + ");"
  }

  /** The statement up to the index element: the fixed columns, then the generated ones. */
  function ColumnsText(name: JsValue, fieldsText: string): string {
    "CREATE TABLE IF NOT EXISTS " + Str(name) + " \n"
    + Pad12 + "(\n"
    + Pad16 + "id INT AUTO_INCREMENT PRIMARY KEY,\n"
    + Pad16 + "row_type VARCHAR(10) NOT NULL,\n"
    + Pad16 + "row_index INT,\n"
    + Pad16 + "row_date TIMESTAMP DEFAULT CURRENT_TIMESTAMP,\n"
    + Pad16 + "state_json JSON,\n"
    + Pad16 + "meta_json JSON\n"
    + Pad16 + fieldsText + " \n"
  }

  function CreateListQuery(config: StateListConfig): string {
    var fieldsText := FieldsText(config.fields);
    CreateTableText(config.name, fieldsText, IndexText(fieldsText), KeysText(config.secondaryKeys))
  }

  function CreateListQueryFixed(config: StateListConfig): string {
    CreateTableText(config.name, FieldsText(config.fields), IndexTextFixed(), KeysText(config.secondaryKeys))
  }

  /** The statement createList sends and the one with the comma always in place differ exactly for lists without fields. */
  lemma CreateListQueryFixesOnlyEmptyFields(config: StateListConfig)
    ensures CreateListQueryFixed(config) == CreateListQuery(config) <==> config.fields != []
  {
    var fieldsText := FieldsText(config.fields);
    if config.fields == [] {
      MiddleDiffers(ColumnsText(config.name, fieldsText) + Pad16, IndexTextFixed(), IndexText(fieldsText),
                    KeysPart(KeysText(config.secondaryKeys)));
    }
  }

  /** Texts that differ only in a middle part of different length are different. */
  lemma MiddleDiffers(head: string, middle1: string, middle2: string, tail: string)
    requires |middle1| != |middle2|
    ensures head + middle1 + tail != head + middle2 + tail
  {
    assert |head + middle1 + tail| != |head + middle2 + tail|;
  }

  /** Texts with the same head and tail are equal exactly when their middle parts are. */
  lemma MiddleCancels(head: string, middle1: string, middle2: string, tail: string)
    ensures head + middle1 + tail == head + middle2 + tail <==> middle1 == middle2
  {
    if head + middle1 + tail == head + middle2 + tail {
      var t := head + middle1 + tail;
      assert |middle1| == |middle2|;
      assert t[|head|..|head| + |middle1|] == middle1;
      assert (head + middle2 + tail)[|head|..|head| + |middle2|] == middle2;
    }
  }

  // ---------------------------------------------------------------------------------------
  // push: the next row index
  // ---------------------------------------------------------------------------------------

  function NextRowIndexQuery(listName: JsValue): string {
    "\n" + Pad24 + "SELECT\n" + Pad28 + "MAX(row_index) as max_row_index\n" + Pad24 + "FROM \n" + Pad28 + Str(listName)
  }

  /**
   * The index push gives a new row, from the rows the MAX query returned (None is SQL NULL,
   * on which parseInt yields NaN): one past the maximum, or 0 when there is none.
   */
  function NextRowIndex(maxRows: seq<Option<int>>): int {
    if |maxRows| > 0 && maxRows[0].Some? then maxRows[0].value + 1 else 0
  }

  /** SQL MAX over the non-null row indices of a table: NULL for an empty table. */
  function SqlMax(indices: seq<int>): (m: Option<int>)
    ensures m.None? <==> indices == []
    ensures m.Some? ==> m.value in indices && forall i :: 0 <= i < |indices| ==> indices[i] <= m.value
    decreases |indices|
  {
    if indices == [] then None
    else
      var rest := SqlMax(indices[1..]);
      if rest.None? || indices[0] >= rest.value then Some(indices[0]) else rest
  }

  /** A pushed row gets an index that no row of the table has yet: above all of them, 0 for an empty table. */
  lemma NextRowIndexIsFresh(indices: seq<int>)
    ensures forall i :: 0 <= i < |indices| ==> indices[i] < NextRowIndex([SqlMax(indices)])
    ensures indices == [] ==> NextRowIndex([SqlMax(indices)]) == 0
  {
  }

  /** When the indices so far are exactly 0 … n-1 (a list built by pushes), the next one is n. */
  lemma NextRowIndexAppends(indices: seq<int>, n: nat)
    requires forall i :: 0 <= i < |indices| ==> 0 <= indices[i] < n
    requires forall j :: 0 <= j < n ==> j in indices
    ensures NextRowIndex([SqlMax(indices)]) == n
  {
    if n > 0 {
      assert n - 1 in indices;
    }
  }

  // ---------------------------------------------------------------------------------------
  // filter and find: the SELECT
  // ---------------------------------------------------------------------------------------

  /** The columns the SELECT reads from the latest version of each row, and the list `meta_json` needs to come back. */
  const SelectedColumns: seq<string> := ["state_json", "row_index"]
  const SelectedColumnsFixed: seq<string> := ["state_json", "meta_json", "row_index"]

  function SelectList(columns: seq<string>): string {
    Join(seq(|columns|, i requires 0 <= i < |columns| => "list." + columns[i]), ",\n" + Pad16)
  }

  function IdFilter(lastId: JsValue): string {
    if Truthy(lastId) then "AND id <= " + Str(lastId) else ""
  }

  function RowIndexFilter(startRowIndex: JsValue): string {
    if Truthy(startRowIndex) then "AND row_index >= " + Str(startRowIndex) else ""
  }

  /** The LIMIT text is built and discarded, so the limit clause is always empty. */
  function LimitFilter(limit: JsValue): string {
    ""
  }

  /** The limit clause the `limit` argument is meant to add. */
  function LimitFilterFixed(limit: JsValue): string {
    if Truthy(limit) then "LIMIT " + Str(limit) else ""
  }

  /** The latest version of every row index (no later than `lastId`), without deleted rows, in index order. */
  function SelectText(listName: JsValue, columns: seq<string>, idFilter: string, rowIndexFilter: string,
                      additionalFilters: string, limitFilter: string): string
  {
    OrderedSelectText(listName, columns, idFilter, rowIndexFilter, additionalFilters) + Pad12 + limitFilter + SelectEnd
  }

  const SelectEnd: string := "\n" + Pad8

  /** The SELECT up to its ORDER BY clause. */
  function OrderedSelectText(listName: JsValue, columns: seq<string>, idFilter: string, rowIndexFilter: string,
                             additionalFilters: string): string
  {
    var name := Str(listName);
    "\n\n"
    + Pad12 + "SELECT\n"
    + Pad16 + SelectList(columns) + "\n"
    + Pad12 + "FROM\n"
    + Pad16 + "(\n"
    + Pad20 + "SELECT\n"
    + Pad24 + "row_index,\n"
    + Pad24 + "MAX(id) as id\n"
    + Pad20 + "FROM \n"
    + Pad24 + name + "\n"
    + Pad20 + "WHERE \n"
    + Pad24 + "1 = 1\n"
    + Pad24 + idFilter + "\n"
    + Pad24 + rowIndexFilter + "\n"
    + Pad24 + additionalFilters + "\n"
    + Pad20 + "GROUP BY row_index\n"
    + Pad16 + ") rows\n"
    + Pad12 + "JOIN\n"
    + Pad16 + name + " list ON list.id = rows.id\n"
    + Pad12 + "WHERE\n"
    + Pad20 + "list.row_type <> \"DELETE\"\n"
    + Pad12 + "ORDER BY\n"
    + Pad16 + "list.row_index\n"
  }

  /** The SELECT `_filter` sends. */
  function FilterQuery(listName: JsValue, lastId: JsValue, startRowIndex: JsValue, limit: JsValue,
                                additionalFilters: string): string
  {
    SelectText(listName, SelectedColumns, IdFilter(lastId), RowIndexFilter(startRowIndex),
               additionalFilters, LimitFilter(limit))
  }

  /** The SELECT with `meta_json` selected and the limit applied. */
  function FilterQueryFixed(listName: JsValue, lastId: JsValue, startRowIndex: JsValue, limit: JsValue,
                       additionalFilters: string): string
  {
    SelectText(listName, SelectedColumnsFixed, IdFilter(lastId), RowIndexFilter(startRowIndex),
               additionalFilters, LimitFilterFixed(limit))
  }

  /** As written, the limit never reaches the query: with a limit of 10 or any other, the text is the one without a limit. */
  lemma LimitIgnoredAsWritten(listName: JsValue, lastId: JsValue, startRowIndex: JsValue, limit: JsValue, additionalFilters: string)
    ensures FilterQuery(listName, lastId, startRowIndex, limit, additionalFilters)
         == FilterQuery(listName, lastId, startRowIndex, JsNull, additionalFilters)
  {
  }

  /** With the fix, a given limit always changes the query, and an absent one leaves it without a LIMIT clause. */
  lemma LimitApplied(listName: JsValue, lastId: JsValue, startRowIndex: JsValue, limit: JsValue, additionalFilters: string)
    ensures Truthy(limit) <==>
      FilterQueryFixed(listName, lastId, startRowIndex, limit, additionalFilters)
        != FilterQueryFixed(listName, lastId, startRowIndex, JsNull, additionalFilters)
    ensures Truthy(limit) ==> LimitFilterFixed(limit) == "LIMIT " + Str(limit)
  {
    var head := OrderedSelectText(listName, SelectedColumnsFixed, IdFilter(lastId), RowIndexFilter(startRowIndex), additionalFilters) + Pad12;
    MiddleCancels(head, LimitFilterFixed(limit), LimitFilterFixed(JsNull), SelectEnd);
  }

  /** The conditions of the query add their own length to the text and nothing else. */
  lemma FilterQueryLength(listName: JsValue, lastId: JsValue, startRowIndex: JsValue, limit: JsValue,
                          additionalFilters: string)
    ensures |FilterQuery(listName, lastId, startRowIndex, limit, additionalFilters)|
         == |OrderedSelectText(listName, SelectedColumns, "", "", "")| + |Pad12| + |SelectEnd|
            + |IdFilter(lastId)| + |RowIndexFilter(startRowIndex)| + |additionalFilters| + |LimitFilter(limit)|
  {
    OrderedSelectLength(listName, SelectedColumns, IdFilter(lastId), RowIndexFilter(startRowIndex), additionalFilters);
  }

  /** The conditions of the SELECT add their own length to the text and nothing else. */
  lemma OrderedSelectLength(listName: JsValue, columns: seq<string>, idFilter: string, rowIndexFilter: string,
                            additionalFilters: string)
    ensures |OrderedSelectText(listName, columns, idFilter, rowIndexFilter, additionalFilters)|
         == |OrderedSelectText(listName, columns, "", "", "")| + |idFilter| + |rowIndexFilter| + |additionalFilters|
  {
  }

  /** The id bound is added exactly when `lastId` is truthy: a falsy one reads like no argument at all. */
  lemma IdBoundOnlyWhenGiven(listName: JsValue, lastId: JsValue, startRowIndex: JsValue, limit: JsValue,
                             additionalFilters: string)
    ensures Truthy(lastId) <==>
      FilterQuery(listName, lastId, startRowIndex, limit, additionalFilters)
        != FilterQuery(listName, JsNull, startRowIndex, limit, additionalFilters)
  {
    if Truthy(lastId) {
      FilterQueryLength(listName, lastId, startRowIndex, limit, additionalFilters);
      FilterQueryLength(listName, JsNull, startRowIndex, limit, additionalFilters);
    } else {
      assert IdFilter(lastId) == IdFilter(JsNull);
    }
  }

  /** The row index bound is added exactly when `startRowIndex` is truthy. */
  lemma RowIndexBoundOnlyWhenGiven(listName: JsValue, lastId: JsValue, startRowIndex: JsValue, limit: JsValue,
                                   additionalFilters: string)
    ensures Truthy(startRowIndex) <==>
      FilterQuery(listName, lastId, startRowIndex, limit, additionalFilters)
        != FilterQuery(listName, lastId, JsNull, limit, additionalFilters)
  {
    if Truthy(startRowIndex) {
      FilterQueryLength(listName, lastId, startRowIndex, limit, additionalFilters);
      FilterQueryLength(listName, lastId, JsNull, limit, additionalFilters);
    } else {
      assert RowIndexFilter(startRowIndex) == RowIndexFilter(JsNull);
    }
  }
}
