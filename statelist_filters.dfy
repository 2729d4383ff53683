/**
 * The WHERE conditions filter and find add for their `filters` argument. The filters are
 * grouped by `group`, each group by `groupBooleanOperator` (default 'and'); every such bucket
 * adds " AND " and then one parenthesised run of conditions joined by AND or OR.
 */
module StateListFilters {
  import opened JsValues
  import opened Wrappers
  import opened Lodash

  /** An entry of `filters`, with its properties (JsUndefined when missing). */
  datatype Filter = Filter(
    group: JsValue,
    groupBooleanOperator: JsValue,
    operator: JsValue,
    field: JsValue,
    value: JsValue,
    rangeFrom: JsValue,   // `from`
    rangeTo: JsValue)     // `to`

  // ---------------------------------------------------------------------------------------
  // Quoting values
  // ---------------------------------------------------------------------------------------

  /** `s.replace(/'/g, "''")`, the escaping filter values get: every quote doubled, backslashes left alone. */
  function DoubleQuotes(s: string): string
    decreases |s|
  {
    if s == [] then "" else DoubleQuote(s[0]) + DoubleQuotes(s[1..])
  }

  function DoubleQuote(c: char): string {
    if c == '\'' then "''" else [c]
  }

  /** Reads a pair of quotes as one quote and any other character as itself. */
  function Undouble(t: string): string
    decreases |t|
  {
    if t == [] then ""
    else if |t| >= 2 && t[0] == '\'' && t[1] == '\'' then "'" + Undouble(t[2..])
    else [t[0]] + Undouble(t[1..])
  }

  /** Doubling the quotes loses nothing: reading each pair back as one quote gives the value again. */
  lemma {:induction false} UndoubleRoundTrip(s: string)
    ensures Undouble(DoubleQuotes(s)) == s
    decreases |s|
  {
    if s != [] {
      var t := DoubleQuotes(s);
      var tail := DoubleQuotes(s[1..]);
      UndoubleRoundTrip(s[1..]);
      assert t == DoubleQuote(s[0]) + tail;
      if s[0] == '\'' {
        assert t[0] == '\'' && t[1] == '\'' && t[2..] == tail;
      } else {
        assert t[0] == s[0] && t[1..] == tail;
      }
      assert [s[0]] + s[1..] == s;
    }
  }

  /** The escaped text holds twice the quotes of the value and exactly as many of every other character. */
  lemma {:induction false} DoubleQuotesCounts(s: string, c: char)
    ensures multiset(DoubleQuotes(s))[c] == if c == '\'' then 2 * multiset(s)[c] else multiset(s)[c]
    decreases |s|
  {
    if s != [] {
      DoubleQuotesCounts(s[1..], c);
      DoubleQuoteCount(s[0], c);
      assert s == [s[0]] + s[1..];
      CountsJoin(DoubleQuote(s[0]), DoubleQuotes(s[1..]), [s[0]], s[1..], c);
    }
  }

  lemma DoubleQuoteCount(x: char, c: char)
    ensures multiset(DoubleQuote(x))[c] == if c == '\'' then 2 * multiset([x])[c] else multiset([x])[c]
  {
    if x == '\'' {
      assert multiset(DoubleQuote(x)) == multiset{'\'', '\''};
    }
  }

  lemma CountsJoin(a: string, b: string, x: string, y: string, c: char)
    requires multiset(a)[c] == if c == '\'' then 2 * multiset(x)[c] else multiset(x)[c]
    requires multiset(b)[c] == if c == '\'' then 2 * multiset(y)[c] else multiset(y)[c]
    ensures multiset(a + b)[c] == if c == '\'' then 2 * multiset(x + y)[c] else multiset(x + y)[c]
  {
  }

  /** A value without a backslash is escaped the same way by both escapings. */
  lemma {:induction false} DoubleQuotesWithoutBackslash(s: string)
    requires forall i :: 0 <= i < |s| ==> s[i] != '\\'
    ensures DoubleQuotes(s) == EscapeLiteral(s)
    decreases |s|
  {
    if s != [] {
      DoubleQuotesWithoutBackslash(s[1..]);
    }
  }

  /** Quotes doubled and backslashes doubled, so that MySQL reads the text back unchanged. */
  function EscapeLiteral(s: string): string
    decreases |s|
  {
    if s == [] then "" else EscapeLiteralChar(s[0]) + EscapeLiteral(s[1..])
  }

  function EscapeLiteralChar(c: char): string {
    if c == '\'' then "''" else if c == '\\' then "\\\\" else [c]
  }

  /** The character MySQL reads for a backslash followed by `c`, in its default SQL mode. */
  function Unescaped(c: char): string {
    if c == '0' then "\0"
    else if c == 'b' then "\U{0008}"
    else if c == 'n' then "\n"
    else if c == 'r' then "\r"
    else if c == 't' then "\t"
    else if c == 'Z' then "\U{001A}"
    else if c == '%' || c == '_' then ['\\', c]
    else [c]
  }

  /**
   * How MySQL reads the text after the opening quote of a single-quoted literal: the string
   * it denotes and the SQL that follows the closing quote, or None when no quote closes it.
   * A backslash escapes the next character and a doubled quote stands for one quote.
   */
  function ReadQuoted(t: string): Option<(string, string)>
    decreases |t|
  {
    if t == [] then None
    else if t[0] == '\\' then
      if |t| == 1 then None
      else
        match ReadQuoted(t[2..])
        case None => None
        case Some(r) => Some((Unescaped(t[1]) + r.0, r.1))
    else if t[0] == '\'' then
      if |t| >= 2 && t[1] == '\'' then
        match ReadQuoted(t[2..])
        case None => None
        case Some(r) => Some(("'" + r.0, r.1))
      else Some(("", t[1..]))
    else
      match ReadQuoted(t[1..])
      case None => None
      case Some(r) => Some(([t[0]] + r.0, r.1))
  }

  /** With quotes and backslashes escaped, MySQL reads exactly the value back and the literal ends where it should. */
  lemma {:induction false} EscapedLiteralRoundTrip(s: string, rest: string)
    requires rest == [] || rest[0] != '\''
    ensures ReadQuoted(EscapeLiteral(s) + "'" + rest) == Some((s, rest))
    decreases |s|
  {
    var t := EscapeLiteral(s) + "'" + rest;
    if s == [] {
      assert t == "'" + rest;
      assert t[1..] == rest;
    } else {
      var tail := EscapeLiteral(s[1..]) + "'" + rest;
      EscapedLiteralRoundTrip(s[1..], rest);
      assert t == EscapeLiteralChar(s[0]) + tail;
      ReadEscapedChar(s[0], tail);
      assert [s[0]] + s[1..] == s;
    }
  }

  /** MySQL reads an escaped character back as that character and carries on after it. */
  lemma ReadEscapedChar(c: char, tail: string)
    requires ReadQuoted(tail).Some?
    ensures ReadQuoted(EscapeLiteralChar(c) + tail) == Some(([c] + ReadQuoted(tail).value.0, ReadQuoted(tail).value.1))
  {
    if c == '\'' {
      ReadDoubledQuote(tail);
    } else if c == '\\' {
      ReadDoubledBackslash(tail);
    } else {
      ReadPlainChar(c, tail);
    }
  }

  /** A doubled quote reads as one quote. */
  lemma ReadDoubledQuote(tail: string)
    requires ReadQuoted(tail).Some?
    ensures ReadQuoted("''" + tail) == Some(("'" + ReadQuoted(tail).value.0, ReadQuoted(tail).value.1))
  {
    var t := "''" + tail;
    assert t[0] == '\'' && t[1] == '\'' && t[2..] == tail;
  }

  /** A doubled backslash reads as one backslash. */
  lemma ReadDoubledBackslash(tail: string)
    requires ReadQuoted(tail).Some?
    ensures ReadQuoted("\\\\" + tail) == Some(("\\" + ReadQuoted(tail).value.0, ReadQuoted(tail).value.1))
  {
    var t := "\\\\" + tail;
    assert t[0] == '\\' && t[1] == '\\' && t[2..] == tail;
    assert Unescaped('\\') == "\\";
  }

  /** Any other character reads as itself. */
  lemma ReadPlainChar(c: char, tail: string)
    requires c != '\'' && c != '\\' && ReadQuoted(tail).Some?
    ensures ReadQuoted([c] + tail) == Some(([c] + ReadQuoted(tail).value.0, ReadQuoted(tail).value.1))
  {
    var t := [c] + tail;
    assert t[0] == c && t[1..] == tail;
  }

  /** As written, a value ending in a backslash swallows the closing quote: the literal runs on into the SQL after it. */
  lemma BackslashBreaksLiteralAsWritten()
    ensures ReadQuoted(DoubleQuotes("x\\") + "' ) ") == None
    ensures ReadQuoted(EscapeLiteral("x\\") + "' ) ") == Some(("x\\", " ) "))
  {
    assert DoubleQuotes("x\\") == "x\\" by {
      assert "x\\"[1..] == "\\";
      assert DoubleQuotes("\\") == "\\" by {
        assert "\\"[1..] == "";
      }
    }
    assert ReadQuoted("") == None;
    assert ReadQuoted(" ") == None by { assert " "[1..] == ""; }
    assert ReadQuoted(") ") == None by { assert ") "[1..] == " "; }
    assert ReadQuoted(" ) ") == None by { assert " ) "[1..] == ") "; }
    assert ReadQuoted("\\' ) ") == None by { assert "\\' ) "[2..] == " ) "; }
    assert ReadQuoted("x\\' ) ") == None by { assert "x\\' ) "[1..] == "\\' ) "; }
    assert "x\\" + "' ) " == "x\\' ) ";
    EscapedLiteralRoundTrip("x\\", " ) ");
    assert EscapeLiteral("x\\") + "' ) " == EscapeLiteral("x\\") + "'" + " ) ";
  }

  /** The filter's value with its quotes doubled: a string, or each string element of an array. */
  function EscapedValue(v: JsValue): JsValue {
    match v
    case JsString(s) => JsString(DoubleQuotes(s))
    case JsArray(elems) =>
      JsArray(seq(|elems|, i requires 0 <= i < |elems| =>
        if elems[i].JsString? then JsString(DoubleQuotes(elems[i].s)) else elems[i]))
    case _ => v
  }

  // ---------------------------------------------------------------------------------------
  // One filter's condition
  // ---------------------------------------------------------------------------------------

  /** What joins a condition to the one before it: '(' for the first, then OR in an 'or' bucket and AND otherwise. */
  function Prefix(index: nat, groupBooleanOperator: string): string {
    if index == 0 then "(" else if groupBooleanOperator == "or" then "OR" else "AND"
  }

  /** ')' after the last condition of a bucket. */
  function Suffix(index: nat, count: nat): string {
    if index == count - 1 then ")" else ""
  }

  /** `is`: a value that converts to a number is compared as it is, anything else as a quoted string. */
  function IsClause(prefix: string, field: string, value: JsValue, suffix: string): string {
    var inFilter := if !IsNaN(value) then Str(value) else "'" + Str(value) + "'";
    " " + prefix + " " + field + " = " + inFilter + " " + suffix + " "
  }

  function QuotedElems(elems: seq<JsValue>): (quoted: seq<string>)
    ensures |quoted| == |elems|
  {
    seq(|elems|, i requires 0 <= i < |elems| => "'" + Str(elems[i]) + "'")
  }

  /** `any`: a non-empty array becomes an IN list of quoted values; anything else adds nothing. */
  function AnyClause(prefix: string, field: string, value: JsValue, suffix: string): string {
    if Truthy(value) && value.JsArray? && |value.elems| > 0
    then " " + prefix + " " + field + " IN (" + Join(QuotedElems(value.elems), ",") + ") " + suffix
    else ""
  }

  /** `range` (quote "") and `dateRange` (quote "\""): a lower bound, an upper bound, or both joined by AND. */
  function RangeClause(prefix: string, field: string, rangeFrom: JsValue, rangeTo: JsValue, suffix: string, quote: string): string {
    (if Truthy(rangeFrom) || Truthy(rangeTo) then " " + prefix else "")
    + (if Truthy(rangeFrom) then " " + field + " >= " + quote + Str(rangeFrom) + quote + " " else "")
    + (if Truthy(rangeFrom) && Truthy(rangeTo) then " AND" else "")
    + (if Truthy(rangeTo) then " " + field + " <= " + quote + Str(rangeTo) + quote + " " else "")
    + suffix + " "
  }

  /** `contains`, `startsWith`, `endsWith`: a LIKE pattern around the value, when the value is truthy. */
  function LikeClause(prefix: string, field: string, value: JsValue, suffix: string, before: string, after: string): string {
    if Truthy(value) then " " + prefix + " " + field + " LIKE '" + before + Str(value) + after + "' " + suffix + " " else ""
  }

  function JsonContains(field: string, v: JsValue): string {
    " JSON_CONTAINS(" + field + ", '\"" + Str(v) + "\"')"
  }

  function JsonContainsTerms(field: string, elems: seq<JsValue>): (terms: seq<string>)
    ensures |terms| == |elems|
  {
    seq(|elems|, i requires 0 <= i < |elems| => JsonContains(field, elems[i]))
  }

  /** `arrayContains`: one JSON_CONTAINS test per array element joined by OR, or one for a single value. */
  function ArrayContainsClause(prefix: string, field: string, value: JsValue, suffix: string): string {
    if Truthy(value) then
      " " + prefix + " "
      + (if value.JsArray? then Join(JsonContainsTerms(field, value.elems), " OR ") else JsonContains(field, value))
      + " " + suffix + " "
    else ""
  }

  function NullClause(prefix: string, field: string, suffix: string, test: string): string {
    " " + prefix + " " + field + " " + test + " " + suffix + " "
  }

  /** The condition one filter adds (compared with ===, so only string operators match); an unknown operator adds nothing. */
  function ClauseText(f: Filter, prefix: string, suffix: string): string {
    var value := EscapedValue(f.value);
    var field := Str(f.field);
    if f.operator == JsString("is") then IsClause(prefix, field, value, suffix)
    else if f.operator == JsString("any") then AnyClause(prefix, field, value, suffix)
    else if f.operator == JsString("range") then RangeClause(prefix, field, f.rangeFrom, f.rangeTo, suffix, "")
    else if f.operator == JsString("dateRange") then RangeClause(prefix, field, f.rangeFrom, f.rangeTo, suffix, "\"")
    else if f.operator == JsString("contains") then LikeClause(prefix, field, value, suffix, "%", "%")
    else if f.operator == JsString("arrayContains") then ArrayContainsClause(prefix, field, value, suffix)
    else if f.operator == JsString("startsWith") then LikeClause(prefix, field, value, suffix, "", "%")
    else if f.operator == JsString("endsWith") then LikeClause(prefix, field, value, suffix, "%", "")
    else if f.operator == JsString("exists") then NullClause(prefix, field, suffix, "IS NOT NULL")
    else if f.operator == JsString("notExists") then NullClause(prefix, field, suffix, "IS NULL")
    else ""
  }

  /** The `any` loop: each value quoted, separated by ','. */
  method InList(elems: seq<JsValue>) returns (inFilter: string)
    ensures inFilter == Join(QuotedElems(elems), ",")
  {
    inFilter := "";
    ghost var quoted := QuotedElems(elems);
    for index := 0 to |elems|
      invariant inFilter == Listed(quoted, ",", index)
    {
      ghost var before := inFilter;
      inFilter := inFilter + ("'" + Str(elems[index]) + "'");
      if index < |elems| - 1 {
        inFilter := inFilter + ",";
      }
      ListedStep(quoted, ",", index, "", before, inFilter);
    }
    ListedAll(quoted, ",");
  }

  /** The `arrayContains` loop over an array value: one JSON_CONTAINS test per element, separated by " OR ". */
  method JsonContainsList(field: string, elems: seq<JsValue>) returns (text: string)
    ensures text == Join(JsonContainsTerms(field, elems), " OR ")
  {
    text := "";
    ghost var terms := JsonContainsTerms(field, elems);
    for index := 0 to |elems|
      invariant text == Listed(terms, " OR ", index)
    {
      ghost var before := text;
      text := text + JsonContains(field, elems[index]);
      if index != |elems| - 1 {
        text := text + " OR ";
      }
      ListedStep(terms, " OR ", index, "", before, text);
    }
    ListedAll(terms, " OR ");
  }

  /**
   * Within a bucket of `count` conditions only the first opens with '(' and only the last
   * closes with ')'; the others are joined by OR in an 'or' bucket and by AND in any other.
   */
  lemma ConnectorsBracketBucket(count: nat, groupBooleanOperator: string)
    ensures forall i :: 0 <= i < count ==> (Prefix(i, groupBooleanOperator) == "(" <==> i == 0)
    ensures forall i :: 0 <= i < count ==> (Suffix(i, count) == ")" <==> i == count - 1)
    ensures forall i :: 0 < i < count ==> (Prefix(i, groupBooleanOperator) == "OR" <==> groupBooleanOperator == "or")
    ensures forall i :: 0 < i < count ==> (Prefix(i, groupBooleanOperator) == "AND" <==> groupBooleanOperator != "or")
  {
  }

  /** The operators the condition switch knows. */
  predicate KnownOperator(op: JsValue) {
    || op == JsString("is") || op == JsString("any") || op == JsString("range") || op == JsString("dateRange")
    || op == JsString("contains") || op == JsString("arrayContains") || op == JsString("startsWith")
    || op == JsString("endsWith") || op == JsString("exists") || op == JsString("notExists")
  }

  /** A filter with any other operator (or a non-string one) adds nothing. */
  lemma UnknownOperatorAddsNothing(f: Filter, prefix: string, suffix: string)
    requires !KnownOperator(f.operator)
    ensures ClauseText(f, prefix, suffix) == ""
  {
  }

  /** Doubling quotes keeps a text empty exactly when it was empty, and so keeps its truthiness. */
  lemma EscapedTruthy(v: JsValue)
    ensures Truthy(EscapedValue(v)) <==> Truthy(v)
    ensures EscapedValue(v).JsArray? <==> v.JsArray?
    ensures v.JsArray? ==> |EscapedValue(v).elems| == |v.elems|
  {
    if v.JsString? && v.s != [] {
      assert DoubleQuotes(v.s) == DoubleQuote(v.s[0]) + DoubleQuotes(v.s[1..]);
    }
  }

  /** `any`, `contains`, `arrayContains`, `startsWith` and `endsWith` add nothing for a falsy value, and `any` nothing for an empty array. */
  lemma EmptyValueAddsNothing(f: Filter, prefix: string, suffix: string)
    requires f.operator in [JsString("any"), JsString("contains"), JsString("arrayContains"), JsString("startsWith"), JsString("endsWith")]
    requires !Truthy(f.value) || (f.operator == JsString("any") && f.value == JsArray([]))
    ensures ClauseText(f, prefix, suffix) == ""
  {
    EscapedTruthy(f.value);
  }

  /** `exists` and `notExists` test the field against NULL whatever the value. */
  lemma NullTests(f: Filter, prefix: string, suffix: string)
    ensures f.operator == JsString("exists") ==>
      ClauseText(f, prefix, suffix) == " " + prefix + " " + Str(f.field) + " IS NOT NULL " + suffix + " "
    ensures f.operator == JsString("notExists") ==>
      ClauseText(f, prefix, suffix) == " " + prefix + " " + Str(f.field) + " IS NULL " + suffix + " "
  {
  }

  /** One round of `_appendFiltersToFilterString`: the condition of the filter at `index`. */
  method Clause(f: Filter, index: nat, count: nat, groupBooleanOperator: string) returns (clause: string)
    ensures clause == ClauseText(f, Prefix(index, groupBooleanOperator), Suffix(index, count))
  {
    var value := EscapedValue(f.value);
    var prefix := Prefix(index, groupBooleanOperator);
    var suffix := Suffix(index, count);
    var field := Str(f.field);
    if f.operator == JsString("any") {
      if Truthy(value) && value.JsArray? && |value.elems| > 0 {
        var inFilter := InList(value.elems);
        clause := " " + prefix + " " + field + " IN (" + inFilter + ") " + suffix;
      } else {
        clause := "";
      }
    } else if f.operator == JsString("arrayContains") && value.JsArray? && Truthy(value) {
      var terms := JsonContainsList(field, value.elems);
      clause := " " + prefix + " " + terms + " " + suffix + " ";
    } else {
      clause := ClauseText(f, prefix, suffix);
    }
  }

  // ---------------------------------------------------------------------------------------
  // One bucket
  // ---------------------------------------------------------------------------------------

  function ClauseTexts(filters: seq<Filter>, groupBooleanOperator: string): (texts: seq<string>)
    ensures |texts| == |filters|
  {
    seq(|filters|, i requires 0 <= i < |filters| =>
      ClauseText(filters[i], Prefix(i, groupBooleanOperator), Suffix(i, |filters|)))
  }

  /** The conditions of one bucket, one after the other. */
  function FiltersText(filters: seq<Filter>, groupBooleanOperator: string): string {
    Concat(ClauseTexts(filters, groupBooleanOperator))
  }

  /** `_appendFiltersToFilterString`: appends the condition of every filter of the bucket. */
  method AppendFilters(filterString: string, filters: seq<Filter>, groupBooleanOperator: string) returns (text: string)
    ensures text == filterString + FiltersText(filters, groupBooleanOperator)
  {
    text := filterString;
    ghost var texts := ClauseTexts(filters, groupBooleanOperator);
    if |filters| > 0 {
      for index := 0 to |filters|
        invariant text == filterString + Concat(texts[..index])
      {
        ghost var before := text;
        var clause := Clause(filters[index], index, |filters|, groupBooleanOperator);
        text := text + clause;
        ConcatStep(filterString, texts, index, before, text);
      }
      assert texts[..|filters|] == texts;
    }
  }

  // ---------------------------------------------------------------------------------------
  // All filters
  // ---------------------------------------------------------------------------------------

  /** The group a filter belongs to: the text of its `group` property. */
  function GroupKey(f: Filter): string {
    Str(f.group)
  }

  /** The bucket of a filter inside its group: the text of `groupBooleanOperator || 'and'`. */
  function OperatorKey(f: Filter): string {
    Str(Or(f.groupBooleanOperator, JsString("and")))
  }

  function BucketText(bucket: (string, seq<Filter>)): string {
    if |bucket.1| > 0 then " AND " + FiltersText(bucket.1, bucket.0) else ""
  }

  function BucketTexts(buckets: seq<(string, seq<Filter>)>): (texts: seq<string>)
    ensures |texts| == |buckets|
  {
    seq(|buckets|, i requires 0 <= i < |buckets| => BucketText(buckets[i]))
  }

  function GroupText(group: seq<Filter>): string {
    Concat(BucketTexts(GroupBy(group, OperatorKey)))
  }

  /** The operator buckets of every group, group after group: the runs the text is made of. */
  function Buckets(groups: seq<(string, seq<Filter>)>): seq<(string, seq<Filter>)>
    decreases |groups|
  {
    if groups == [] then []
    else Buckets(groups[..|groups| - 1]) + GroupBy(groups[|groups| - 1].1, OperatorKey)
  }

  /** Every group, and within it every operator bucket, in own-key order. */
  function ListFiltersText(filters: seq<Filter>): string {
    Concat(BucketTexts(Buckets(GroupBy(filters, GroupKey))))
  }

  /** The `forOwn` over one group's operator buckets: " AND " and the bucket's conditions for each non-empty bucket. */
  method AppendGroup(filterString: string, group: seq<Filter>) returns (text: string)
    ensures text == filterString + GroupText(group)
  {
    text := filterString;
    var byOperator := GroupBy(group, OperatorKey);
    ghost var bucketTexts := BucketTexts(byOperator);
    for b := 0 to |byOperator|
      invariant text == filterString + Concat(bucketTexts[..b])
    {
      ghost var before := text;
      var booleanOperator := byOperator[b].0;
      var filtersByOperator := byOperator[b].1;
      if |filtersByOperator| > 0 {
        text := text + " AND ";
        text := AppendFilters(text, filtersByOperator, booleanOperator);
        AndThen(before, FiltersText(filtersByOperator, booleanOperator));
      }
      assert bucketTexts[b] == BucketText(byOperator[b]);
      ConcatStep(filterString, bucketTexts, b, before, text);
    }
    assert bucketTexts[..|byOperator|] == bucketTexts;
  }

  /** `_listFiltersToFilterString`: " AND " and the bucket's conditions for every bucket of every group. */
  method ListFilters(filters: seq<Filter>) returns (filterString: string)
    ensures filterString == ListFiltersText(filters)
  {
    filterString := "";
    var filterGroups := GroupBy(filters, GroupKey);
    for g := 0 to |filterGroups|
      invariant filterString == Concat(BucketTexts(Buckets(filterGroups[..g])))
    {
      ghost var before := filterString;
      filterString := AppendGroup(filterString, filterGroups[g].1);
      GroupStep(filterGroups, g, before, filterString);
    }
    assert filterGroups[..|filterGroups|] == filterGroups;
  }

  lemma AndThen(before: string, conditions: string)
    ensures before + " AND " + conditions == before + (" AND " + conditions)
  {
  }

  lemma GroupStep(groups: seq<(string, seq<Filter>)>, g: nat, before: string, after: string)
    requires g < |groups| && before == Concat(BucketTexts(Buckets(groups[..g])))
    requires after == before + GroupText(groups[g].1)
    ensures after == Concat(BucketTexts(Buckets(groups[..g + 1])))
  {
    var init := Buckets(groups[..g]);
    var last := GroupBy(groups[g].1, OperatorKey);
    BucketsSnoc(groups, g);
    BucketTextsAppend(init, last);
    ConcatAppend(BucketTexts(init), BucketTexts(last));
    assert GroupText(groups[g].1) == Concat(BucketTexts(last));
  }

  /** One more group adds its operator buckets after those of the groups before it. */
  lemma BucketsSnoc(groups: seq<(string, seq<Filter>)>, g: nat)
    requires g < |groups|
    ensures Buckets(groups[..g + 1]) == Buckets(groups[..g]) + GroupBy(groups[g].1, OperatorKey)
  {
    var p := groups[..g + 1];
    assert p[..|p| - 1] == groups[..g];
    assert p[|p| - 1] == groups[g];
  }

  lemma BucketTextsAppend(a: seq<(string, seq<Filter>)>, b: seq<(string, seq<Filter>)>)
    ensures BucketTexts(a + b) == BucketTexts(a) + BucketTexts(b)
  {
    var joined, parts := BucketTexts(a + b), BucketTexts(a) + BucketTexts(b);
    forall i | 0 <= i < |joined|
      ensures joined[i] == parts[i]
    {
      if i < |a| {
        assert (a + b)[i] == a[i];
      } else {
        assert (a + b)[i] == b[i - |a|];
      }
    }
  }

  // ---------------------------------------------------------------------------------------
  // What the filter text says
  // ---------------------------------------------------------------------------------------

  lemma {:induction false} BucketsPermute(groups: seq<(string, seq<Filter>)>)
    ensures multiset(Flatten(Buckets(groups))) == multiset(Flatten(groups))
    decreases |groups|
  {
    if groups != [] {
      var n := |groups|;
      var init := groups[..n - 1];
      BucketsPermute(init);
      FlattenAppend(Buckets(init), GroupBy(groups[n - 1].1, OperatorKey));
      GroupByPermutes(groups[n - 1].1, OperatorKey);
    }
  }

  /** A bucket is never empty and holds the filters whose operator key names it. */
  predicate Keyed(bucket: (string, seq<Filter>)) {
    bucket.1 != [] && forall j :: 0 <= j < |bucket.1| ==> OperatorKey(bucket.1[j]) == bucket.0
  }

  predicate AllKeyed(bs: seq<(string, seq<Filter>)>) {
    forall i :: 0 <= i < |bs| ==> Keyed(bs[i])
  }

  lemma {:induction false} BucketsKeyed(groups: seq<(string, seq<Filter>)>)
    ensures AllKeyed(Buckets(groups))
    decreases |groups|
  {
    if groups != [] {
      var n := |groups|;
      BucketsKeyed(groups[..n - 1]);
      GroupByKeyed(groups[n - 1].1);
      KeyedAppend(Buckets(groups[..n - 1]), GroupBy(groups[n - 1].1, OperatorKey));
      BucketsUnfold(groups);
    }
  }

  lemma BucketsUnfold(groups: seq<(string, seq<Filter>)>)
    requires groups != []
    ensures Buckets(groups) == Buckets(groups[..|groups| - 1]) + GroupBy(groups[|groups| - 1].1, OperatorKey)
  {
  }

  lemma GroupByKeyed(group: seq<Filter>)
    ensures AllKeyed(GroupBy(group, OperatorKey))
  {
    GroupByGroups(group, OperatorKey);
  }

  lemma KeyedAppend(a: seq<(string, seq<Filter>)>, b: seq<(string, seq<Filter>)>)
    requires AllKeyed(a) && AllKeyed(b)
    ensures AllKeyed(a + b)
  {
  }

  /**
   * The filter text is the text of one bucket after another; the buckets together hold every
   * filter exactly once, none is empty (so each adds " AND "), and a bucket holds the filters
   * whose `groupBooleanOperator || 'and'` names it.
   */
  lemma ListFiltersBuckets(filters: seq<Filter>)
    ensures var bs := Buckets(GroupBy(filters, GroupKey));
      && ListFiltersText(filters) == Concat(BucketTexts(bs))
      && multiset(Flatten(bs)) == multiset(filters)
      && forall i :: 0 <= i < |bs| ==> Keyed(bs[i]) && BucketText(bs[i]) == " AND " + FiltersText(bs[i].1, bs[i].0)
  {
    var groups := GroupBy(filters, GroupKey);
    BucketsPermute(groups);
    GroupByPermutes(filters, GroupKey);
    BucketsKeyed(groups);
  }

  /** Without filters there is no condition to add. */
  lemma NoFiltersNoText()
    ensures ListFiltersText([]) == ""
  {
    var none: seq<Filter> := [];
    assert FirstKeys(none, GroupKey) == [];
    assert KeepIndexKeys([]) == [];
    assert KeepOtherKeys([]) == [];
    assert GroupBy(none, GroupKey) == [];
  }

  /**
   * With `is`, a string value without a backslash that does not read as a number is quoted,
   * and MySQL reads exactly that string back, the rest of the condition following the literal.
   */
  lemma IsStringReadsBack(f: Filter, s: string, prefix: string, suffix: string)
    requires f.operator == JsString("is") && f.value == JsString(s)
    requires forall i :: 0 <= i < |s| ==> s[i] != '\\'
    requires IsNaN(JsString(DoubleQuotes(s)))
    ensures var head := " " + prefix + " " + Str(f.field) + " = '";
      var clause := ClauseText(f, prefix, suffix);
      && clause[..|head|] == head
      && ReadQuoted(clause[|head|..]) == Some((s, " " + suffix + " "))
  {
    var head := " " + prefix + " " + Str(f.field) + " = '";
    var rest := " " + suffix + " ";
    var a := " " + prefix + " " + Str(f.field) + " = ";
    var e := DoubleQuotes(s);
    var clause := ClauseText(f, prefix, suffix);
    QuotedIsClause(f, s, prefix, suffix);
    Regroup(a, e, suffix);
    assert clause[|head|..] == e + "'" + rest;
    DoubleQuotesWithoutBackslash(s);
    EscapedLiteralRoundTrip(s, rest);
  }

  /** The layout of an `is` condition on a string that does not read as a number. */
  lemma QuotedIsClause(f: Filter, s: string, prefix: string, suffix: string)
    requires f.operator == JsString("is") && f.value == JsString(s)
    requires IsNaN(JsString(DoubleQuotes(s)))
    ensures ClauseText(f, prefix, suffix)
         == " " + prefix + " " + Str(f.field) + " = " + ("'" + DoubleQuotes(s) + "'") + " " + suffix + " "
  {
  }

  lemma Regroup(a: string, e: string, suffix: string)
    ensures a + ("'" + e + "'") + " " + suffix + " " == (a + "'") + (e + "'" + (" " + suffix + " "))
  {
  }

  /** A value holding a quote is never taken for a number, so `is` always quotes it. */
  lemma QuoteForcesQuoting(s: string, i: nat)
    requires i < |s| && s[i] == '\''
    ensures IsNaN(JsString(DoubleQuotes(s)))
  {
    var k := EscapedQuoteAt(s, i);
    QuotedTextIsNaN(DoubleQuotes(s), k);
  }

  lemma {:induction false} EscapedQuoteAt(s: string, i: nat) returns (k: nat)
    requires i < |s| && s[i] == '\''
    ensures k < |DoubleQuotes(s)| && DoubleQuotes(s)[k] == '\''
    decreases |s|
  {
    if i == 0 {
      k := 0;
    } else {
      var j := EscapedQuoteAt(s[1..], i - 1);
      var h := DoubleQuote(s[0]);
      assert DoubleQuotes(s) == h + DoubleQuotes(s[1..]);
      k := |h| + j;
    }
  }

  /** With `is`, a string holding an integer's numeral is compared as a number, unquoted. */
  lemma IsNumeralUnquoted(f: Filter, n: int, prefix: string, suffix: string)
    requires f.operator == JsString("is") && f.value == JsString(IntToString(n))
    ensures ClauseText(f, prefix, suffix) == " " + prefix + " " + Str(f.field) + " = " + IntToString(n) + " " + suffix + " "
  {
    NumeralUnescaped(IntToString(n));
    IntTextIsNumeric(n);
  }

  lemma {:induction false} NumeralUnescaped(s: string)
    requires forall i :: 0 <= i < |s| ==> IsDigit(s[i]) || s[i] == '-'
    ensures DoubleQuotes(s) == s
    decreases |s|
  {
    if s != [] {
      NumeralUnescaped(s[1..]);
      assert [s[0]] + s[1..] == s;
    }
  }
}
