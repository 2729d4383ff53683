/**
 * The slice of JavaScript semantics the state list and the jobs manager depend on: values,
 * truthiness (`if (x)`, `x || y`), conversion to text (template literals, property keys,
 * `Array.prototype.join`), `typeof`, `isNaN` over numeric text, and the order in which an
 * object's own keys are enumerated (`for…in`, `Object.keys`, lodash `forOwn`).
 */
module JsValues {
  /** The integers a JavaScript number holds exactly (Number.MAX_SAFE_INTEGER). */
  const MaxSafe: int := 0x1F_FFFF_FFFF_FFFF
  type SafeInt = x: int | -MaxSafe <= x <= MaxSafe

  datatype JsValue =
    | JsUndefined
    | JsNull
    | JsBool(b: bool)
    | JsNumber(n: SafeInt)
    | JsString(s: string)
    | JsArray(elems: seq<JsValue>)
    | JsObject(props: seq<(string, JsValue)>)   // own enumerable properties, in creation order
    | JsFunction(source: string)

  /** `Boolean(v)`: false exactly for undefined, null, false, 0 and the empty string. */
  predicate Truthy(v: JsValue) {
    match v
    case JsUndefined => false
    case JsNull => false
    case JsBool(b) => b
    case JsNumber(n) => n != 0
    case JsString(s) => s != ""
    case _ => true
  }

  /** `x || y`. */
  function Or(x: JsValue, y: JsValue): (r: JsValue)
    ensures Truthy(x) ==> r == x
    ensures !Truthy(x) ==> r == y
  {
    if Truthy(x) then x else y
  }

  function TypeOf(v: JsValue): string {
    match v
    case JsUndefined => "undefined"
    case JsBool(_) => "boolean"
    case JsNumber(_) => "number"
    case JsString(_) => "string"
    case JsFunction(_) => "function"
    case _ => "object"
  }

  // ---------------------------------------------------------------------------------------
  // Decimal text
  // ---------------------------------------------------------------------------------------

  predicate IsDigit(c: char) { '0' <= c <= '9' }

  predicate AllDigits(s: string) {
    forall i :: 0 <= i < |s| ==> IsDigit(s[i])
  }

  function DigitChar(d: nat): char
    requires d < 10
  {
    "0123456789"[d]
  }

  function DigitValue(c: char): nat
    requires IsDigit(c)
  {
    c as int - '0' as int
  }

  /** The shortest decimal numeral of `n`. */
  function NatToString(n: nat): (s: string)
    ensures |s| > 0 && AllDigits(s)
    ensures s[0] == '0' ==> n == 0 && s == "0"
    decreases n
  {
    if n < 10 then [DigitChar(n)] else NatToString(n / 10) + [DigitChar(n % 10)]
  }

  /** The value of a numeral. */
  function DigitsValue(s: string): nat
    requires AllDigits(s)
    decreases |s|
  {
    if s == [] then 0 else 10 * DigitsValue(s[..|s| - 1]) + DigitValue(s[|s| - 1])
  }

  /** Reading back a numeral gives the number it was written from. */
  lemma {:induction false} NatToStringValue(n: nat)
    ensures DigitsValue(NatToString(n)) == n
    decreases n
  {
    if n >= 10 {
      var s := NatToString(n);
      NatToStringValue(n / 10);
      assert s[..|s| - 1] == NatToString(n / 10);
    }
  }

  /** `String(n)` for an integer number (safe integers print without an exponent). */
  function IntToString(n: int): (s: string)
    ensures |s| > 0
    ensures n >= 0 ==> s == NatToString(n)
    ensures n < 0 ==> s == "-" + NatToString(-n)
  {
    if n < 0 then "-" + NatToString(-n) else NatToString(n)
  }

  function Join(parts: seq<string>, sep: string): string
    decreases |parts|
  {
    if parts == [] then ""
    else if |parts| == 1 then parts[0]
    else Join(parts[..|parts| - 1], sep) + sep + parts[|parts| - 1]
  }

  /** Extending the joined run by one more part adds the separator and the part. */
  lemma JoinSnoc(parts: seq<string>, sep: string, k: nat)
    requires k < |parts|
    ensures Join(parts[..k + 1], sep) == if k == 0 then parts[0] else Join(parts[..k], sep) + sep + parts[k]
  {
    assert parts[..k + 1][..k] == parts[..k];
  }

  /** The first `k` parts joined by `sep`, followed by `sep` when more parts come: what a loop that appends each part and then a separator unless it is the last has built after `k` rounds. */
  ghost function Listed(parts: seq<string>, sep: string, k: nat): string
    requires k <= |parts|
  {
    Join(parts[..k], sep) + (if 0 < k < |parts| then sep else "")
  }

  lemma ListedStep(parts: seq<string>, sep: string, k: nat, head: string, before: string, after: string)
    requires k < |parts| && before == head + Listed(parts, sep, k)
    requires k < |parts| - 1 ==> after == before + parts[k] + sep
    requires k == |parts| - 1 ==> after == before + parts[k]
    ensures after == head + Listed(parts, sep, k + 1)
  {
    JoinSnoc(parts, sep, k);
  }

  lemma ListedAll(parts: seq<string>, sep: string)
    ensures Listed(parts, sep, |parts|) == Join(parts, sep)
  {
    assert parts[..|parts|] == parts;
  }

  function Concat(parts: seq<string>): string
    decreases |parts|
  {
    if parts == [] then "" else Concat(parts[..|parts| - 1]) + parts[|parts| - 1]
  }

  lemma {:induction false} ConcatAppend(a: seq<string>, b: seq<string>)
    ensures Concat(a + b) == Concat(a) + Concat(b)
    decreases |b|
  {
    if b == [] {
      assert a + b == a;
    } else {
      var init := b[..|b| - 1];
      assert (a + b)[..|a + b| - 1] == a + init;
      ConcatAppend(a, init);
    }
  }

  /** Appending the next part to a text that holds the first `k` parts gives the first `k + 1`. */
  lemma ConcatStep(head: string, parts: seq<string>, k: nat, before: string, after: string)
    requires k < |parts| && before == head + Concat(parts[..k])
    requires after == before + parts[k]
    ensures after == head + Concat(parts[..k + 1])
  {
    ConcatSnoc(parts, k);
  }

  lemma ConcatSnoc(parts: seq<string>, k: nat)
    requires k < |parts|
    ensures Concat(parts[..k + 1]) == Concat(parts[..k]) + parts[k]
  {
    assert parts[..k + 1][..k] == parts[..k];
  }

  // ---------------------------------------------------------------------------------------
  // Conversion to text
  // ---------------------------------------------------------------------------------------

  /**
   * `String(v)`, which is also what `${v}` in a template literal and a property key made
   * from `v` produce. An array is its elements joined with ',' (undefined and null elements
   * as empty text); a plain object is "[object Object]"; a function is its source text.
   */
  function Str(v: JsValue): string
    decreases v, 2
  {
    match v
    case JsUndefined => "undefined"
    case JsNull => "null"
    case JsBool(b) => if b then "true" else "false"
    case JsNumber(n) => IntToString(n)
    case JsString(s) => s
    case JsArray(elems) => Join(ElemTexts(v, elems), ",")
    case JsObject(_) => "[object Object]"
    case JsFunction(src) => src
  }

  function ElemTexts(v: JsValue, elems: seq<JsValue>): seq<string>
    requires v.JsArray? && elems == v.elems
    decreases v, 1
  {
    seq(|elems|, i requires 0 <= i < |elems| => ElemText(v, elems[i]))
  }

  function ElemText(v: JsValue, e: JsValue): string
    requires v.JsArray? && e in v.elems
    decreases v, 0
  {
    if e.JsUndefined? || e.JsNull? then "" else Str(e)
  }

  /** `obj[key]` for the keys the core reads (none of them exist on a prototype). */
  function Get(obj: JsValue, key: string): (r: JsValue)
    ensures !obj.JsObject? ==> r == JsUndefined
    ensures obj.JsObject? && (forall i :: 0 <= i < |obj.props| ==> obj.props[i].0 != key) ==> r == JsUndefined
  {
    if obj.JsObject? then Lookup(obj.props, key) else JsUndefined
  }

  function Lookup(props: seq<(string, JsValue)>, key: string): (r: JsValue)
    ensures (forall i :: 0 <= i < |props| ==> props[i].0 != key) ==> r == JsUndefined
    ensures forall i :: 0 <= i < |props| && props[i].0 == key && (forall j :: 0 <= j < i ==> props[j].0 != key) ==> r == props[i].1
    decreases |props|
  {
    if props == [] then JsUndefined
    else if props[0].0 == key then props[0].1
    else Lookup(props[1..], key)
  }

  // ---------------------------------------------------------------------------------------
  // isNaN: the StringToNumber grammar of ECMAScript (section 7.1.4.1.1 of ECMA-262)
  // ---------------------------------------------------------------------------------------

  /** WhiteSpace and LineTerminator code points, which StringToNumber trims. */
  predicate IsJsSpace(c: char) {
    || c == '\t' || c == '\n' || c == '\U{000B}' || c == '\U{000C}' || c == '\r' || c == ' '
    || c == '\U{00A0}' || c == '\U{1680}' || ('\U{2000}' <= c <= '\U{200A}')
    || c == '\U{2028}' || c == '\U{2029}' || c == '\U{202F}' || c == '\U{205F}' || c == '\U{3000}' || c == '\U{FEFF}'
  }

  function TrimStart(s: string): (t: string)
    ensures |t| <= |s| && t == s[|s| - |t|..]
    ensures forall i :: 0 <= i < |s| - |t| ==> IsJsSpace(s[i])
    ensures t != [] ==> !IsJsSpace(t[0])
    decreases |s|
  {
    if s != [] && IsJsSpace(s[0]) then TrimStart(s[1..]) else s
  }

  function TrimEnd(s: string): (t: string)
    ensures |t| <= |s| && t == s[..|t|]
    ensures forall i :: |t| <= i < |s| ==> IsJsSpace(s[i])
    ensures t != [] ==> !IsJsSpace(t[|t| - 1])
    decreases |s|
  {
    if s != [] && IsJsSpace(s[|s| - 1]) then TrimEnd(s[..|s| - 1]) else s
  }

  function Trim(s: string): string {
    TrimEnd(TrimStart(s))
  }

  /** The index of the first 'e' or 'E', or |s| when there is none. */
  function ExponentMark(s: string): (k: nat)
    ensures k <= |s|
    ensures forall i :: 0 <= i < k ==> s[i] != 'e' && s[i] != 'E'
    ensures k < |s| ==> s[k] == 'e' || s[k] == 'E'
    decreases |s|
  {
    if s == [] then 0
    else if s[0] == 'e' || s[0] == 'E' then 0
    else 1 + ExponentMark(s[1..])
  }

  /** The index of the first '.', or |s| when there is none. */
  function PointMark(s: string): (k: nat)
    ensures k <= |s|
    ensures forall i :: 0 <= i < k ==> s[i] != '.'
    ensures k < |s| ==> s[k] == '.'
    decreases |s|
  {
    if s == [] then 0
    else if s[0] == '.' then 0
    else 1 + PointMark(s[1..])
  }

  /** DecimalDigits . DecimalDigits?  |  . DecimalDigits  |  DecimalDigits */
  predicate Mantissa(m: string) {
    var d := PointMark(m);
    var whole := m[..d];
    var frac := if d < |m| then m[d + 1..] else "";
    AllDigits(whole) && AllDigits(frac) && |whole| + |frac| > 0
  }

  /** The part after 'e': an optional sign, then at least one digit. */
  predicate ExponentPart(x: string) {
    if x != [] && (x[0] == '+' || x[0] == '-') then x[1..] != [] && AllDigits(x[1..])
    else x != [] && AllDigits(x)
  }

  /** StrUnsignedDecimalLiteral */
  predicate UnsignedDecimal(u: string) {
    u == "Infinity"
    || (var k := ExponentMark(u);
        Mantissa(u[..k]) && (k == |u| || ExponentPart(u[k + 1..])))
  }

  /** StrDecimalLiteral: an optional sign, then an unsigned decimal literal. */
  predicate SignedDecimal(t: string) {
    if t != [] && (t[0] == '+' || t[0] == '-') then UnsignedDecimal(t[1..]) else UnsignedDecimal(t)
  }

  predicate IsHexDigit(c: char) { IsDigit(c) || 'a' <= c <= 'f' || 'A' <= c <= 'F' }

  /** NonDecimalIntegerLiteral: 0x…, 0o… or 0b… with at least one digit of that base. */
  predicate NonDecimalInteger(t: string) {
    && |t| >= 3 && t[0] == '0'
    && (|| ((t[1] == 'x' || t[1] == 'X') && forall i :: 2 <= i < |t| ==> IsHexDigit(t[i]))
        || ((t[1] == 'o' || t[1] == 'O') && forall i :: 2 <= i < |t| ==> '0' <= t[i] <= '7')
        || ((t[1] == 'b' || t[1] == 'B') && forall i :: 2 <= i < |t| ==> t[i] == '0' || t[i] == '1'))
  }

  /** True when StringToNumber(s) is a number rather than NaN (blank text converts to 0). */
  predicate NumericText(s: string) {
    var t := Trim(s);
    t == "" || SignedDecimal(t) || NonDecimalInteger(t)
  }

  /** `isNaN(v)`: whether ToNumber(v) is NaN. Objects and arrays convert through their text. */
  predicate IsNaN(v: JsValue) {
    match v
    case JsUndefined => true
    case JsNull => false
    case JsBool(_) => false
    case JsNumber(_) => false
    case JsString(s) => !NumericText(s)
    case _ => !NumericText(Str(v))
  }

  /** The characters numeric text can be made of. */
  predicate NumericChar(c: char) {
    || IsJsSpace(c) || IsHexDigit(c) || c == '+' || c == '-' || c == '.'
    || c == 'x' || c == 'X' || c == 'o' || c == 'O' || c == 'b' || c == 'B'
    || c == 'I' || c == 'n' || c == 'i' || c == 't' || c == 'y' 
  }

  /** Text that converts to a number is made of digits, signs, points, exponent and radix marks, "Infinity" and blanks only. */
  lemma NumericTextAlphabet(s: string)
    requires NumericText(s)
    ensures forall i :: 0 <= i < |s| ==> NumericChar(s[i])
  {
    TrimmedAlphabet(Trim(s));
    TrimKeeps(s);
  }

  /** Every character of a text is blank or a character of its trimmed core. */
  lemma TrimKeeps(s: string)
    requires forall i :: 0 <= i < |Trim(s)| ==> NumericChar(Trim(s)[i])
    ensures forall i :: 0 <= i < |s| ==> NumericChar(s[i])
  {
    var a := TrimStart(s);
    var t := TrimEnd(a);
    assert t == Trim(s);
    assert forall i :: 0 <= i < |a| ==> NumericChar(a[i]) by {
      forall i | 0 <= i < |a|
        ensures NumericChar(a[i])
      {
        if i < |t| {
          assert a[i] == t[i];
        } else {
          assert IsJsSpace(a[i]);
        }
      }
    }
    forall i | 0 <= i < |s|
      ensures NumericChar(s[i])
    {
      if i >= |s| - |a| {
        assert s[i] == a[i - (|s| - |a|)];
      }
    }
  }

  lemma TrimmedAlphabet(t: string)
    requires t == "" || SignedDecimal(t) || NonDecimalInteger(t)
    ensures forall i :: 0 <= i < |t| ==> NumericChar(t[i])
  {
    if NonDecimalInteger(t) {
    } else if t != [] {
      if t[0] == '+' || t[0] == '-' {
        UnsignedAlphabet(t[1..]);
        assert forall i :: 1 <= i < |t| ==> t[i] == t[1..][i - 1];
      } else {
        UnsignedAlphabet(t);
      }
    }
  }

  lemma UnsignedAlphabet(u: string)
    requires UnsignedDecimal(u)
    ensures forall i :: 0 <= i < |u| ==> NumericChar(u[i])
  {
    if u != "Infinity" {
      var k := ExponentMark(u);
      MantissaAlphabet(u[..k]);
      if k < |u| {
        ExponentAlphabet(u[k + 1..]);
      }
      forall i | 0 <= i < |u|
        ensures NumericChar(u[i])
      {
        if i < k {
          assert u[i] == u[..k][i];
        } else if i > k {
          assert u[i] == u[k + 1..][i - k - 1];
        }
      }
    }
  }

  lemma MantissaAlphabet(m: string)
    requires Mantissa(m)
    ensures forall i :: 0 <= i < |m| ==> NumericChar(m[i])
  {
    var d := PointMark(m);
    forall i | 0 <= i < |m|
      ensures NumericChar(m[i])
    {
      if i < d {
        assert m[i] == m[..d][i];
      } else if i > d {
        assert m[i] == m[d + 1..][i - d - 1];
      }
    }
  }

  lemma ExponentAlphabet(x: string)
    requires ExponentPart(x)
    ensures forall i :: 0 <= i < |x| ==> NumericChar(x[i])
  {
    if x[0] == '+' || x[0] == '-' {
      assert forall i :: 1 <= i < |x| ==> x[i] == x[1..][i - 1];
    }
  }

  /** A text holding a quote never converts to a number. */
  lemma QuotedTextIsNaN(s: string, i: nat)
    requires i < |s| && s[i] == '\''
    ensures IsNaN(JsString(s))
  {
    if NumericText(s) {
      NumericTextAlphabet(s);
    }
  }

  /** The decimal numeral of an integer, and so a number's own text, converts back to a number. */
  lemma IntTextIsNumeric(n: int)
    ensures NumericText(IntToString(n))
  {
    NumeralIsNumeric(IntToString(n), NatToString(if n < 0 then -n else n));
  }

  lemma NumeralIsNumeric(s: string, d: string)
    requires d != [] && AllDigits(d) && (s == d || s == "-" + d)
    ensures NumericText(s)
  {
    assert forall i :: 0 <= i < |s| ==> !IsJsSpace(s[i]) by {
      forall i | 0 <= i < |s|
        ensures !IsJsSpace(s[i])
      {
        if s != d && i > 0 {
          assert s[i] == d[i - 1];
        }
      }
    }
    NoSpaceTrim(s);
    DigitsAreUnsigned(d);
    if s != d {
      assert s[1..] == d;
    }
  }

  lemma NoSpaceTrim(s: string)
    requires forall i :: 0 <= i < |s| ==> !IsJsSpace(s[i])
    ensures Trim(s) == s
  {
  }

  lemma DigitsAreUnsigned(d: string)
    requires d != [] && AllDigits(d)
    ensures UnsignedDecimal(d)
  {
    assert forall i :: 0 <= i < |d| ==> d[i] != 'e' && d[i] != 'E' && d[i] != '.';
    var k := ExponentMark(d);
    assert k == |d|;
    assert d[..k] == d;
    var p := PointMark(d);
    assert p == |d|;
    assert d[..p] == d;
  }

  // ---------------------------------------------------------------------------------------
  // Own-key order (section 10.1.11.1 of ECMA-262, OrdinaryOwnPropertyKeys)
  // ---------------------------------------------------------------------------------------

  /** An array index: the canonical numeral of an integer from 0 to 2^32 - 2. */
  predicate IsArrayIndex(k: string) {
    && k != [] && AllDigits(k)
    && (k[0] != '0' || k == "0")
    && DigitsValue(k) <= 0xFFFF_FFFE
  }

  function KeepIndexKeys(keys: seq<string>): (r: seq<string>)
    ensures forall k :: k in r <==> k in keys && IsArrayIndex(k)
    ensures |r| <= |keys|
    decreases |keys|
  {
    if keys == [] then []
    else
      var rest := KeepIndexKeys(keys[1..]);
      if IsArrayIndex(keys[0]) then [keys[0]] + rest else rest
  }

  function KeepOtherKeys(keys: seq<string>): (r: seq<string>)
    ensures forall k :: k in r <==> k in keys && !IsArrayIndex(k)
    decreases |keys|
  {
    if keys == [] then []
    else
      var rest := KeepOtherKeys(keys[1..]);
      if IsArrayIndex(keys[0]) then rest else [keys[0]] + rest
  }

  /** The numeric value of an array index; -1 for any other key. */
  function IndexRank(k: string): int {
    if IsArrayIndex(k) then DigitsValue(k) else -1
  }

  predicate Ascending(s: seq<string>) {
    forall i, j :: 0 <= i < j < |s| ==> IndexRank(s[i]) <= IndexRank(s[j])
  }

  /** Inserts a key into a run kept in ascending numeric order, before the first larger one. */
  function InsertIndex(k: string, sorted: seq<string>): (r: seq<string>)
    ensures multiset(r) == multiset(sorted) + multiset{k}
    decreases |sorted|
  {
    if sorted == [] then [k]
    else if IndexRank(k) <= IndexRank(sorted[0]) then [k] + sorted
    else
      assert sorted == [sorted[0]] + sorted[1..];
      [sorted[0]] + InsertIndex(k, sorted[1..])
  }

  lemma {:induction false} InsertKeepsAscending(k: string, sorted: seq<string>)
    requires Ascending(sorted)
    ensures Ascending(InsertIndex(k, sorted))
    decreases |sorted|
  {
    if sorted != [] && IndexRank(k) > IndexRank(sorted[0]) {
      InsertKeepsAscending(k, sorted[1..]);
      InsertBounded(k, sorted[1..], IndexRank(sorted[0]));
      ConsAscending(sorted[0], InsertIndex(k, sorted[1..]));
    } else if sorted != [] {
      ConsAscending(k, sorted);
    }
  }

  /** Inserting keeps every rank at or above a bound that the run and the key respect. */
  lemma {:induction false} InsertBounded(k: string, sorted: seq<string>, low: int)
    requires IndexRank(k) >= low && forall i :: 0 <= i < |sorted| ==> IndexRank(sorted[i]) >= low
    ensures forall i :: 0 <= i < |InsertIndex(k, sorted)| ==> IndexRank(InsertIndex(k, sorted)[i]) >= low
    decreases |sorted|
  {
    if sorted != [] && IndexRank(k) > IndexRank(sorted[0]) {
      InsertBounded(k, sorted[1..], low);
    }
  }

  lemma ConsAscending(x: string, rest: seq<string>)
    requires Ascending(rest) && forall i :: 0 <= i < |rest| ==> IndexRank(x) <= IndexRank(rest[i])
    ensures Ascending([x] + rest)
  {
  }

  function SortIndices(keys: seq<string>): (r: seq<string>)
    ensures multiset(r) == multiset(keys)
    decreases |keys|
  {
    if keys == [] then []
    else
      assert keys == [keys[0]] + keys[1..];
      InsertIndex(keys[0], SortIndices(keys[1..]))
  }

  lemma {:induction false} SortedIndices(keys: seq<string>)
    ensures Ascending(SortIndices(keys))
    decreases |keys|
  {
    if keys != [] {
      SortedIndices(keys[1..]);
      InsertKeepsAscending(keys[0], SortIndices(keys[1..]));
    }
  }

  /**
   * The order an ordinary object enumerates its own string keys in: the array indices in
   * ascending numeric order, then every other key in the order it was created.
   */
  function OwnKeyOrder(keys: seq<string>): seq<string> {
    SortIndices(KeepIndexKeys(keys)) + KeepOtherKeys(keys)
  }

  lemma KeepSplit(keys: seq<string>)
    ensures multiset(KeepIndexKeys(keys)) + multiset(KeepOtherKeys(keys)) == multiset(keys)
  {
    if keys != [] {
      KeepSplit(keys[1..]);
      assert keys == [keys[0]] + keys[1..];
    }
  }

  /**
   * Enumeration visits every key exactly once: the order is a permutation of the keys, its
   * array indices come first and ascending, and the other keys keep their creation order.
   */
  lemma OwnKeyOrderIsPermutation(keys: seq<string>)
    ensures var r := OwnKeyOrder(keys);
      && multiset(r) == multiset(keys)
      && (var n := |KeepIndexKeys(keys)|;
          && n <= |r|
          && (forall i :: 0 <= i < n ==> IsArrayIndex(r[i]))
          && (forall i, j :: 0 <= i < j < n ==> IndexRank(r[i]) <= IndexRank(r[j]))
          && r[n..] == KeepOtherKeys(keys))
  {
    KeepSplit(keys);
    var kept := KeepIndexKeys(keys);
    var sorted := SortIndices(kept);
    SortedIndices(kept);
    assert |sorted| == |kept| by {
      assert |multiset(sorted)| == |multiset(kept)|;
    }
    forall i | 0 <= i < |sorted|
      ensures IsArrayIndex(sorted[i])
    {
      assert sorted[i] in multiset(kept);
    }
    assert (sorted + KeepOtherKeys(keys))[|kept|..] == KeepOtherKeys(keys);
  }

  /** Keys, in order, without repeats. */
  predicate Distinct<T(==)>(s: seq<T>) {
    forall i, j :: 0 <= i < j < |s| ==> s[i] != s[j]
  }

  /** The own keys of an object, in enumeration order. */
  function OwnKeys(props: seq<(string, JsValue)>): seq<string> {
    OwnKeyOrder(seq(|props|, i requires 0 <= i < |props| => props[i].0))
  }
}
