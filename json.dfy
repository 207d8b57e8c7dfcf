/**
 * The parsed JavaScript values the remote payload is made of, and the
 * JavaScript conversions the normaliser applies to them: truthiness,
 * own-property lookup and assignment, `String(x)` and `Number(x)`.
 */
module Json {
  import opened Wrappers
  import Strings

  /**
   * A value `JSON.parse` can produce. Numbers are integers. The fields of
   * an object are its own properties in `for...in` order.
   */
  datatype Json =
    | JNull
    | JBool(b: bool)
    | JNum(n: int)
    | JStr(s: string)
    | JArr(items: seq<Json>)
    | JObj(fields: seq<Field>)

  datatype Field = Field(key: string, value: Json)

  /** JavaScript truthiness of a defined value. */
  predicate Truthy(j: Json)
  {
    match j
    case JNull => false
    case JBool(b) => b
    case JNum(n) => n != 0
    case JStr(s) => s != ""
    case JArr(_) => true
    case JObj(_) => true
  }

  /** Truthiness of a property read, where `None` is `undefined`. */
  predicate TruthyProp(o: Option<Json>)
  {
    o.Some? && Truthy(o.value)
  }

  /** The value stored under the first occurrence of `key` among `fields`. */
  function Get(fields: seq<Field>, key: string): Option<Json>
  {
    if |fields| == 0 then None
    else if fields[0].key == key then Some(fields[0].value)
    else Get(fields[1..], key)
  }

  /** A lookup finds a value exactly when the key occurs, and the value is stored under it. */
  lemma {:induction false} GetSpec(fields: seq<Field>, key: string)
    ensures Get(fields, key).None? <==> forall k :: 0 <= k < |fields| ==> fields[k].key != key
    ensures Get(fields, key).Some? ==> Field(key, Get(fields, key).value) in fields
  {
    if |fields| > 0 && fields[0].key != key {
      GetSpec(fields[1..], key);
      assert forall k :: 1 <= k < |fields| ==> fields[k] == fields[1..][k - 1];
    }
  }

  /**
   * `j[key]` for a value that is not `null`: an object's own property, and
   * `undefined` for the keys the core reads on arrays and primitives.
   */
  function Prop(j: Json, key: string): Option<Json>
  {
    if j.JObj? then Get(j.fields, key) else None
  }

  /** `j.hasOwnProperty(key)` for a value that is not `null`. */
  predicate HasOwn(j: Json, key: string)
  {
    Prop(j, key).Some?
  }

  /** `obj[key] = v` on an object: an existing property keeps its place, a new one goes last. */
  function SetField(fields: seq<Field>, key: string, v: Json): (r: seq<Field>)
    ensures Get(r, key) == Some(v)
    ensures forall other :: other != key ==> Get(r, other) == Get(fields, other)
  {
    if |fields| == 0 then [Field(key, v)]
    else if fields[0].key == key then [Field(key, v)] + fields[1..]
    else [fields[0]] + SetField(fields[1..], key, v)
  }

  /** The decimal digit `d`. */
  function DigitChar(d: nat): (c: char)
    requires d < 10
    ensures IsDigit(c)
  {
    "0123456789"[d]
  }

  predicate IsDigit(c: char)
  {
    '0' <= c <= '9'
  }

  /** Every character of `s` is a decimal digit. */
  predicate AllDigits(s: string)
  {
    forall k :: 0 <= k < |s| ==> IsDigit(s[k])
  }

  /** The decimal numeral of `n`, without leading zeros. */
  function NatToString(n: nat): (s: string)
    ensures |s| > 0 && AllDigits(s)
  {
    if n < 10 then [DigitChar(n)] else NatToString(n / 10) + [DigitChar(n % 10)]
  }

  /** `String(n)` for an integer. */
  function IntToString(n: int): string
  {
    if n < 0 then "-" + NatToString(-n) else NatToString(n)
  }

  /** The value of a string of decimal digits. */
  function DigitsValue(s: string): nat
    requires AllDigits(s)
  {
    if |s| == 0 then 0
    else
      assert IsDigit(s[|s| - 1]);
      DigitsValue(s[..|s| - 1]) * 10 + (s[|s| - 1] as int - '0' as int)
  }

  /**
   * The value of a trimmed, non-empty text: an optional sign followed by
   * at least one decimal digit, and `None` (`NaN`) otherwise.
   */
  function NumeralValue(t: string): Option<int>
    requires |t| > 0
  {
    if (t[0] == '-' || t[0] == '+') && |t| > 1 && AllDigits(t[1..]) then
      var v: int := DigitsValue(t[1..]);
      Some(if t[0] == '-' then -v else v)
    else if AllDigits(t) then Some(DigitsValue(t))
    else None
  }

  /**
   * `Number(s)` for a string, the integer part of ECMAScript's
   * StringToNumber: white space is trimmed, the empty string is 0, and an
   * optional sign followed by decimal digits is read as an integer.
   * Anything else is `NaN`, here `None`.
   */
  function StringToNumber(s: string): (r: Option<int>)
    ensures Strings.Trim(s) == "" ==> r == Some(0)
  {
    var t := Strings.Trim(s);
    if t == "" then Some(0) else NumeralValue(t)
  }

  /** `String(j)`. */
  function ToStr(j: Json): string
    decreases j
  {
    match j
    case JNull => "null"
    case JBool(b) => if b then "true" else "false"
    case JNum(n) => IntToString(n)
    case JStr(s) => s
    case JArr(items) => ItemsToStr(items)
    case JObj(_) => "[object Object]"
  }

  /** `Array.prototype.toString`: the elements joined by commas, `null` as the empty string. */
  function ItemsToStr(items: seq<Json>): string
    decreases items
  {
    if |items| == 0 then ""
    else
      var head := if items[0] == JNull then "" else ToStr(items[0]);
      if |items| == 1 then head else head + "," + ItemsToStr(items[1..])
  }

  /** `String(o)` of a property read. */
  function PropToStr(o: Option<Json>): string
  {
    match o
    case None => "undefined"
    case Some(j) => ToStr(j)
  }

  /** `Number(o)` of a property read; `None` is `NaN`. */
  function ToNumber(o: Option<Json>): Option<int>
  {
    match o
    case None => None
    case Some(JNull) => Some(0)
    case Some(JBool(b)) => Some(if b then 1 else 0)
    case Some(JNum(n)) => Some(n)
    case Some(JStr(s)) => StringToNumber(s)
    case Some(JArr(items)) => StringToNumber(ItemsToStr(items))
    case Some(JObj(_)) => None
  }

  /** `Number(o) || 0`. */
  function NumberOrZero(o: Option<Json>): int
  {
    match ToNumber(o)
    case None => 0
    case Some(n) => n
  }

  /** Reading back a numeral gives its value. */
  lemma {:induction false} DigitsValueOfNatToString(n: nat)
    ensures DigitsValue(NatToString(n)) == n
  {
    if n >= 10 {
      var s := NatToString(n);
      DigitsValueOfNatToString(n / 10);
      assert s[..|s| - 1] == NatToString(n / 10);
    }
  }

  /** A numeral has no white space at either end. */
  lemma NumeralTrimmed(s: string)
    requires |s| > 0 && IsDigit(s[0]) && IsDigit(s[|s| - 1])
    ensures Strings.Trim(s) == s
  {
    assert Strings.IsTrimmed(s);
  }

  /** `Number(String(n)) == n` for every count. */
  lemma NumberOfString(n: nat)
    ensures StringToNumber(IntToString(n)) == Some(n)
  {
    var d := NatToString(n);
    DigitsValueOfNatToString(n);
    NumberOfDigits(d);
  }

  /** `Number` of a numeral is its value. */
  lemma NumberOfDigits(d: string)
    requires |d| > 0 && AllDigits(d)
    ensures StringToNumber(d) == Some(DigitsValue(d))
  {
    NumeralTrimmed(d);
    assert d[0] != '-' && d[0] != '+';
  }

  /** A vote count the server stored as a JSON number, or as its string, is read exactly. */
  lemma VotesRoundTrip(n: nat)
    ensures NumberOrZero(Some(JNum(n))) == n
    ensures NumberOrZero(Some(JStr(IntToString(n)))) == n
  {
    NumberOfString(n);
  }
}
