/**
 * JavaScript values as the core sees them once JSON or YAML has been parsed,
 * together with the few pieces of host semantics the core relies on:
 * truthiness, `typeof`, property lookup, `for...in` enumeration and `String(v)`.
 */
module Js {

  datatype Option<+T> = None | Some(value: T)

  /** An uncaught JavaScript exception ends the computation with `Throw`. */
  datatype Outcome<+T> = Ok(value: T) | Throw(error: string)

  /**
   * A JavaScript value. Numbers are integers; an object is the list of its
   * own enumerable properties in enumeration order (keys are distinct, as in
   * any JavaScript object).
   */
  datatype Json =
    | JUndefined
    | JNull
    | JBool(b: bool)
    | JNum(n: int)
    | JStr(s: string)
    | JArr(items: seq<Json>)
    | JObj(entries: seq<Entry>)

  datatype Entry = Entry(key: string, val: Json)

  /** Ordered string-keyed dictionary: a plain JavaScript object used as a map. */
  type Dict<V> = seq<(string, V)>

  function Keys<V>(d: Dict<V>): (ks: seq<string>)
    ensures |ks| == |d|
    ensures forall i :: 0 <= i < |d| ==> ks[i] == d[i].0
  {
    if d == [] then [] else [d[0].0] + Keys(d[1..])
  }

  /** `d[k]` on a JavaScript object used as a map. */
  function Get<V>(d: Dict<V>, k: string): Option<V> {
    if d == [] then None
    else if d[0].0 == k then Some(d[0].1)
    else Get(d[1..], k)
  }

  lemma {:induction false} GetAbsent<V>(d: Dict<V>, k: string)
    ensures Get(d, k).None? <==> k !in Keys(d)
  {
    if d != [] {
      GetAbsent(d[1..], k);
      assert Keys(d) == [d[0].0] + Keys(d[1..]);
    }
  }

  /**
   * `d[k] = v` on a JavaScript object: an existing key keeps its place and
   * gets the new value, a new key goes last.
   */
  function Put<V>(d: Dict<V>, k: string, v: V): Dict<V> {
    if d == [] then [(k, v)]
    else if d[0].0 == k then [(k, v)] + d[1..]
    else [d[0]] + Put(d[1..], k, v)
  }

  /** After `d[k] = v`, `k` reads `v` and every other key reads as before. */
  lemma {:induction false} GetPut<V>(d: Dict<V>, k: string, v: V, k': string)
    ensures Get(Put(d, k, v), k') == if k' == k then Some(v) else Get(d, k')
  {
    if d != [] && d[0].0 != k {
      GetPut(d[1..], k, v, k');
      assert Put(d, k, v)[1..] == Put(d[1..], k, v);
    } else if d != [] {
      assert Put(d, k, v)[1..] == d[1..];
    }
  }

  /** An existing key keeps its place; a new key goes last. */
  lemma {:induction false} KeysPut<V>(d: Dict<V>, k: string, v: V)
    ensures k in Keys(d) ==> Keys(Put(d, k, v)) == Keys(d)
    ensures k !in Keys(d) ==> Keys(Put(d, k, v)) == Keys(d) + [k]
  {
    if d != [] {
      assert Keys(d) == [d[0].0] + Keys(d[1..]);
      if d[0].0 != k {
        KeysPut(d[1..], k, v);
        assert Put(d, k, v) == [d[0]] + Put(d[1..], k, v);
        assert Keys(Put(d, k, v)) == [d[0].0] + Keys(Put(d[1..], k, v));
      } else {
        assert Keys(Put(d, k, v)) == [k] + Keys(d[1..]);
      }
    }
  }

  /** JavaScript truthiness. */
  predicate Truthy(v: Json) {
    match v
    case JUndefined => false
    case JNull => false
    case JBool(b) => b
    case JNum(n) => n != 0
    case JStr(s) => s != ""
    case JArr(_) => true
    case JObj(_) => true
  }

  /** The `typeof` operator. */
  function TypeOf(v: Json): (t: string)
    ensures t in {"undefined", "object", "boolean", "number", "string"}
    ensures t == "object" <==> (v.JNull? || v.JArr? || v.JObj?)
  {
    match v
    case JUndefined => "undefined"
    case JNull => "object"
    case JBool(_) => "boolean"
    case JNum(_) => "number"
    case JStr(_) => "string"
    case JArr(_) => "object"
    case JObj(_) => "object"
  }

  function EntryVal(es: seq<Entry>, k: string): (r: Json)
    ensures r != JUndefined ==> exists i :: 0 <= i < |es| && es[i].key == k && es[i].val == r
  {
    if es == [] then JUndefined
    else if es[0].key == k then es[0].val
    else EntryVal(es[1..], k)
  }

  /**
   * Reading a named property `v[k]` of a value that is not null or
   * undefined: an object yields its own property or `undefined`; the keys
   * this core reads ("status", "$skip", ...) are not properties of arrays,
   * strings or other primitives, so those yield `undefined`.
   */
  function Prop(v: Json, k: string): Json {
    if v.JObj? then EntryVal(v.entries, k) else JUndefined
  }

  function DigitChar(d: nat): char
    requires d < 10
  {
    "0123456789"[d]
  }

  function NatToString(n: nat): (s: string)
    ensures |s| >= 1
    decreases n
  {
    if n < 10 then [DigitChar(n)] else NatToString(n / 10) + [DigitChar(n % 10)]
  }

  function IntToString(n: int): (s: string)
    ensures |s| >= 1
  {
    if n < 0 then "-" + NatToString(-n) else NatToString(n)
  }

  /**
   * The `for...in` statement: the (key, value) pairs it visits, in order.
   * Objects give their entries, arrays and strings their indices, and all
   * other values nothing.
   */
  function Enumerate(v: Json): (es: seq<Entry>)
    ensures v.JObj? ==> es == v.entries
    ensures v.JArr? ==> |es| == |v.items|
    ensures v.JStr? ==> |es| == |v.s|
    ensures !(v.JObj? || v.JArr? || v.JStr?) ==> es == []
  {
    match v
    case JObj(entries) => entries
    case JArr(items) => seq(|items|, i requires 0 <= i < |items| => Entry(NatToString(i), items[i]))
    case JStr(s) => seq(|s|, i requires 0 <= i < |s| => Entry(NatToString(i), JStr([s[i]])))
    case _ => []
  }

  /** `Array.prototype.join`: null and undefined elements become empty strings. */
  function JoinValues(items: seq<Json>, sep: string): string
    decreases items, 0
  {
    if items == [] then ""
    else if |items| == 1 then JoinElement(items[0])
    else JoinElement(items[0]) + sep + JoinValues(items[1..], sep)
  }

  function JoinElement(v: Json): string
    decreases v, 2
  {
    if v.JNull? || v.JUndefined? then "" else ToJsString(v)
  }

  /** `String(v)`. */
  function ToJsString(v: Json): string
    decreases v, 1
  {
    match v
    case JUndefined => "undefined"
    case JNull => "null"
    case JBool(b) => if b then "true" else "false"
    case JNum(n) => IntToString(n)
    case JStr(s) => s
    case JArr(items) => JoinValues(items, ",")
    case JObj(_) => "[object Object]"
  }

  /** `Array.prototype.join` on an array of strings. */
  function Join(parts: seq<string>, sep: string): (r: string)
    ensures parts == [] ==> r == ""
    ensures |parts| == 1 ==> r == parts[0]
  {
    if parts == [] then ""
    else if |parts| == 1 then parts[0]
    else parts[0] + sep + Join(parts[1..], sep)
  }

  /** The ASCII part of `toLowerCase`. */
  function LowerChar(c: char): char {
    if 'A' <= c <= 'Z' then (c as int - 'A' as int + 'a' as int) as char else c
  }

  function ToLower(s: string): (r: string)
    ensures |r| == |s|
    ensures forall i :: 0 <= i < |s| ==> r[i] == LowerChar(s[i])
  {
    if s == [] then [] else [LowerChar(s[0])] + ToLower(s[1..])
  }

  /** The ASCII part of `toUpperCase`. */
  function UpperChar(c: char): char {
    if 'a' <= c <= 'z' then (c as int - 'a' as int + 'A' as int) as char else c
  }

  function ToUpper(s: string): (r: string)
    ensures |r| == |s|
    ensures forall i :: 0 <= i < |s| ==> r[i] == UpperChar(s[i])
  {
    if s == [] then [] else [UpperChar(s[0])] + ToUpper(s[1..])
  }

  /** `ToPrimitive` with hint number: an object or array becomes its `String` form. */
  function ToPrimitive(v: Json): (p: Json)
    ensures !p.JArr? && !p.JObj?
    ensures !(v.JArr? || v.JObj?) ==> p == v
    ensures v.JArr? || v.JObj? ==> p == JStr(ToJsString(v))
  {
    if v.JArr? || v.JObj? then JStr(ToJsString(v)) else v
  }

  /** The white space and line terminators `Number(s)` ignores around a numeral. */
  const StrWhiteSpace: set<char> :=
    {'\t', '\n', '\U{B}', '\U{C}', '\r', ' ', '\U{A0}', '\U{1680}',
     '\U{2000}', '\U{2001}', '\U{2002}', '\U{2003}', '\U{2004}', '\U{2005}', '\U{2006}',
     '\U{2007}', '\U{2008}', '\U{2009}', '\U{200A}',
     '\U{2028}', '\U{2029}', '\U{202F}', '\U{205F}', '\U{3000}', '\U{FEFF}'}

  predicate IsStrWhiteSpace(c: char) {
    c in StrWhiteSpace
  }


  function TrimStart(s: string): string {
    if s != [] && IsStrWhiteSpace(s[0]) then TrimStart(s[1..]) else s
  }

  function TrimEnd(s: string): string {
    if s != [] && IsStrWhiteSpace(s[|s| - 1]) then TrimEnd(s[..|s| - 1]) else s
  }

  /** The value of a decimal numeral: None unless `ds` is one or more digits. */
  function DecimalValue(ds: string): (r: Option<nat>)
    ensures r.Some? ==> ds != [] && forall i :: 0 <= i < |ds| ==> '0' <= ds[i] <= '9'
  {
    if ds == [] then None
    else
      var c := ds[|ds| - 1];
      if !('0' <= c <= '9') then None
      else if |ds| == 1 then Some(c as int - '0' as int)
      else match DecimalValue(ds[..|ds| - 1])
        case None => None
        case Some(v) => Some(v * 10 + (c as int - '0' as int))
  }

  /**
   * `Number(s)` for the numerals this model reads: blank text is 0, and an
   * optionally signed run of decimal digits is its value. Every other text
   * is None, which stands for NaN.
   */
  function StringToNumber(s: string): Option<int> {
    var t := TrimEnd(TrimStart(s));
    if t == [] then Some(0)
    else if t[0] == '+' || t[0] == '-' then
      match DecimalValue(t[1..])
      case None => None
      case Some(m) =>
        var v: int := m;
        Some(if t[0] == '-' then -v else v)
    else
      match DecimalValue(t)
      case None => None
      case Some(m) => Some(m)
  }

  /** `ToNumber`: None stands for NaN. */
  function ToNumber(v: Json): Option<int> {
    match v
    case JUndefined => None
    case JNull => Some(0)
    case JBool(b) => Some(if b then 1 else 0)
    case JNum(n) => Some(n)
    case JStr(s) => StringToNumber(s)
    case _ => StringToNumber(ToJsString(v))
  }

  lemma {:induction false} NatDigits(n: nat)
    ensures DecimalValue(NatToString(n)) == Some(n)
    decreases n
  {
    var s := NatToString(n);
    DigitCharValue(n % 10);
    if n >= 10 {
      NatDigits(n / 10);
      var prefix := NatToString(n / 10);
      assert s == prefix + [DigitChar(n % 10)];
      assert s[..|s| - 1] == prefix;
      assert DecimalValue(s) == Some((n / 10) * 10 + n % 10);
    } else {
      assert s == [DigitChar(n)];
    }
  }

  lemma DigitCharValue(d: nat)
    requires d < 10
    ensures '0' <= DigitChar(d) <= '9' && DigitChar(d) as int - '0' as int == d
  {
  }

  /** Reading back what `String(n)` writes gives n. */
  lemma NumberOfIntString(n: int)
    ensures StringToNumber(IntToString(n)) == Some(n)
  {
    var s := IntToString(n);
    var m: nat := if n < 0 then -n else n;
    var digits := NatToString(m);
    NatDigits(m);
    var last := digits[|digits| - 1];
    assert '0' <= last <= '9';
    if n < 0 {
      assert s == "-" + digits;
      assert s[1..] == digits;
      assert s[|s| - 1] == last;
      NumeralCharNotWhiteSpace(s[0]);
      NumeralCharNotWhiteSpace(last);
      TrimNothing(s);
      assert StringToNumber(s) == Some(n);
    } else {
      assert s == digits;
      assert '0' <= s[0] <= '9';
      NumeralCharNotWhiteSpace(s[0]);
      NumeralCharNotWhiteSpace(last);
      TrimNothing(s);
    }
  }

  /** Digits and the minus sign are not white space. */
  lemma NumeralCharNotWhiteSpace(c: char)
    requires '0' <= c <= '9' || c == '-'
    ensures !IsStrWhiteSpace(c)
  {
    assert forall w | w in StrWhiteSpace :: w < '-' || '9' < w;
  }

  lemma TrimNothing(s: string)
    requires s != [] && !IsStrWhiteSpace(s[0]) && !IsStrWhiteSpace(s[|s| - 1])
    ensures TrimEnd(TrimStart(s)) == s
  {
  }
}
