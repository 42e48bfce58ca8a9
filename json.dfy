/**
 * JSON values as `json.loads` returns them (numbers are modelled as
 * integers), with Python's truthiness, the `a or b` idiom and the text
 * `str` and `repr` give.
 */
module Json {
  import opened Wrappers
  import opened Dicts
  import Text

  datatype Json =
    | JNull
    | JBool(b: bool)
    | JInt(i: int)
    | JStr(s: string)
    | JList(items: seq<Json>)
    | JObj(fields: Dict<Json>)

  /** `bool(j)`: None, False, 0 and empty strings and containers are false. */
  predicate Truthy(j: Json) {
    match j
    case JNull => false
    case JBool(b) => b
    case JInt(i) => i != 0
    case JStr(s) => s != ""
    case JList(xs) => xs != []
    case JObj(f) => f != []
  }

  /** `a or b`. */
  function Or(a: Json, b: Json): (r: Json)
    ensures Truthy(a) ==> r == a
    ensures !Truthy(a) ==> r == b
  {
    if Truthy(a) then a else b
  }

  /** `d.get(k, default)` on a JSON object. */
  function GetOr(fields: Dict<Json>, k: string, default: Json): Json {
    Get(fields, k).GetOr(default)
  }

  /** Lists and dicts cannot be dictionary keys or set members. */
  predicate Hashable(j: Json) {
    !j.JList? && !j.JObj?
  }

  /** `str(j)`: a string is itself, any other value its `repr`. */
  function Str(j: Json): string {
    if j.JStr? then j.s else Repr(j)
  }

  /** `repr(j)` for the values `json.loads` returns: lists and dicts show
      their items' reprs separated by ", ", and dict keys are strings. */
  function Repr(j: Json): string
    decreases j
  {
    match j
    case JNull => "None"
    case JBool(b) => if b then "True" else "False"
    case JInt(i) => Text.IntToString(i)
    case JStr(s) => StrRepr(s)
    case JList(xs) =>
      "[" + Text.Join(seq(|xs|, k requires 0 <= k < |xs| => Repr(xs[k])), ", ") + "]"
    case JObj(f) =>
      "{" + Text.Join(seq(|f|, k requires 0 <= k < |f| => StrRepr(f[k].0) + ": " + Repr(f[k].1)), ", ") + "}"
  }

  /** The quote `repr` puts around a string: a double quote when the string
      holds a single quote and no double quote, a single quote otherwise. */
  function QuoteFor(s: string): char {
    if '\'' in s && '"' !in s then '"' else '\''
  }

  function HexDigit(n: nat): char
    requires n < 16
  {
    "0123456789abcdef"[n]
  }

  function HexValue(c: char): nat {
    if '0' <= c <= '9' then c as nat - '0' as nat
    else if 'a' <= c <= 'f' then c as nat - 'a' as nat + 10
    else 0
  }

  /** A control character `repr` writes as `\xNN`. */
  predicate IsControl(c: char) {
    c < ' ' || c as int == 127
  }

  /** One character as `repr` writes it between the quotes `q`: the quote
      and the backslash escaped, tab, line feed and carriage return by
      letter, other control characters in hex, everything else as is. */
  function EscapeChar(c: char, q: char): (e: string)
    ensures |e| > 0 && (e[0] == '\\' || e == [c])
  {
    if c == q || c == '\\' then ['\\', c]
    else if c == '\t' then "\\t"
    else if c == '\n' then "\\n"
    else if c == '\r' then "\\r"
    else if IsControl(c) then "\\x" + [HexDigit(c as nat / 16), HexDigit(c as nat % 16)]
    else [c]
  }

  function EscapeAll(s: string, q: char): string
    decreases |s|
  {
    if |s| == 0 then "" else EscapeChar(s[0], q) + EscapeAll(s[1..], q)
  }

  /** `repr(s)` for a string. */
  function StrRepr(s: string): (r: string)
    ensures |r| >= 2 && r[0] == QuoteFor(s) && r[|r| - 1] == QuoteFor(s)
    ensures r[1..|r| - 1] == EscapeAll(s, QuoteFor(s))
  {
    var q := QuoteFor(s);
    [q] + EscapeAll(s, q) + [q]
  }

  /** Reads back what `EscapeAll` writes. */
  function Unescape(e: string): string
    decreases |e|
  {
    if |e| == 0 then ""
    else if e[0] == '\\' && |e| >= 2 then
      var c := e[1];
      if c == 'x' && |e| >= 4 then
        [(HexValue(e[2]) * 16 + HexValue(e[3])) as char] + Unescape(e[4..])
      else
        [Unletter(c)] + Unescape(e[2..])
    else [e[0]] + Unescape(e[1..])
  }

  /** The character a backslash and `d` stand for, `d` not being `x`. */
  function Unletter(d: char): char {
    if d == 't' then '\t' else if d == 'n' then '\n' else if d == 'r' then '\r' else d
  }

  lemma UnescapePair(d: char, rest: string)
    requires d != 'x'
    ensures Unescape(['\\', d] + rest) == [Unletter(d)] + Unescape(rest)
  {
    assert (['\\', d] + rest)[2..] == rest;
  }

  lemma UnescapeHex(n: nat, rest: string)
    requires n < 128
    ensures Unescape("\\x" + [HexDigit(n / 16), HexDigit(n % 16)] + rest) == [n as char] + Unescape(rest)
  {
    var hi, lo := HexDigit(n / 16), HexDigit(n % 16);
    HexRoundTrip(n / 16);
    HexRoundTrip(n % 16);
    var e := "\\x" + [hi, lo] + rest;
    assert e[0] == '\\' && e[1] == 'x' && e[2] == hi && e[3] == lo && |e| >= 4;
    assert e[4..] == rest;
    assert (HexValue(hi) * 16 + HexValue(lo)) == n;
  }

  lemma HexRoundTrip(k: nat)
    requires k < 16
    ensures HexValue(HexDigit(k)) == k
  {
  }

  lemma UnescapeOther(c: char, rest: string)
    requires c != '\\'
    ensures Unescape([c] + rest) == [c] + Unescape(rest)
  {
    assert ([c] + rest)[1..] == rest;
  }

  lemma UnescapeChar(c: char, q: char, rest: string)
    requires q == '\'' || q == '"'
    ensures Unescape(EscapeChar(c, q) + rest) == [c] + Unescape(rest)
  {
    if c == q || c == '\\' {
      UnescapePair(c, rest);
    } else if c == '\t' {
      UnescapePair('t', rest);
    } else if c == '\n' {
      UnescapePair('n', rest);
    } else if c == '\r' {
      UnescapePair('r', rest);
    } else if IsControl(c) {
      UnescapeHex(c as nat, rest);
    } else {
      UnescapeOther(c, rest);
    }
  }

  /** Unescaping undoes the escaping, whatever the quote. */
  lemma {:induction false} EscapeRoundTrip(s: string, q: char)
    requires q == '\'' || q == '"'
    ensures Unescape(EscapeAll(s, q)) == s
    decreases |s|
  {
    if |s| > 0 {
      EscapeRoundTrip(s[1..], q);
      UnescapeChar(s[0], q, EscapeAll(s[1..], q));
    }
  }

  /** Different strings have different reprs. */
  lemma StrReprInjective(a: string, b: string)
    requires StrRepr(a) == StrRepr(b)
    ensures a == b
  {
    EscapeRoundTrip(a, QuoteFor(a));
    EscapeRoundTrip(b, QuoteFor(b));
  }

  /** Printable ASCII other than the single quote and the backslash. */
  predicate IsPlain(c: char) {
    ' ' <= c <= '~' && c != '\'' && c != '\\'
  }

  /** A string of plain characters is shown between single quotes as is. */
  lemma {:induction false} StrReprPlain(s: string)
    requires forall i :: 0 <= i < |s| ==> IsPlain(s[i])
    ensures StrRepr(s) == "'" + s + "'"
  {
    assert QuoteFor(s) == '\'';
    EscapePlain(s);
  }

  lemma {:induction false} EscapePlain(s: string)
    requires forall i :: 0 <= i < |s| ==> IsPlain(s[i])
    ensures EscapeAll(s, '\'') == s
    decreases |s|
  {
    if |s| > 0 {
      EscapePlain(s[1..]);
      assert s == [s[0]] + s[1..];
    }
  }

  /** A list holding one plain string reads as `['s']`. */
  lemma OnePlainString(s: string)
    requires forall i :: 0 <= i < |s| ==> IsPlain(s[i])
    ensures Str(JList([JStr(s)])) == "['" + s + "']"
  {
    var xs := [JStr(s)];
    var parts := seq(|xs|, k requires 0 <= k < |xs| => Repr(xs[k]));
    assert Str(JList(xs)) == "[" + Text.Join(parts, ", ") + "]";
    assert |parts| == 1 && parts[0] == StrRepr(s);
    assert Text.Join(parts, ", ") == StrRepr(s);
    StrReprPlain(s);
  }

  /** The values `for x in j` visits: list items, the one-character strings of
      a string, the keys of an object; None where Python raises TypeError. */
  function Iterate(j: Json): Option<seq<Json>> {
    match j
    case JList(xs) => Some(xs)
    case JStr(s) => Some(seq(|s|, i requires 0 <= i < |s| => JStr([s[i]])))
    case JObj(f) => Some(seq(|f|, i requires 0 <= i < |f| => JStr(f[i].0)))
    case _ => None
  }
}
