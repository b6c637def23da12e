/**
  The canonical JSON encoder, with a parser that undoes it: texts are equal
  exactly when the values are, up to dictionary key order.
 */
module Json {
  import opened Prelude
  import opened TextEncoding
  import opened Sorting

  /**
    A Python value as the validator sees it. Dictionaries keep their insertion
    order; `Foreign` stands for an object of a type outside the six allowed
    ones (float, Decimal, datetime, bytes, set, tuple, an Enum member, ...).
   */
  datatype Value =
    | Null
    | Bool(b: bool)
    | Int(n: int)
    | Str(s: string)
    | List(items: seq<Value>)
    | Dict(entries: seq<Entry>)
    | Foreign(typeName: string)

  datatype Entry = Entry(key: Value, value: Value)

  /** `_validate_payload` raises nothing. */
  predicate Validated(v: Value) {
    match v
    case List(items) => forall i :: 0 <= i < |items| ==> Validated(items[i])
    case Dict(es) => forall i :: 0 <= i < |es| ==> es[i].key.Str? && Validated(es[i].value)
    case Foreign(_) => false
    case _ => true
  }

  predicate DistinctKeys(es: seq<Entry>) {
    forall i, j :: 0 <= i < j < |es| ==> es[i].key != es[j].key
  }

  /** What holds of every Python object: a dict has no key twice, at any depth. */
  predicate IsPython(v: Value) {
    match v
    case List(items) => forall i :: 0 <= i < |items| ==> IsPython(items[i])
    case Dict(es) => DistinctKeys(es) && forall i :: 0 <= i < |es| ==> IsPython(es[i].value)
    case _ => true
  }

  /**
    Equality of values, dictionaries compared as Python compares them: the same
    size, and every key of one maps to an equal value in the other. Unlike
    Python's `==`, `True` and `1` are different here.
   */
  ghost predicate Same(a: Value, b: Value)
    decreases a, 0
  {
    match a
    case List(xs) =>
      && b.List? && |xs| == |b.items|
      && forall i :: 0 <= i < |xs| ==> Same(xs[i], b.items[i])
    case Dict(xs) =>
      && b.Dict? && |xs| == |b.entries|
      && forall i :: 0 <= i < |xs| ==> Maps(b.entries, xs[i].key, xs[i].value)
    case _ => a == b
  }

  ghost predicate Maps(es: seq<Entry>, key: Value, value: Value)
    decreases value, 1
  {
    exists j :: 0 <= j < |es| && es[j].key == key && Same(value, es[j].value)
  }

  // ---- sort_keys=True ----

  function KeyText(e: Entry): string {
    if e.key.Str? then e.key.s else ""
  }

  predicate KeyLe(a: Entry, b: Entry) {
    LexLe(KeyText(a), KeyText(b))
  }

  function SortKeys(v: Value): Value
    decreases v, 1
  {
    match v
    case List(items) => List(seq(|items|, i requires 0 <= i < |items| => SortKeys(items[i])))
    case Dict(es) => Dict(Sort(KeyLe, SortValues(es)))
    case _ => v
  }

  function SortValues(es: seq<Entry>): (r: seq<Entry>)
    ensures |r| == |es|
    ensures forall i :: 0 <= i < |es| ==> r[i] == SortEntry(es[i])
    decreases es, 0
  {
    seq(|es|, i requires 0 <= i < |es| => SortEntry(es[i]))
  }

  function SortEntry(e: Entry): Entry
    decreases e, 2
  {
    Entry(e.key, SortKeys(e.value))
  }

  // ---- The printer: compact separators ----

  function Hex4(n: nat): string
    requires n < 0x10000
  {
    [HexDigit(n / 16 / 16 / 16), HexDigit(n / 16 / 16 % 16), HexDigit(n / 16 % 16), HexDigit(n % 16)]
  }

  /**
    The escapes of section 7 of RFC 8259 that Python writes. With
    `ensure_ascii` everything outside the printable ASCII range becomes one
    UTF-16 code unit, or a surrogate pair, in hexadecimal.
   */
  function EscapeChar(c: char, ascii: bool): string {
    var n := c as int;
    if c == '"' then "\\\""
    else if c == '\\' then "\\\\"
    else if c == '\n' then "\\n"
    else if c == '\r' then "\\r"
    else if c == '\t' then "\\t"
    else if n == 8 then "\\b"
    else if n == 12 then "\\f"
    else if n < 0x20 || (ascii && n >= 0x7F) then UnicodeEscape(n)
    else [c]
  }

  function UnicodeEscape(n: nat): string
    requires n < 0x110000
  {
    if n < 0x10000 then "\\u" + Hex4(n)
    else PairText(HighHalf(n), LowHalf(n))
  }

  function HighHalf(n: nat): (hi: int)
    requires 0x10000 <= n < 0x110000
    ensures 0xD800 <= hi < 0xDC00
  {
    0xD800 + (n - 0x10000) / 0x400
  }

  function LowHalf(n: nat): (lo: int)
    requires 0x10000 <= n < 0x110000
    ensures 0xDC00 <= lo < 0xE000
  {
    0xDC00 + (n - 0x10000) % 0x400
  }

  function PairText(hi: nat, lo: nat): string
    requires hi < 0x10000 && lo < 0x10000
  {
    "\\u" + (Hex4(hi) + ("\\u" + Hex4(lo)))
  }

  function Escape(s: string, ascii: bool): string {
    if s == "" then "" else EscapeChar(s[0], ascii) + Escape(s[1..], ascii)
  }

  function Quote(s: string, ascii: bool): string {
    "\"" + Escape(s, ascii) + "\""
  }

  function Print(v: Value, ascii: bool): string
    requires Validated(v)
    decreases v, 1
  {
    match v
    case Null => "null"
    case Bool(b) => if b then "true" else "false"
    case Int(n) => Decimal(n)
    case Str(s) => Quote(s, ascii)
    case List(items) => "[" + PrintItems(items, ascii) + "]"
    case Dict(es) => "{" + PrintEntries(es, ascii) + "}"
  }

  function PrintItems(items: seq<Value>, ascii: bool): string
    requires forall i :: 0 <= i < |items| ==> Validated(items[i])
    decreases items, 0
  {
    if items == [] then ""
    else if |items| == 1 then Print(items[0], ascii)
    else Print(items[0], ascii) + "," + PrintItems(items[1..], ascii)
  }

  function PrintEntry(e: Entry, ascii: bool): string
    requires e.key.Str? && Validated(e.value)
    decreases e, 2
  {
    Quote(e.key.s, ascii) + ":" + Print(e.value, ascii)
  }

  function PrintEntries(es: seq<Entry>, ascii: bool): string
    requires forall i :: 0 <= i < |es| ==> es[i].key.Str? && Validated(es[i].value)
    decreases es, 0
  {
    if es == [] then ""
    else if |es| == 1 then PrintEntry(es[0], ascii)
    else PrintEntry(es[0], ascii) + "," + PrintEntries(es[1..], ascii)
  }

  // ---- The parser for compact JSON text ----

  datatype Parse<+T> = Stuck | Done(value: T, rest: string)

  function ParseHex4(t: string): Option<int>
    ensures ParseHex4(t).Some? ==> |t| >= 4 && 0 <= ParseHex4(t).value < 0x10000
  {
    if |t| < 4 || HexValue(t[0]).None? || HexValue(t[1]).None? || HexValue(t[2]).None? || HexValue(t[3]).None?
    then None
    else Some(((HexValue(t[0]).value * 16 + HexValue(t[1]).value) * 16
               + HexValue(t[2]).value) * 16 + HexValue(t[3]).value)
  }

  /** Reads the second half of a surrogate pair whose first half was `n`. */
  function ParseLowSurrogate(n: int, t: string): (r: Parse<char>)
    requires 0xD800 <= n < 0xDC00
    ensures r.Done? ==> |r.rest| < |t|
  {
    if |t| < 2 || t[0] != '\\' || t[1] != 'u' then Stuck
    else
      match ParseHex4(t[2..])
      case None => Stuck
      case Some(m) =>
        if 0xDC00 <= m < 0xE000
        then Done((0x10000 + (n - 0xD800) * 0x400 + (m - 0xDC00)) as char, t[2..][4..])
        else Stuck
  }

  /** Reads a `\uXXXX` escape, joining a surrogate pair; `t` starts after `\u`. */
  function ParseUnicode(t: string): (r: Parse<char>)
    ensures r.Done? ==> |r.rest| < |t|
  {
    match ParseHex4(t)
    case None => Stuck
    case Some(n) =>
      if n < 0xD800 || 0xE000 <= n then Done(n as char, t[4..])
      else if n < 0xDC00 then ParseLowSurrogate(n, t[4..])
      else Stuck
  }

  /** Reads one possibly escaped character of a string literal. */
  function ParseChar(t: string): (r: Parse<char>)
    ensures r.Done? ==> |r.rest| < |t|
  {
    if t == "" || t[0] as int < 0x20 || t[0] == '"' then Stuck
    else if t[0] != '\\' then Done(t[0], t[1..])
    else if |t| < 2 then Stuck
    else if t[1] == '"' then Done('"', t[2..])
    else if t[1] == '\\' then Done('\\', t[2..])
    else if t[1] == 'n' then Done('\n', t[2..])
    else if t[1] == 'r' then Done('\r', t[2..])
    else if t[1] == 't' then Done('\t', t[2..])
    else if t[1] == 'b' then Done(8 as char, t[2..])
    else if t[1] == 'f' then Done(12 as char, t[2..])
    else if t[1] == 'u' then ParseUnicode(t[2..])
    else Stuck
  }

  /** Reads up to and including the closing quote. */
  function ParseChars(t: string): (r: Parse<string>)
    ensures r.Done? ==> |r.rest| < |t|
    decreases |t|
  {
    if t != "" && t[0] == '"' then Done("", t[1..])
    else
      match ParseChar(t)
      case Stuck => Stuck
      case Done(c, rest) =>
        match ParseChars(rest)
        case Stuck => Stuck
        case Done(s, rest') => Done([c] + s, rest')
  }

  function ParseValue(t: string): (r: Parse<Value>)
    ensures r.Done? ==> |r.rest| < |t|
    decreases |t|, 0
  {
    if t == "" then Stuck
    else if t[0] == '"' then
      (match ParseChars(t[1..]) case Stuck => Stuck case Done(s, rest) => Done(Str(s), rest))
    else if t[0] == '[' then
      if |t| >= 2 && t[1] == ']' then Done(List([]), t[2..])
      else match ParseItems(t[1..]) case Stuck => Stuck case Done(items, rest) => Done(List(items), rest)
    else if t[0] == '{' then
      if |t| >= 2 && t[1] == '}' then Done(Dict([]), t[2..])
      else match ParseEntries(t[1..]) case Stuck => Stuck case Done(es, rest) => Done(Dict(es), rest)
    else if IsDigit(t[0]) then
      var (n, rest) := ReadDigits(t, 0); Done(Int(n), rest)
    else if t[0] == '-' && |t| >= 2 && IsDigit(t[1]) then
      var (n, rest) := ReadDigits(t[1..], 0); Done(Int(0 - n), rest)
    else if "null" <= t then Done(Null, t[4..])
    else if "true" <= t then Done(Bool(true), t[4..])
    else if "false" <= t then Done(Bool(false), t[5..])
    else Stuck
  }

  /** Reads a non-empty list body up to and including the closing bracket. */
  function ParseItems(t: string): (r: Parse<seq<Value>>)
    ensures r.Done? ==> |r.rest| < |t|
    decreases |t|, 1
  {
    match ParseValue(t)
    case Stuck => Stuck
    case Done(v, rest) =>
      if rest == "" then Stuck
      else if rest[0] == ']' then Done([v], rest[1..])
      else if rest[0] == ',' then
        (match ParseItems(rest[1..]) case Stuck => Stuck case Done(vs, rest') => Done([v] + vs, rest'))
      else Stuck
  }

  function ParseEntry(t: string): (r: Parse<Entry>)
    ensures r.Done? ==> |r.rest| < |t|
    decreases |t|, 1
  {
    if t == "" || t[0] != '"' then Stuck
    else
      match ParseChars(t[1..])
      case Stuck => Stuck
      case Done(k, rest) =>
        if rest == "" || rest[0] != ':' then Stuck
        else
          match ParseValue(rest[1..])
          case Stuck => Stuck
          case Done(v, rest') => Done(Entry(Str(k), v), rest')
  }

  /** Reads a non-empty object body up to and including the closing brace. */
  function ParseEntries(t: string): (r: Parse<seq<Entry>>)
    ensures r.Done? ==> |r.rest| < |t|
    decreases |t|, 2
  {
    match ParseEntry(t)
    case Stuck => Stuck
    case Done(e, rest) =>
      if rest == "" then Stuck
      else if rest[0] == '}' then Done([e], rest[1..])
      else if rest[0] == ',' then
        (match ParseEntries(rest[1..]) case Stuck => Stuck case Done(es, rest') => Done([e] + es, rest'))
      else Stuck
  }

  // ---- The parser undoes the printer ----

  lemma DropPrefix(a: string, b: string)
    ensures (a + b)[|a|..] == b
    ensures forall i :: 0 <= i < |a| ==> (a + b)[i] == a[i]
  {
  }

  lemma DropOne(c: char, b: string)
    ensures ([c] + b)[0] == c && ([c] + b)[1..] == b
  {
  }

  lemma Hex4RoundTrip(n: nat, rest: string)
    requires n < 0x10000
    ensures ParseHex4(Hex4(n) + rest) == Some(n)
    ensures (Hex4(n) + rest)[4..] == rest
  {
    var a, b, c := n / 16, n / 16 / 16, n / 16 / 16 / 16;
    assert n == 16 * a + n % 16 && a == 16 * b + a % 16 && b == 16 * c + b % 16;
    DropPrefix(Hex4(n), rest);
  }

  lemma ParseUnicodeHex(n: nat, rest: string)
    requires n < 0x10000 && (n < 0xD800 || 0xE000 <= n)
    ensures ParseUnicode(Hex4(n) + rest) == Done(n as char, rest)
  {
    Hex4RoundTrip(n, rest);
  }

  lemma ParseLowSurrogateHex(n: int, m: int, u: string, rest: string)
    requires 0xD800 <= n < 0xDC00 && 0xDC00 <= m < 0xE000 && u == "\\u"
    ensures ParseLowSurrogate(n, u + (Hex4(m) + rest))
         == Done((0x10000 + (n - 0xD800) * 0x400 + (m - 0xDC00)) as char, rest)
  {
    DropPrefix(u, Hex4(m) + rest);
    Hex4RoundTrip(m, rest);
  }

  lemma ParseUnicodePair(hi: int, lo: int, u: string, rest: string)
    requires 0xD800 <= hi < 0xDC00 && 0xDC00 <= lo < 0xE000 && u == "\\u"
    ensures ParseUnicode(Hex4(hi) + (u + (Hex4(lo) + rest)))
         == Done((0x10000 + (hi - 0xD800) * 0x400 + (lo - 0xDC00)) as char, rest)
  {
    Hex4RoundTrip(hi, u + (Hex4(lo) + rest));
    ParseLowSurrogateHex(hi, lo, u, rest);
  }

  lemma ParseCharUnicode(u: string, t: string)
    requires u == "\\u"
    ensures ParseChar(u + t) == ParseUnicode(t)
  {
    DropPrefix(u, t);
  }

  lemma Reassociate(a: string, b: string, c: string, d: string, e: string)
    ensures a + (b + (c + d)) + e == a + (b + (c + (d + e)))
  {
  }

  lemma Reassociate4(a: string, b: string, c: string, d: string)
    ensures a + b + c + d == a + (b + (c + d))
  {
  }

  lemma HalvesRejoin(n: nat)
    requires 0x10000 <= n < 0x110000
    ensures n == 0x10000 + (HighHalf(n) - 0xD800) * 0x400 + (LowHalf(n) - 0xDC00)
  {
  }

  lemma ParsePairText(c: char, hi: int, lo: int, u: string, rest: string)
    requires 0xD800 <= hi < 0xDC00 && 0xDC00 <= lo < 0xE000 && u == "\\u"
    requires c as int == 0x10000 + (hi - 0xD800) * 0x400 + (lo - 0xDC00)
    ensures ParseChar(PairText(hi, lo) + rest) == Done(c, rest)
  {
    Reassociate(u, Hex4(hi), u, Hex4(lo), rest);
    ParseCharUnicode(u, Hex4(hi) + (u + (Hex4(lo) + rest)));
    ParseUnicodePair(hi, lo, u, rest);
  }

  lemma ParseHexText(n: int, u: string, rest: string)
    requires 0 <= n < 0x10000 && (n < 0xD800 || 0xE000 <= n) && u == "\\u"
    ensures ParseChar(u + Hex4(n) + rest) == Done(n as char, rest)
  {
    assert u + Hex4(n) + rest == u + (Hex4(n) + rest);
    ParseCharUnicode(u, Hex4(n) + rest);
    ParseUnicodeHex(n, rest);
  }

  lemma ParseUnicodeEscape(c: char, rest: string)
    ensures ParseChar(UnicodeEscape(c as int) + rest) == Done(c, rest)
  {
    var n := c as int;
    if n < 0x10000 {
      ParseHexText(n, "\\u", rest);
    } else {
      HalvesRejoin(n);
      ParsePairText(c, HighHalf(n), LowHalf(n), "\\u", rest);
    }
  }

  lemma ParseCharOfEscape(c: char, ascii: bool, rest: string)
    ensures ParseChar(EscapeChar(c, ascii) + rest) == Done(c, rest)
    ensures EscapeChar(c, ascii) != "" && EscapeChar(c, ascii)[0] != '"'
  {
    var e := EscapeChar(c, ascii);
    DropPrefix(e, rest);
    if |e| > 2 {
      ParseUnicodeEscape(c, rest);
    }
  }

  lemma ParseCharsStep(t: string, c: char, rest: string, s: string, rest': string)
    requires t != "" && t[0] != '"' && ParseChar(t) == Done(c, rest) && ParseChars(rest) == Done(s, rest')
    ensures ParseChars(t) == Done([c] + s, rest')
  {
  }

  lemma ParseMoreChars(e: string, c: char, tail: string, s: string, rest: string)
    requires e != "" && e[0] != '"' && ParseChar(e + tail) == Done(c, tail) && ParseChars(tail) == Done(s, rest)
    ensures ParseChars(e + tail) == Done([c] + s, rest)
  {
    assert (e + tail)[0] == e[0];
    ParseCharsStep(e + tail, c, tail, s, rest);
  }

  lemma {:induction false} ParseCharsOfEscape(s: string, ascii: bool, rest: string)
    ensures ParseChars(Escape(s, ascii) + ("\"" + rest)) == Done(s, rest)
  {
    if s == "" {
      DropOne('"', rest);
      assert Escape(s, ascii) + ("\"" + rest) == "\"" + rest;
    } else {
      var e, tail := EscapeChar(s[0], ascii), Escape(s[1..], ascii) + ("\"" + rest);
      assert Escape(s, ascii) + ("\"" + rest) == e + tail;
      ParseCharOfEscape(s[0], ascii, tail);
      ParseCharsOfEscape(s[1..], ascii, rest);
      ParseMoreChars(e, s[0], tail, s[1..], rest);
      assert s == [s[0]] + s[1..];
    }
  }

  /** The printed form of an integer ends where the digits end. */
  predicate Delimited(rest: string) {
    rest == "" || !IsDigit(rest[0])
  }

  lemma ParseDigits(m: nat, rest: string)
    requires Delimited(rest)
    ensures
      var t := Digits(m) + rest;
      t != "" && IsDigit(t[0]) && ReadDigits(t, 0) == (m, rest)
  {
    DigitsAreDigits(m);
    ReadDigitsOfDigits(m, rest);
    DropPrefix(Digits(m), rest);
  }

  lemma ParsePrintInt(n: int, rest: string)
    requires Delimited(rest)
    ensures ParseValue(Decimal(n) + rest) == Done(Int(n), rest)
  {
    if n < 0 {
      ParseDigits(-n, rest);
      assert Decimal(n) + rest == ['-'] + (Digits(-n) + rest);
      DropOne('-', Digits(-n) + rest);
      ParseMinus(['-'] + (Digits(-n) + rest), -n, rest);
    } else {
      ParseDigits(n, rest);
    }
  }

  lemma ParseMinus(t: string, m: nat, rest: string)
    requires |t| >= 2 && t[0] == '-' && IsDigit(t[1..][0]) && ReadDigits(t[1..], 0) == (m, rest)
    ensures ParseValue(t) == Done(Int(0 - m), rest)
  {
    assert t[1] == t[1..][0];
  }

  /** A quoted string, split for the parser. */
  lemma QuoteSplits(s: string, ascii: bool, rest: string)
    ensures
      var t := Quote(s, ascii) + rest;
      t != "" && t[0] == '"' && t[1..] == Escape(s, ascii) + ("\"" + rest)
  {
    var body := Escape(s, ascii);
    assert Quote(s, ascii) + rest == ['"'] + (body + ("\"" + rest));
    DropOne('"', body + ("\"" + rest));
  }

  lemma ParsePrintString(s: string, ascii: bool, rest: string)
    ensures ParseValue(Quote(s, ascii) + rest) == Done(Str(s), rest)
  {
    QuoteSplits(s, ascii, rest);
    ParseCharsOfEscape(s, ascii, rest);
  }

  /** No printed value starts with a character that would close a list. */
  lemma PrintStart(v: Value, ascii: bool)
    requires Validated(v)
    ensures Print(v, ascii) != "" && Print(v, ascii)[0] != ']'
  {
    if v.Int? { DigitsAreDigits(if v.n < 0 then -v.n else v.n); }
  }

  lemma ParseWords(rest: string)
    ensures ParseValue("null" + rest) == Done(Null, rest)
    ensures ParseValue("true" + rest) == Done(Bool(true), rest)
    ensures ParseValue("false" + rest) == Done(Bool(false), rest)
  {
    DropPrefix("null", rest);
    DropPrefix("true", rest);
    DropPrefix("false", rest);
    assert "null" <= "null" + rest && "true" <= "true" + rest && "false" <= "false" + rest;
  }

  lemma {:induction false} ParsePrint(v: Value, ascii: bool, rest: string)
    requires Validated(v) && Delimited(rest)
    ensures ParseValue(Print(v, ascii) + rest) == Done(v, rest)
    decreases v, 2
  {
    match v
    case Null => ParseWords(rest);
    case Bool(b) => ParseWords(rest);
    case Int(n) => ParsePrintInt(n, rest);
    case Str(s) => ParsePrintString(s, ascii, rest);
    case List(items) => ParsePrintList(v, ascii, rest);
    case Dict(es) => ParsePrintDict(v, ascii, rest);
  }

  lemma Braced(open: char, body: string, close: char, rest: string)
    ensures
      var t := [open] + body + [close] + rest;
      t[0] == open && t[1..] == body + ([close] + rest)
  {
    assert [open] + body + [close] + rest == [open] + (body + ([close] + rest));
    DropOne(open, body + ([close] + rest));
  }

  lemma ParseEmptyList(rest: string)
    ensures ParseValue("[" + "" + "]" + rest) == Done(List([]), rest)
    ensures ParseValue("{" + "" + "}" + rest) == Done(Dict([]), rest)
  {
    assert "[" + "" + "]" + rest == "[]" + rest && "{" + "" + "}" + rest == "{}" + rest;
    DropPrefix("[]", rest);
    DropPrefix("{}", rest);
  }

  lemma ParseListParts(t: string, items: seq<Value>, rest: string)
    requires |t| >= 2 && t[0] == '[' && t[1] != ']' && ParseItems(t[1..]) == Done(items, rest)
    ensures ParseValue(t) == Done(List(items), rest)
  {
  }

  lemma ParseDictParts(t: string, es: seq<Entry>, rest: string)
    requires |t| >= 2 && t[0] == '{' && t[1] != '}' && ParseEntries(t[1..]) == Done(es, rest)
    ensures ParseValue(t) == Done(Dict(es), rest)
  {
  }

  lemma ParseItemsParts(t: string, v: Value, rest: string)
    requires ParseValue(t) == Done(v, rest) && rest != ""
    ensures rest[0] == ']' ==> ParseItems(t) == Done([v], rest[1..])
    ensures rest[0] == ',' && ParseItems(rest[1..]).Done? ==>
      ParseItems(t) == Done([v] + ParseItems(rest[1..]).value, ParseItems(rest[1..]).rest)
  {
  }

  lemma ParseEntryParts(t: string, key: string, rest: string, v: Value, rest': string)
    requires t != "" && t[0] == '"' && ParseChars(t[1..]) == Done(key, rest)
    requires rest != "" && rest[0] == ':' && ParseValue(rest[1..]) == Done(v, rest')
    ensures ParseEntry(t) == Done(Entry(Str(key), v), rest')
  {
  }

  lemma ParseEntriesParts(t: string, e: Entry, rest: string)
    requires ParseEntry(t) == Done(e, rest) && rest != ""
    ensures rest[0] == '}' ==> ParseEntries(t) == Done([e], rest[1..])
    ensures rest[0] == ',' && ParseEntries(rest[1..]).Done? ==>
      ParseEntries(t) == Done([e] + ParseEntries(rest[1..]).value, ParseEntries(rest[1..]).rest)
  {
  }

  lemma {:induction false} ParsePrintList(v: Value, ascii: bool, rest: string)
    requires v.List? && Validated(v)
    ensures ParseValue(Print(v, ascii) + rest) == Done(v, rest)
    decreases v, 1
  {
    if v.items == [] {
      ParseEmptyList(rest);
    } else {
      var body := PrintItems(v.items, ascii);
      PrintStart(v.items[0], ascii);
      assert body[0] == Print(v.items[0], ascii)[0];
      Braced('[', body, ']', rest);
      ParsePrintItems(v.items, ascii, rest);
      ParseListParts(Print(v, ascii) + rest, v.items, rest);
    }
  }

  lemma {:induction false} ParsePrintDict(v: Value, ascii: bool, rest: string)
    requires v.Dict? && Validated(v)
    ensures ParseValue(Print(v, ascii) + rest) == Done(v, rest)
    decreases v, 1
  {
    if v.entries == [] {
      ParseEmptyList(rest);
    } else {
      var body := PrintEntries(v.entries, ascii);
      PrintEntriesStart(v.entries, ascii);
      Braced('{', body, '}', rest);
      ParsePrintEntries(v.entries, ascii, rest);
      ParseDictParts(Print(v, ascii) + rest, v.entries, rest);
    }
  }

  lemma PrintEntriesStart(es: seq<Entry>, ascii: bool)
    requires es != [] && forall i :: 0 <= i < |es| ==> es[i].key.Str? && Validated(es[i].value)
    ensures PrintEntries(es, ascii) != "" && PrintEntries(es, ascii)[0] == '"'
  {
    assert PrintEntry(es[0], ascii)[0] == '"';
  }

  lemma ParseMoreItems(p: string, v: Value, tail: string, more: seq<Value>, rest: string)
    requires ParseValue(p + ("," + tail)) == Done(v, "," + tail) && ParseItems(tail) == Done(more, rest)
    ensures ParseItems(p + ("," + tail)) == Done([v] + more, rest)
  {
    DropOne(',', tail);
    ParseItemsParts(p + ("," + tail), v, "," + tail);
  }

  lemma {:induction false} ParsePrintItems(items: seq<Value>, ascii: bool, rest: string)
    requires items != [] && forall i :: 0 <= i < |items| ==> Validated(items[i])
    ensures ParseItems(PrintItems(items, ascii) + ("]" + rest)) == Done(items, rest)
    decreases items, 0
  {
    var p := Print(items[0], ascii);
    if |items| == 1 {
      DropOne(']', rest);
      ParsePrint(items[0], ascii, "]" + rest);
      ParseItemsParts(p + ("]" + rest), items[0], "]" + rest);
      assert [items[0]] == items;
    } else {
      var tail := PrintItems(items[1..], ascii) + ("]" + rest);
      Reassociate4(p, ",", PrintItems(items[1..], ascii), "]" + rest);
      ParsePrint(items[0], ascii, "," + tail);
      ParsePrintItems(items[1..], ascii, rest);
      ParseMoreItems(p, items[0], tail, items[1..], rest);
      assert items == [items[0]] + items[1..];
    }
  }

  lemma {:induction false} ParsePrintEntry(e: Entry, ascii: bool, rest: string)
    requires e.key.Str? && Validated(e.value) && Delimited(rest)
    ensures ParseEntry(PrintEntry(e, ascii) + rest) == Done(e, rest)
    decreases e, 3
  {
    var k, tail := e.key.s, Print(e.value, ascii) + rest;
    assert PrintEntry(e, ascii) + rest == Quote(k, ascii) + (":" + tail);
    QuoteSplits(k, ascii, ":" + tail);
    ParseCharsOfEscape(k, ascii, ":" + tail);
    DropOne(':', tail);
    ParsePrint(e.value, ascii, rest);
    ParseEntryParts(Quote(k, ascii) + (":" + tail), k, ":" + tail, e.value, rest);
  }

  lemma ParseLastEntry(p: string, e: Entry, rest: string)
    requires ParseEntry(p + ("}" + rest)) == Done(e, "}" + rest)
    ensures ParseEntries(p + ("}" + rest)) == Done([e], rest)
  {
    DropOne('}', rest);
    ParseEntriesParts(p + ("}" + rest), e, "}" + rest);
  }

  lemma ParseMoreEntries(p: string, e: Entry, tail: string, more: seq<Entry>, rest: string)
    requires ParseEntry(p + ("," + tail)) == Done(e, "," + tail) && ParseEntries(tail) == Done(more, rest)
    ensures ParseEntries(p + ("," + tail)) == Done([e] + more, rest)
  {
    DropOne(',', tail);
    ParseEntriesParts(p + ("," + tail), e, "," + tail);
  }

  lemma {:induction false} ParsePrintEntries(es: seq<Entry>, ascii: bool, rest: string)
    requires es != [] && forall i :: 0 <= i < |es| ==> es[i].key.Str? && Validated(es[i].value)
    ensures ParseEntries(PrintEntries(es, ascii) + ("}" + rest)) == Done(es, rest)
    decreases es, 0
  {
    var p := PrintEntry(es[0], ascii);
    if |es| == 1 {
      ParsePrintEntry(es[0], ascii, "}" + rest);
      ParseLastEntry(p, es[0], rest);
      assert [es[0]] == es;
    } else {
      var tail := PrintEntries(es[1..], ascii) + ("}" + rest);
      Reassociate4(p, ",", PrintEntries(es[1..], ascii), "}" + rest);
      ParsePrintEntry(es[0], ascii, "," + tail);
      ParsePrintEntries(es[1..], ascii, rest);
      ParseMoreEntries(p, es[0], tail, es[1..], rest);
      assert es == [es[0]] + es[1..];
    }
  }

  /** `json.loads` on a whole text. */
  function Loads(t: string): Option<Value> {
    match ParseValue(t)
    case Stuck => None
    case Done(v, rest) => if rest == "" then Some(v) else None
  }

  // ---- json.dumps(v, sort_keys=True, separators=(",", ":")) ----

  function Dumps(v: Value, ascii: bool): string
    requires Validated(v)
  {
    SortKeysValidated(v);
    Print(SortKeys(v), ascii)
  }

  lemma {:induction false} SortKeysValidated(v: Value)
    requires Validated(v)
    ensures Validated(SortKeys(v))
  {
    match v
    case List(items) =>
      forall i | 0 <= i < |items| ensures Validated(SortKeys(items[i])) { SortKeysValidated(items[i]); }
    case Dict(es) =>
      forall i | 0 <= i < |es| ensures Validated(SortKeys(es[i].value)) { SortKeysValidated(es[i].value); }
      var sorted := Sort(KeyLe, SortValues(es));
      SortMembers(KeyLe, SortValues(es));
      forall i | 0 <= i < |sorted| ensures sorted[i].key.Str? && Validated(sorted[i].value) {
        assert sorted[i] in sorted;
      }
    case _ =>
  }

  /** Reading back what was written gives the value with its keys sorted. */
  lemma LoadsDumps(v: Value, ascii: bool)
    requires Validated(v)
    ensures Loads(Dumps(v, ascii)) == Some(SortKeys(v))
  {
    SortKeysValidated(v);
    ParsePrint(SortKeys(v), ascii, "");
    assert Dumps(v, ascii) + "" == Dumps(v, ascii);
  }

  // ---- Two values print alike exactly when they are the same value ----

  lemma KeyOrder()
    ensures TotalPreorder(KeyLe)
  {
    LexOrder();
  }

  /** Entries with different string keys never tie. */
  lemma DistinctKeysNoTies(es: seq<Entry>)
    requires DistinctKeys(es) && forall i :: 0 <= i < |es| ==> es[i].key.Str?
    ensures NoTies(KeyLe, es) && NoDuplicates(es)
  {
    LexOrder();
    forall x, y | x in es && y in es && KeyLe(x, y) && KeyLe(y, x) ensures x == y {
      assert x.key == y.key;
    }
  }

  lemma {:induction false} SortKeysOfSame(a: Value, b: Value)
    requires Validated(a) && Validated(b) && IsPython(a) && IsPython(b)
    requires Same(a, b)
    ensures SortKeys(a) == SortKeys(b)
    decreases a
  {
    match a
    case List(xs) =>
      forall i | 0 <= i < |xs| ensures SortKeys(xs[i]) == SortKeys(b.items[i]) {
        SortKeysOfSame(xs[i], b.items[i]);
      }
    case Dict(xs) =>
      var ys := b.entries;
      var xs', ys' := SortValues(xs), SortValues(ys);
      forall x | x in xs' ensures x in ys' {
        var i :| 0 <= i < |xs| && x == SortEntry(xs[i]);
        assert Maps(ys, xs[i].key, xs[i].value);
        var j :| 0 <= j < |ys| && ys[j].key == xs[i].key && Same(xs[i].value, ys[j].value);
        SortKeysOfSame(xs[i].value, ys[j].value);
        assert x == ys'[j];
      }
      DistinctKeysNoTies(xs');
      IncludedIsPermutation(xs', ys');
      KeyOrder();
      SortIgnoresOrder(KeyLe, xs', ys');
    case _ =>
  }

  lemma {:induction false} SameOfSortKeys(a: Value, b: Value)
    requires SortKeys(a) == SortKeys(b)
    ensures Same(a, b)
    decreases a
  {
    match a
    case List(xs) =>
      assert |SortKeys(a).items| == |xs| && |SortKeys(b).items| == |b.items|;
      forall i | 0 <= i < |xs| ensures Same(xs[i], b.items[i]) {
        assert SortKeys(a).items[i] == SortKeys(xs[i]) && SortKeys(b).items[i] == SortKeys(b.items[i]);
        SameOfSortKeys(xs[i], b.items[i]);
      }
    case Dict(xs) =>
      var ys := b.entries;
      var xs', ys' := SortValues(xs), SortValues(ys);
      SortPermutes(KeyLe, xs');
      SortPermutes(KeyLe, ys');
      SameMembers(xs', ys');
      forall i | 0 <= i < |xs| ensures Maps(ys, xs[i].key, xs[i].value) {
        assert xs'[i] in ys';
        var j :| 0 <= j < |ys| && SortEntry(xs[i]) == SortEntry(ys[j]);
        SameOfSortKeys(xs[i].value, ys[j].value);
      }
    case _ =>
  }

  /**
    Canonical text is injective and ignores insertion order: two accepted
    values have the same text if and only if they are the same value up to the
    order in which dictionary keys were inserted, at any depth.
   */
  lemma DumpsEqualIffSame(a: Value, b: Value, ascii: bool)
    requires Validated(a) && Validated(b) && IsPython(a) && IsPython(b)
    ensures Dumps(a, ascii) == Dumps(b, ascii) <==> Same(a, b)
  {
    if Dumps(a, ascii) == Dumps(b, ascii) {
      LoadsDumps(a, ascii);
      LoadsDumps(b, ascii);
      SameOfSortKeys(a, b);
    }
    if Same(a, b) {
      SortKeysOfSame(a, b);
    }
  }

  /** What `json.loads` reads back is the stored value up to key order. */
  lemma StoredValueReadsBack(v: Value, ascii: bool)
    requires Validated(v) && IsPython(v)
    ensures Loads(Dumps(v, ascii)).Some? && Same(v, Loads(Dumps(v, ascii)).value)
  {
    LoadsDumps(v, ascii);
    SortKeysIdempotent(v);
    SameOfSortKeys(v, SortKeys(v));
  }

  lemma {:induction false} SortKeysIdempotent(v: Value)
    requires Validated(v)
    ensures SortKeys(SortKeys(v)) == SortKeys(v)
  {
    match v
    case List(items) =>
      forall i | 0 <= i < |items| ensures SortKeys(SortKeys(items[i])) == SortKeys(items[i]) {
        SortKeysIdempotent(items[i]);
      }
    case Dict(es) =>
      var es' := SortValues(es);
      var sorted := Sort(KeyLe, es');
      SortMembers(KeyLe, es');
      forall i | 0 <= i < |sorted| ensures SortEntry(sorted[i]) == sorted[i] {
        assert sorted[i] in es';
        var j :| 0 <= j < |es| && sorted[i] == SortEntry(es[j]);
        SortKeysIdempotent(es[j].value);
      }
      assert SortValues(sorted) == sorted;
      KeyOrder();
      SortSorts(KeyLe, es');
      SortFixesSorted(KeyLe, sorted);
    case _ =>
  }
}
