/** The Python values the JSON views of this system hold, and Python's `str`
    of a dict of them (what `ClipUser.__str__` returns). A parser of that
    rendering is its partner: every rendering parses back to the dict. */
module PyRepr {
  import opened Wrappers
  import opened Decimal

  datatype PyValue = PyInt(i: int) | PyStr(s: string)

  /** A Python dict as its entries in insertion order; `str` of a dict follows that order. */
  type PyDict = seq<(string, PyValue)>

  function Keys(d: PyDict): seq<string> {
    seq(|d|, i requires 0 <= i < |d| => d[i].0)
  }

  /** `d[k]`, or `None` when `k` is not a key of `d`. */
  function Lookup(d: PyDict, k: string): Option<PyValue> {
    if d == [] then None else if d[0].0 == k then Some(d[0].1) else Lookup(d[1..], k)
  }

  /** `d[k]` is the value of the first entry with key `k`. */
  lemma {:induction false} LookupFirst(d: PyDict, i: nat)
    requires i < |d|
    requires forall j :: 0 <= j < i ==> d[j].0 != d[i].0
    ensures Lookup(d, d[i].0) == Some(d[i].1)
  {
    if i > 0 {
      assert d[1..][i - 1] == d[i];
      LookupFirst(d[1..], i - 1);
    }
  }

  // ---------------------------------------------------------------------------
  // repr of a str

  /** Python quotes with `'` unless the string holds a `'` and no `"`. */
  function QuoteFor(s: string): (q: char)
    ensures q == '\'' || q == '"'
    ensures q == '"' <==> '\'' in s && '"' !in s
  {
    if '\'' in s && '"' !in s then '"' else '\''
  }

  /** ASCII control characters, which repr writes as `\xhh`. */
  predicate IsControl(c: char) {
    c as int < 0x20 || c as int == 0x7f
  }

  function HexDigit(n: nat): char
    requires n < 16
  {
    if n < 10 then ('0' as int + n) as char else ('a' as int + n - 10) as char
  }

  predicate IsHexDigit(c: char) {
    ('0' <= c <= '9') || ('a' <= c <= 'f')
  }

  function HexValue(c: char): (n: nat)
    requires IsHexDigit(c)
    ensures n < 16
  {
    if c <= '9' then c as int - '0' as int else c as int - 'a' as int + 10
  }

  /** How repr writes one character inside quotes `q`. */
  function EscapeChar(c: char, q: char): string {
    if c == '\\' then "\\\\"
    else if c == q then ['\\', q]
    else if c == '\t' then "\\t"
    else if c == '\n' then "\\n"
    else if c == '\r' then "\\r"
    else if IsControl(c) then ['\\', 'x', HexDigit(c as int / 16), HexDigit(c as int % 16)]
    else [c]
  }

  function Escape(s: string, q: char): string {
    if s == [] then [] else EscapeChar(s[0], q) + Escape(s[1..], q)
  }

  /** `repr(s)` for a Python `str`. */
  function ReprStr(s: string): (r: string)
    ensures |r| >= 2 && r[0] == QuoteFor(s)
  {
    var q := QuoteFor(s);
    [q] + Escape(s, q) + [q]
  }

  /** `repr` of a dict value. */
  function ReprValue(v: PyValue): string {
    match v
    case PyInt(i) => DecimalString(i)
    case PyStr(s) => ReprStr(s)
  }

  function ReprEntry(e: (string, PyValue)): string {
    ReprStr(e.0) + ": " + ReprValue(e.1)
  }

  function ReprEntries(d: PyDict): string {
    if d == [] then ""
    else if |d| == 1 then ReprEntry(d[0])
    else ReprEntry(d[0]) + ", " + ReprEntries(d[1..])
  }

  /** `str(d)` for a Python dict of `str` keys. */
  function ReprDict(d: PyDict): string {
    "{" + ReprEntries(d) + "}"
  }

  // ---------------------------------------------------------------------------
  // Reading a rendering back

  /** The character an escape sequence stands for, read after its backslash,
      with the number of characters it takes. */
  function Unescape(t: string): (r: Option<(char, nat)>)
    ensures r.Some? ==> 1 <= r.value.1 <= |t|
  {
    if t == [] then None
    else if t[0] == '\\' || t[0] == '\'' || t[0] == '"' then Some((t[0], 1))
    else if t[0] == 't' then Some(('\t', 1))
    else if t[0] == 'n' then Some(('\n', 1))
    else if t[0] == 'r' then Some(('\r', 1))
    else if t[0] == 'x' && |t| >= 3 && IsHexDigit(t[1]) && IsHexDigit(t[2]) then
      Some(((HexValue(t[1]) * 16 + HexValue(t[2])) as char, 3))
    else None
  }

  /** Puts `c` in front of the string a parse produced. */
  function PrependChar(c: char, r: Option<(string, string)>): (r': Option<(string, string)>)
    ensures r'.Some? <==> r.Some?
    ensures r'.Some? ==> r'.value == ([c] + r.value.0, r.value.1)
  {
    match r
    case None => None
    case Some((s, rest)) => Some(([c] + s, rest))
  }

  /** Reads the body of a string literal opened by quote `q` up to its closing
      quote; returns the string and the text after the closing quote. */
  function ParseStrBody(t: string, q: char): (r: Option<(string, string)>)
    ensures r.Some? ==> |r.value.1| < |t|
    decreases |t|
  {
    if t == [] then None
    else if t[0] == q then Some(([], t[1..]))
    else if t[0] == '\\' then
      match Unescape(t[1..])
      case None => None
      case Some((c, k)) => PrependChar(c, ParseStrBody(t[1 + k..], q))
    else PrependChar(t[0], ParseStrBody(t[1..], q))
  }

  /** Reads a quoted string literal from the front of `t`. */
  function ParseStr(t: string): (r: Option<(string, string)>)
    ensures r.Some? ==> |r.value.1| < |t|
  {
    if t != [] && (t[0] == '\'' || t[0] == '"') then ParseStrBody(t[1..], t[0]) else None
  }

  function ParseValue(t: string): (r: Option<(PyValue, string)>)
    ensures r.Some? ==> |r.value.1| < |t|
  {
    if t != [] && (t[0] == '\'' || t[0] == '"') then
      match ParseStr(t)
      case None => None
      case Some((s, rest)) => Some((PyStr(s), rest))
    else
      match ParseIntPrefix(t)
      case None => None
      case Some((i, rest)) => Some((PyInt(i), rest))
  }

  /** Reads one `key: value` entry. */
  function ParseEntry(t: string): (r: Option<((string, PyValue), string)>)
    ensures r.Some? ==> |r.value.1| < |t|
  {
    match ParseStr(t)
    case None => None
    case Some((k, t1)) =>
      if |t1| < 2 || t1[0] != ':' || t1[1] != ' ' then None
      else
        match ParseValue(t1[2..])
        case None => None
        case Some((v, t2)) => Some(((k, v), t2))
  }

  /** Reads one or more entries separated by `, `. */
  function ParseEntries(t: string): (r: Option<(PyDict, string)>)
    ensures r.Some? ==> |r.value.1| < |t|
    decreases |t|
  {
    match ParseEntry(t)
    case None => None
    case Some((e, t1)) =>
      if |t1| >= 2 && t1[0] == ',' && t1[1] == ' ' then
        match ParseEntries(t1[2..])
        case None => None
        case Some((d, t2)) => Some(([e] + d, t2))
      else Some(([e], t1))
  }

  /** Reads a whole rendered dict; `None` unless all of `t` is one. */
  function ParseDict(t: string): Option<PyDict> {
    if |t| == 2 && t[0] == '{' && t[1] == '}' then Some([])
    else if |t| < 2 || t[0] != '{' then None
    else
      match ParseEntries(t[1..])
      case Some((d, rest)) => if |rest| == 1 && rest[0] == '}' then Some(d) else None
      case None => None
  }

  // ---------------------------------------------------------------------------
  // Round trips

  /** What `EscapeChar` writes either starts with a backslash and reads back
      through `Unescape`, or is the character itself. */
  lemma UnescapeEscaped(c: char, q: char, rest: string)
    requires q == '\'' || q == '"'
    ensures |EscapeChar(c, q)| >= 1
    ensures EscapeChar(c, q)[0] == '\\' ==>
      Unescape(EscapeChar(c, q)[1..] + rest) == Some((c, |EscapeChar(c, q)| - 1))
    ensures EscapeChar(c, q)[0] != '\\' ==> EscapeChar(c, q) == [c] && c != q && c != '\\'
  {
    var e := EscapeChar(c, q);
    if IsControl(c) && c != '\t' && c != '\n' && c != '\r' && c != q && c != '\\' {
      var hi, lo := c as int / 16, c as int % 16;
      assert hi < 8;
      assert (e[1..] + rest)[1] == HexDigit(hi) && (e[1..] + rest)[2] == HexDigit(lo);
      assert HexValue(HexDigit(hi)) == hi;
      assert HexValue(HexDigit(lo)) == lo;
    }
  }

  lemma ParseStrBodyPlain(c: char, tail: string, q: char)
    requires c != q && c != '\\'
    ensures ParseStrBody([c] + tail, q) == PrependChar(c, ParseStrBody(tail, q))
  {
    assert ([c] + tail)[1..] == tail;
  }

  lemma ParseStrBodyEscape(e: string, tail: string, q: char, c: char)
    requires |e| >= 1 && e[0] == '\\' && q != '\\'
    requires Unescape(e[1..] + tail) == Some((c, |e| - 1))
    ensures ParseStrBody(e + tail, q) == PrependChar(c, ParseStrBody(tail, q))
  {
    var t := e + tail;
    assert t[1..] == e[1..] + tail;
    assert t[1 + (|e| - 1)..] == tail;
  }

  /** The closing quote is the first unescaped `q` in an escaped body: reading
      the body back gives the string and exactly the text after the quote. */
  lemma {:induction false} ParseStrBodyEscaped(s: string, q: char, rest: string)
    requires q == '\'' || q == '"'
    ensures ParseStrBody(Escape(s, q) + [q] + rest, q) == Some((s, rest))
    decreases |s|
  {
    if s == [] {
      assert Escape(s, q) + [q] + rest == [q] + rest;
      assert ([q] + rest)[1..] == rest;
    } else {
      var c, e := s[0], EscapeChar(s[0], q);
      var tail := Escape(s[1..], q) + [q] + rest;
      assert Escape(s, q) + [q] + rest == e + tail;
      ParseStrBodyEscaped(s[1..], q, rest);
      UnescapeEscaped(c, q, tail);
      if e[0] == '\\' {
        ParseStrBodyEscape(e, tail, q, c);
      } else {
        ParseStrBodyPlain(c, tail, q);
      }
      assert [c] + s[1..] == s;
    }
  }

  lemma ParseReprStr(s: string, rest: string)
    ensures ParseStr(ReprStr(s) + rest) == Some((s, rest))
  {
    var q := QuoteFor(s);
    var t := ReprStr(s) + rest;
    assert t[1..] == Escape(s, q) + [q] + rest;
    ParseStrBodyEscaped(s, q, rest);
  }

  lemma ParseReprValue(v: PyValue, rest: string)
    requires rest == [] || !IsDigit(rest[0])
    ensures ParseValue(ReprValue(v) + rest) == Some((v, rest))
  {
    match v
    case PyStr(s) =>
      ParseReprStr(s, rest);
    case PyInt(i) =>
      DecimalRoundTrip(i, rest);
      var t := DecimalString(i) + rest;
      assert t[0] == DecimalString(i)[0];
      assert IsDigit(t[0]) || t[0] == '-' by {
        if i < 0 { } else { assert AllDigits(Digits(i)); }
      }
  }

  lemma ParseEntryStep(t: string, k: string, u: string, v: PyValue, rest: string)
    requires ParseStr(t) == Some((k, ": " + u))
    requires ParseValue(u) == Some((v, rest))
    ensures ParseEntry(t) == Some(((k, v), rest))
  {
    var t1 := ": " + u;
    assert t1[0] == ':' && t1[1] == ' ' && t1[2..] == u;
  }

  lemma ParseReprEntry(e: (string, PyValue), rest: string)
    requires rest == [] || !IsDigit(rest[0])
    ensures ParseEntry(ReprEntry(e) + rest) == Some((e, rest))
  {
    var u := ReprValue(e.1) + rest;
    assert ReprEntry(e) + rest == ReprStr(e.0) + (": " + u);
    ParseReprStr(e.0, ": " + u);
    ParseReprValue(e.1, rest);
    ParseEntryStep(ReprEntry(e) + rest, e.0, u, e.1, rest);
  }

  lemma ParseEntriesMore(t: string, e: (string, PyValue), u: string, d: PyDict, rest: string)
    requires ParseEntry(t) == Some((e, ", " + u))
    requires ParseEntries(u) == Some((d, rest))
    ensures ParseEntries(t) == Some(([e] + d, rest))
  {
    var t1 := ", " + u;
    assert t1[0] == ',' && t1[1] == ' ' && t1[2..] == u;
  }

  lemma ParseEntriesLast(t: string, e: (string, PyValue), rest: string)
    requires ParseEntry(t) == Some((e, rest))
    requires rest == [] || rest[0] != ','
    ensures ParseEntries(t) == Some(([e], rest))
  {
  }

  lemma ParseReprEntriesOne(d: PyDict, rest: string)
    requires |d| == 1
    requires rest == [] || (!IsDigit(rest[0]) && rest[0] != ',')
    ensures ParseEntries(ReprEntries(d) + rest) == Some((d, rest))
  {
    var t := ReprEntries(d) + rest;
    assert t == ReprEntry(d[0]) + rest;
    ParseReprEntry(d[0], rest);
    ParseEntriesLast(t, d[0], rest);
    assert [d[0]] == d;
  }

  /** An entry rendered in front of `, ` and more entries is read first. */
  lemma ParseReprEntryThen(e: (string, PyValue), u: string, d: PyDict, rest: string)
    requires ParseEntries(u) == Some((d, rest))
    ensures ParseEntries(ReprEntry(e) + (", " + u)) == Some(([e] + d, rest))
  {
    ParseReprEntry(e, ", " + u);
    ParseEntriesMore(ReprEntry(e) + (", " + u), e, u, d, rest);
  }

  lemma HeadTail(d: PyDict)
    requires d != []
    ensures [d[0]] + d[1..] == d
  {
  }

  lemma ParseReprEntriesCons(d: PyDict, rest: string)
    requires |d| >= 2
    requires rest == [] || !IsDigit(rest[0])
    requires ParseEntries(ReprEntries(d[1..]) + rest) == Some((d[1..], rest))
    ensures ParseEntries(ReprEntries(d) + rest) == Some((d, rest))
  {
    ReprEntriesCons(d, rest);
    ParseReprEntryThen(d[0], ReprEntries(d[1..]) + rest, d[1..], rest);
    HeadTail(d);
  }

  lemma ReprEntriesCons(d: PyDict, rest: string)
    requires |d| >= 2
    ensures ReprEntries(d) + rest == ReprEntry(d[0]) + (", " + (ReprEntries(d[1..]) + rest))
  {
    var a, b := ReprEntry(d[0]), ReprEntries(d[1..]);
    assert ReprEntries(d) == a + ", " + b;
    ConcatAssoc(a, ", ", b, rest);
  }

  lemma ConcatAssoc(a: string, sep: string, b: string, rest: string)
    ensures a + sep + b + rest == a + (sep + (b + rest))
  {
  }

  lemma {:induction false} ParseReprEntries(d: PyDict, rest: string)
    requires d != []
    requires rest == [] || (!IsDigit(rest[0]) && rest[0] != ',')
    ensures ParseEntries(ReprEntries(d) + rest) == Some((d, rest))
    decreases |d|
  {
    if |d| == 1 {
      ParseReprEntriesOne(d, rest);
    } else {
      ParseReprEntries(d[1..], rest);
      ParseReprEntriesCons(d, rest);
    }
  }

  /** `str` of a dict loses nothing: the dict can be read back from it. */
  lemma ParseReprDict(d: PyDict)
    ensures ParseDict(ReprDict(d)) == Some(d)
  {
    if d != [] {
      var t := ReprDict(d);
      var body := ReprEntries(d) + ['}'];
      assert t == ['{'] + body;
      assert t[1..] == body;
      ParseReprEntries(d, ['}']);
      assert |ReprEntry(d[0])| >= 2;
      assert |t| > 2;
    }
  }

  /** Two dicts with the same rendering are the same dict. */
  lemma ReprDictInjective(d1: PyDict, d2: PyDict)
    requires ReprDict(d1) == ReprDict(d2)
    ensures d1 == d2
  {
    ParseReprDict(d1);
    ParseReprDict(d2);
  }
}
