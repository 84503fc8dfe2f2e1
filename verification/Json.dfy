/** JSON text as it is written one object to a line, and why no part of such a line is JSON. */
module Json {
  /** A float is kept as the text it is written as. */
  datatype Json =
    | Null
    | Bool(b: bool)
    | Int(n: int)
    | Float(text: string)
    | Str(s: string)
    | Arr(items: List)
    | Obj(fields: Fields)

  datatype List = Nil | Cons(head: Json, tail: List)
  datatype Fields = End | Field(key: string, value: Json, rest: Fields)

  // ---------- printing ----------

  function Digit(d: nat): (c: char)
    requires d < 16
    ensures '0' <= c <= '9' || 'a' <= c <= 'f'
  {
    if d < 10 then ('0' as int + d) as char else ('a' as int + d - 10) as char
  }

  function Decimal(n: nat): string {
    if n < 10 then [Digit(n)] else Decimal(n / 10) + [Digit(n % 10)]
  }

  function IntText(n: int): string { if n < 0 then "-" + Decimal(-n) else Decimal(n) }

  function Hex4(n: nat): string
    requires n < 0x10000
  {
    [Digit(n / 4096), Digit(n / 256 % 16), Digit(n / 16 % 16), Digit(n % 16)]
  }

  /** Printable ASCII stands for itself; the rest is escaped, large code points as a surrogate pair. */
  function Escape(c: char): string {
    var n := c as int;
    if c == '"' then "\\\""
    else if c == '\\' then "\\\\"
    else if c == '\n' then "\\n"
    else if c == '\r' then "\\r"
    else if c == '\t' then "\\t"
    else if n == 8 then "\\b"
    else if n == 12 then "\\f"
    else if 32 <= n <= 126 then [c]
    else if n < 0x10000 then "\\u" + Hex4(n)
    else "\\u" + Hex4(0xD800 + (n - 0x10000) / 1024 % 1024) + "\\u" + Hex4(0xDC00 + n % 1024)
  }

  function Escaped(s: string): string { if s == "" then "" else Escape(s[0]) + Escaped(s[1..]) }

  function Quote(s: string): string { "\"" + Escaped(s) + "\"" }

  function Dump(j: Json): string {
    match j
    case Null => "null"
    case Bool(b) => if b then "true" else "false"
    case Int(n) => IntText(n)
    case Float(text) => text
    case Str(s) => Quote(s)
    case Arr(items) => "[" + DumpList(items) + "]"
    case Obj(fields) => "{" + DumpFields(fields) + "}"
  }

  function DumpList(l: List): string {
    match l
    case Nil => ""
    case Cons(head, tail) => Dump(head) + (if tail.Nil? then "" else ", " + DumpList(tail))
  }

  function DumpFields(f: Fields): string {
    match f
    case End => ""
    case Field(key, value, rest) =>
      Quote(key) + ": " + Dump(value) + (if rest.End? then "" else ", " + DumpFields(rest))
  }

  // ---------- reading along ----------

  /** How deep in brackets and braces, and whether inside a string or behind a backslash. */
  datatype Mode = Mode(depth: int, quoted: bool, escaping: bool)

  function Next(m: Mode, c: char): Mode {
    if m.escaping then m.(escaping := false)
    else if m.quoted then
      if c == '"' then m.(quoted := false) else if c == '\\' then m.(escaping := true) else m
    else if c == '"' then m.(quoted := true)
    else if c == '{' || c == '[' then m.(depth := m.depth + 1)
    else if c == '}' || c == ']' then m.(depth := m.depth - 1)
    else m
  }

  function Scan(s: string, m: Mode): Mode { if s == "" then m else Scan(s[1..], Next(m, s[0])) }

  const OUTSIDE := Mode(0, false, false)

  /** Every group and string that was opened has been closed: true of any JSON text. */
  predicate Closed(s: string) { Scan(s, OUTSIDE) == OUTSIDE }

  /** Printable ASCII, so one byte a character and no line break. */
  predicate Plain(s: string) { forall c | c in s :: 32 <= c as int <= 126 }

  /** Characters that leave the mode alone outside a string. */
  predicate Inert(s: string) { forall c | c in s :: c != '"' && c != '{' && c != '}' && c != '[' && c != ']' }

  /** Floats are written with digits, signs, points and letters only. */
  predicate Printable(j: Json) {
    match j
    case Float(text) => Plain(text) && Inert(text)
    case Arr(items) => PrintableList(items)
    case Obj(fields) => PrintableFields(fields)
    case _ => true
  }

  predicate PrintableList(l: List) { l.Cons? ==> Printable(l.head) && PrintableList(l.tail) }

  predicate PrintableFields(f: Fields) { f.Field? ==> Printable(f.value) && PrintableFields(f.rest) }

  /** Read from mode m, the text never comes up above depth floor, and ends in mode end. */
  predicate Keeps(s: string, m: Mode, floor: int, end: Mode) {
    m.depth >= floor && if s == "" then m == end else Keeps(s[1..], Next(m, s[0]), floor, end)
  }

  lemma {:induction false} KeepsAppend(a: string, b: string, m: Mode, floor: int, mid: Mode, end: Mode)
    requires Keeps(a, m, floor, mid) && Keeps(b, mid, floor, end)
    ensures Keeps(a + b, m, floor, end)
  {
    if a == "" {
      assert a + b == b;
    } else {
      assert (a + b)[1..] == a[1..] + b;
      KeepsAppend(a[1..], b, Next(m, a[0]), floor, mid, end);
    }
  }

  lemma {:induction false} InertKeeps(s: string, d: int)
    requires Inert(s)
    ensures Keeps(s, Mode(d, false, false), d, Mode(d, false, false))
  {
    if s != "" {
      assert s[0] in s;
      assert forall c | c in s[1..] :: c in s by { assert s == [s[0]] + s[1..]; }
      InertKeeps(s[1..], d);
    }
  }

  lemma {:induction false} InsideKeeps(s: string, d: int)
    requires forall c | c in s :: c != '"' && c != '\\'
    ensures Keeps(s, Mode(d, true, false), d, Mode(d, true, false))
  {
    if s != "" {
      assert s[0] in s;
      assert forall c | c in s[1..] :: c in s by { assert s == [s[0]] + s[1..]; }
      InsideKeeps(s[1..], d);
    }
  }

  /** A backslash takes the next character with it, whatever it is. */
  lemma BackslashKeeps(s: string, d: int)
    requires |s| >= 2 && s[0] == '\\' && forall c | c in s[2..] :: c != '"' && c != '\\'
    ensures Keeps(s, Mode(d, true, false), d, Mode(d, true, false))
  {
    InsideKeeps(s[2..], d);
    assert s[1..][1..] == s[2..] && s[1..][0] == s[1];
    assert Keeps(s[1..], Mode(d, true, true), d, Mode(d, true, false));
  }

  lemma HexIsPlain(n: nat)
    requires n < 0x10000
    ensures Plain("\\u" + Hex4(n))
    ensures forall d :: Keeps("\\u" + Hex4(n), Mode(d, true, false), d, Mode(d, true, false))
  {
    var s := "\\u" + Hex4(n);
    assert s[2..] == Hex4(n);
    forall d ensures Keeps(s, Mode(d, true, false), d, Mode(d, true, false)) {
      BackslashKeeps(s, d);
    }
  }

  lemma EscapeKeeps(c: char, d: int)
    ensures Keeps(Escape(c), Mode(d, true, false), d, Mode(d, true, false)) && Plain(Escape(c))
  {
    var n := c as int;
    var e := Escape(c);
    if |e| == 2 {
      assert e[2..] == "";
      BackslashKeeps(e, d);
    } else if 32 <= n <= 126 {
      InsideKeeps(e, d);
    } else if n < 0x10000 {
      HexIsPlain(n);
    } else {
      var hi, lo := 0xD800 + (n - 0x10000) / 1024 % 1024, 0xDC00 + n % 1024;
      HexIsPlain(hi);
      HexIsPlain(lo);
      assert e == ("\\u" + Hex4(hi)) + ("\\u" + Hex4(lo));
      var inside := Mode(d, true, false);
      KeepsAppend("\\u" + Hex4(hi), "\\u" + Hex4(lo), inside, d, inside, inside);
    }
  }

  lemma {:induction false} EscapedKeeps(s: string, d: int)
    ensures Keeps(Escaped(s), Mode(d, true, false), d, Mode(d, true, false)) && Plain(Escaped(s))
  {
    if s != "" {
      EscapeKeeps(s[0], d);
      EscapedKeeps(s[1..], d);
      KeepsAppend(Escape(s[0]), Escaped(s[1..]), Mode(d, true, false), d, Mode(d, true, false), Mode(d, true, false));
    }
  }

  lemma QuoteKeeps(s: string, d: int)
    ensures Keeps(Quote(s), Mode(d, false, false), d, Mode(d, false, false)) && Plain(Quote(s))
  {
    EscapedKeeps(s, d);
    var rest := Escaped(s) + "\"";
    KeepsAppend(Escaped(s), "\"", Mode(d, true, false), d, Mode(d, true, false), Mode(d, false, false));
    assert Quote(s) == "\"" + rest && Quote(s)[1..] == rest;
  }

  lemma {:induction false} DecimalIsInert(n: nat)
    ensures Plain(Decimal(n)) && Inert(Decimal(n)) && Decimal(n) != ""
  {
    if n >= 10 {
      DecimalIsInert(n / 10);
    }
  }

  lemma Wrap(open: char, close: char, body: string, d: int)
    requires (open == '[' && close == ']') || (open == '{' && close == '}')
    requires Keeps(body, Mode(d + 1, false, false), d + 1, Mode(d + 1, false, false))
    ensures Keeps([open] + body + [close], Mode(d, false, false), d, Mode(d, false, false))
  {
    Lower(body, Mode(d + 1, false, false), d + 1, Mode(d + 1, false, false));
    KeepsAppend(body, [close], Mode(d + 1, false, false), d, Mode(d + 1, false, false), Mode(d, false, false));
    assert [open] + body + [close] == [open] + (body + [close]);
    assert ([open] + (body + [close]))[1..] == body + [close];
  }

  lemma {:induction false} Lower(s: string, m: Mode, floor: int, end: Mode)
    requires Keeps(s, m, floor, end)
    ensures Keeps(s, m, floor - 1, end)
  {
    if s != "" {
      Lower(s[1..], Next(m, s[0]), floor, end);
    }
  }

  lemma PlainKeeps(s: string, d: int)
    requires Plain(s) && Inert(s)
    ensures Keeps(s, Mode(d, false, false), d, Mode(d, false, false)) && Plain(s)
  {
    InertKeeps(s, d);
  }

  /** Any value's text comes back to the depth it started at and never goes above it. */
  lemma {:induction false} DumpKeeps(j: Json, d: int)
    requires Printable(j)
    ensures Keeps(Dump(j), Mode(d, false, false), d, Mode(d, false, false)) && Plain(Dump(j))
  {
    match j
    case Null => PlainKeeps("null", d);
    case Bool(b) => PlainKeeps(if b then "true" else "false", d);
    case Int(n) =>
      DecimalIsInert(if n < 0 then -n else n);
      PlainKeeps(IntText(n), d);
    case Float(text) => PlainKeeps(text, d);
    case Str(s) => QuoteKeeps(s, d);
    case Arr(items) =>
      ListKeeps(items, d + 1);
      Wrap('[', ']', DumpList(items), d);
    case Obj(fields) =>
      FieldsKeep(fields, d + 1);
      Wrap('{', '}', DumpFields(fields), d);
  }

  /** Two texts that keep a depth keep it with a separator between them. */
  lemma Separate(a: string, sep: string, b: string, d: int)
    requires Keeps(a, Mode(d, false, false), d, Mode(d, false, false)) && Plain(a)
    requires Keeps(b, Mode(d, false, false), d, Mode(d, false, false)) && Plain(b)
    requires Plain(sep) && Inert(sep)
    ensures Keeps(a + (sep + b), Mode(d, false, false), d, Mode(d, false, false)) && Plain(a + (sep + b))
  {
    InertKeeps(sep, d);
    KeepsAppend(sep, b, Mode(d, false, false), d, Mode(d, false, false), Mode(d, false, false));
    KeepsAppend(a, sep + b, Mode(d, false, false), d, Mode(d, false, false), Mode(d, false, false));
  }

  lemma {:induction false} ListKeeps(l: List, d: int)
    requires PrintableList(l)
    ensures Keeps(DumpList(l), Mode(d, false, false), d, Mode(d, false, false)) && Plain(DumpList(l))
  {
    if l.Cons? {
      DumpKeeps(l.head, d);
      if l.tail.Cons? {
        ListKeeps(l.tail, d);
        Separate(Dump(l.head), ", ", DumpList(l.tail), d);
      } else {
        assert Dump(l.head) + "" == Dump(l.head);
      }
    }
  }

  lemma PairKeeps(key: string, value: string, d: int)
    requires Keeps(value, Mode(d, false, false), d, Mode(d, false, false)) && Plain(value)
    ensures var one := Quote(key) + (": " + value);
            Keeps(one, Mode(d, false, false), d, Mode(d, false, false)) && Plain(one)
  {
    QuoteKeeps(key, d);
    Separate(Quote(key), ": ", value, d);
  }

  lemma FieldsText(f: Fields)
    requires f.Field?
    ensures var one := Quote(f.key) + (": " + Dump(f.value));
            DumpFields(f) == if f.rest.End? then one else one + (", " + DumpFields(f.rest))
  {
  }

  lemma {:induction false} FieldsKeep(f: Fields, d: int)
    requires PrintableFields(f)
    ensures Keeps(DumpFields(f), Mode(d, false, false), d, Mode(d, false, false)) && Plain(DumpFields(f))
  {
    if f.Field? {
      DumpKeeps(f.value, d);
      PairKeeps(f.key, Dump(f.value), d);
      var one := Quote(f.key) + (": " + Dump(f.value));
      if f.rest.Field? {
        FieldsKeep(f.rest, d);
        Separate(one, ", ", DumpFields(f.rest), d);
      }
      FieldsText(f);
    }
  }

  // ---------- a line cut short ----------

  lemma {:induction false} KeptPrefix(s: string, m: Mode, floor: int, end: Mode, n: nat)
    requires Keeps(s, m, floor, end) && n <= |s|
    ensures Scan(s[..n], m).depth >= floor
  {
    if n > 0 {
      KeptPrefix(s[1..], Next(m, s[0]), floor, end, n - 1);
      assert s[..n][1..] == s[1..][..n - 1];
    }
  }

  /** What is left of an object's text when its end is missing has an unclosed brace. */
  lemma CutIsOpen(fields: Fields, n: nat)
    requires PrintableFields(fields) && 0 < n < |Dump(Obj(fields))|
    ensures !Closed(Dump(Obj(fields))[..n])
  {
    var body := DumpFields(fields);
    var text := Dump(Obj(fields));
    FieldsKeep(fields, 1);
    KeptPrefix(body, Mode(1, false, false), 1, Mode(1, false, false), n - 1);
    assert text[..n][0] == '{';
    assert text[..n][1..] == body[..n - 1];
  }
}
