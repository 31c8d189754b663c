/**
 The canonical JSON writer of `conformance/adapters/rust/src/main.rs`: entries sorted by key,
 minimal escapes. Numbers are integers.
 */
module CanonicalJson {
  import opened Text

  datatype Json =
    | JNull
    | JBool(b: bool)
    | JNum(n: int)
    | JStr(s: string)
    | JArr(items: seq<Json>)
    | JObj(entries: seq<Entry>)

  datatype Entry = Entry(key: string, value: Json)

  // ---------------------------------------------------------------- text

  function HexChar(d: nat): char
    requires d < 16
  {
    if d < 10 then (d + 48) as char else (d + 87) as char
  }

  /** `char::is_control`. */
  predicate IsControl(c: char) {
    (c as int) < 0x20 || 0x7f <= (c as int) <= 0x9f
  }

  function EscapeChar(c: char): (s: string)
    ensures s != ""
  {
    if c == '"' then "\\\""
    else if c == '\\' then "\\\\"
    else if c as int == 0x08 then "\\b"
    else if c as int == 0x0c then "\\f"
    else if c == '\n' then "\\n"
    else if c == '\r' then "\\r"
    else if c == '\t' then "\\t"
    else if IsControl(c) then ['\\', 'u', '0', '0', HexChar(c as int / 16), HexChar(c as int % 16)]
    else [c]
  }

  function EscapeAll(s: string): string {
    if s == "" then "" else EscapeChar(s[0]) + EscapeAll(s[1..])
  }

  function PrintString(s: string): string {
    "\"" + EscapeAll(s) + "\""
  }

  function PrintNum(n: int): (s: string)
    ensures s != "" && (s[0] == '-' || IsDigit(s[0]))
  {
    if n < 0 then "-" + Decimal(-n) else Decimal(n)
  }

  /** A value as text, with the entries of objects in the order they have. */
  function Print(v: Json): (s: string)
    ensures s != ""
    decreases v
  {
    match v
    case JNull => "null"
    case JBool(b) => if b then "true" else "false"
    case JNum(n) => PrintNum(n)
    case JStr(s) => PrintString(s)
    case JArr(items) => "[" + (if items == [] then "]" else Print(items[0]) + PrintItems(items[1..]))
    case JObj(es) => "{" + (if es == [] then "}" else PrintEntry(es[0]) + PrintEntries(es[1..]))
  }

  function PrintItems(items: seq<Json>): (s: string)
    ensures s != "" && (s[0] == ',' || s[0] == ']')
    decreases items
  {
    if items == [] then "]" else "," + (Print(items[0]) + PrintItems(items[1..]))
  }

  function PrintEntry(e: Entry): string
    decreases e
  {
    PrintString(e.key) + (":" + Print(e.value))
  }

  function PrintEntries(es: seq<Entry>): (s: string)
    ensures s != "" && (s[0] == ',' || s[0] == '}')
    decreases es
  {
    if es == [] then "}" else "," + (PrintEntry(es[0]) + PrintEntries(es[1..]))
  }

  // ---------------------------------------------------------------- printing is injective

  lemma SamePrefix(a: string, b: string, s: string, t: string)
    requires a + s == b + t && |a| == |b|
    ensures a == b && s == t
  {
    assert a == (a + s)[..|a|] && b == (b + t)[..|b|];
    assert s == (a + s)[|a|..] && t == (b + t)[|b|..];
  }

  lemma SameRest(a: string, s: string, t: string)
    requires a + s == a + t
    ensures s == t
  {
    SamePrefix(a, a, s, t);
  }

  lemma EscapeLengths(c: char, d: char, s: string, t: string)
    requires EscapeChar(c) + s == EscapeChar(d) + t
    ensures |EscapeChar(c)| == |EscapeChar(d)|
  {
    var a, b := EscapeChar(c), EscapeChar(d);
    assert (a + s)[0] == a[0] && (b + t)[0] == b[0];
    if a[0] == '\\' {
      assert (a + s)[1] == a[1] && (b + t)[1] == b[1];
    }
  }

  lemma EscapeInjective(c: char, d: char)
    requires EscapeChar(c) == EscapeChar(d)
    ensures c == d
  {
    var a, b := EscapeChar(c), EscapeChar(d);
    if |a| == 6 {
      var x, y := c as int, d as int;
      assert a[4] == b[4] && a[5] == b[5];
      assert x / 16 == y / 16 && x % 16 == y % 16;
      assert x == 16 * (x / 16) + x % 16 && y == 16 * (y / 16) + y % 16;
    } else {
      assert a[0] == b[0];
      if |a| == 2 {
        assert a[1] == b[1];
      }
    }
  }

  lemma QuoteFirst(a: string, rest: string)
    ensures (EscapeAll(a) + ("\"" + rest))[0] == '"' <==> a == ""
  {
  }

  lemma EscapeUnique(c: char, d: char, s: string, t: string)
    requires EscapeChar(c) + s == EscapeChar(d) + t
    ensures c == d && s == t
  {
    EscapeLengths(c, d, s, t);
    SamePrefix(EscapeChar(c), EscapeChar(d), s, t);
    EscapeInjective(c, d);
  }

  lemma EscapeStep(a: string, rest: string)
    requires a != ""
    ensures EscapeAll(a) + rest == EscapeChar(a[0]) + (EscapeAll(a[1..]) + rest)
  {
  }

  lemma {:induction false} StringsUnique(a: string, b: string, s: string, t: string)
    requires EscapeAll(a) + ("\"" + s) == EscapeAll(b) + ("\"" + t)
    ensures a == b && s == t
  {
    QuoteFirst(a, s);
    QuoteFirst(b, t);
    if a == "" {
      SameRest("", "\"" + s, "\"" + t);
      SameRest("\"", s, t);
    } else {
      EscapeStep(a, "\"" + s);
      EscapeStep(b, "\"" + t);
      EscapeUnique(a[0], b[0], EscapeAll(a[1..]) + ("\"" + s), EscapeAll(b[1..]) + ("\"" + t));
      StringsUnique(a[1..], b[1..], s, t);
      assert a == [a[0]] + a[1..] && b == [b[0]] + b[1..];
    }
  }

  lemma QuotedRest(q: string, x: string, s: string)
    ensures (q + x + q) + s == q + (x + (q + s))
  {
  }

  lemma PrintStringUnique(a: string, b: string, s: string, t: string)
    requires PrintString(a) + s == PrintString(b) + t
    ensures a == b && s == t
  {
    var x, y := EscapeAll(a), EscapeAll(b);
    QuotedRest("\"", x, s);
    QuotedRest("\"", y, t);
    SameRest("\"", x + ("\"" + s), y + ("\"" + t));
    StringsUnique(a, b, s, t);
  }

  lemma DigitsUnique(a: string, b: string, s: string, t: string)
    requires AllDigits(a) && AllDigits(b) && Ends(s) && Ends(t) && a + s == b + t
    ensures a == b && s == t
  {
    DigitRunOf(a, s);
    DigitRunOf(b, t);
    SamePrefix(a, b, s, t);
  }

  lemma NaturalsUnique(n: nat, m: nat, s: string, t: string)
    requires Decimal(n) + s == Decimal(m) + t && Ends(s) && Ends(t)
    ensures n == m && s == t
  {
    DigitsUnique(Decimal(n), Decimal(m), s, t);
    ParseDecimalOfDecimal(n);
    ParseDecimalOfDecimal(m);
  }

  lemma SignedRest(sign: string, a: string, b: string, s: string, t: string)
    requires sign + a + s == sign + b + t
    ensures a + s == b + t
  {
    assert sign + a + s == sign + (a + s) && sign + b + t == sign + (b + t);
    SameRest(sign, a + s, b + t);
  }

  lemma PrintNumSign(n: int, s: string)
    ensures (PrintNum(n) + s)[0] == '-' <==> n < 0
  {
    assert (PrintNum(n) + s)[0] == PrintNum(n)[0];
  }

  lemma NegativesUnique(n: int, m: int, s: string, t: string)
    requires n < 0 && m < 0 && PrintNum(n) + s == PrintNum(m) + t && Ends(s) && Ends(t)
    ensures n == m && s == t
  {
    SignedRest("-", Decimal(-n), Decimal(-m), s, t);
    NaturalsUnique(-n, -m, s, t);
  }

  lemma NumbersUnique(n: int, m: int, s: string, t: string)
    requires PrintNum(n) + s == PrintNum(m) + t && Ends(s) && Ends(t)
    ensures n == m && s == t
  {
    PrintNumSign(n, s);
    PrintNumSign(m, t);
    if n < 0 {
      NegativesUnique(n, m, s, t);
    } else {
      NaturalsUnique(n, m, s, t);
    }
  }

  /** The kind of value a text starts with. */
  function Kind(v: Json): nat {
    match v
    case JNull => 0
    case JBool(_) => 1
    case JNum(_) => 2
    case JStr(_) => 3
    case JArr(_) => 4
    case JObj(_) => 5
  }

  function KindAt(c: char): nat {
    if c == 'n' then 0 else if c == 't' || c == 'f' then 1 else if c == '"' then 3
    else if c == '[' then 4 else if c == '{' then 5 else 2
  }

  lemma KindOfPrint(v: Json, s: string)
    ensures KindAt((Print(v) + s)[0]) == Kind(v)
  {
    assert (Print(v) + s)[0] == Print(v)[0];
  }

  /** A printed value is recovered from any text it starts. */
  lemma {:induction false} PrintUnique(v: Json, w: Json, s: string, t: string)
    requires Print(v) + s == Print(w) + t && Ends(s) && Ends(t)
    ensures v == w && s == t
    decreases v, 0
  {
    KindOfPrint(v, s);
    KindOfPrint(w, t);
    match v
    case JNull => SameRest("null", s, t);
    case JBool(b) =>
      assert (Print(v) + s)[0] == Print(v)[0] && (Print(w) + t)[0] == Print(w)[0];
      SameRest(Print(v), s, t);
    case JNum(n) => NumbersUnique(n, w.n, s, t);
    case JStr(a) => PrintStringUnique(a, w.s, s, t);
    case JArr(items) => ArraysUnique(items, w.items, s, t);
    case JObj(es) => ObjectsUnique(es, w.entries, s, t);
  }

  lemma {:induction false} ArraysUnique(xs: seq<Json>, ys: seq<Json>, s: string, t: string)
    requires Print(JArr(xs)) + s == Print(JArr(ys)) + t
    ensures xs == ys && s == t
    decreases xs, 1
  {
    var p := if xs == [] then "]" else Print(xs[0]) + PrintItems(xs[1..]);
    var q := if ys == [] then "]" else Print(ys[0]) + PrintItems(ys[1..]);
    assert Print(JArr(xs)) + s == "[" + (p + s) && Print(JArr(ys)) + t == "[" + (q + t);
    SameRest("[", p + s, q + t);
    if xs != [] && ys != [] {
      ItemHeads(xs, ys, s, t);
    } else {
      if xs != [] { NotABracket(xs[0], PrintItems(xs[1..]), s); }
      if ys != [] { NotABracket(ys[0], PrintItems(ys[1..]), t); }
      assert (p + s)[0] == (q + t)[0];
      SamePrefix(p, q, s, t);
    }
  }

  lemma NotABracket(v: Json, rest: string, s: string)
    ensures ((Print(v) + rest) + s)[0] != ']'
  {
    match v
    case JNum(n) => assert ((Print(v) + rest) + s)[0] == PrintNum(n)[0];
    case _ => assert ((Print(v) + rest) + s)[0] == Print(v)[0];
  }

  lemma {:induction false} ItemHeads(xs: seq<Json>, ys: seq<Json>, s: string, t: string)
    requires xs != [] && ys != []
    requires Print(xs[0]) + PrintItems(xs[1..]) + s == Print(ys[0]) + PrintItems(ys[1..]) + t
    ensures xs == ys && s == t
    decreases xs, 0
  {
    var p, q := PrintItems(xs[1..]) + s, PrintItems(ys[1..]) + t;
    assert Print(xs[0]) + PrintItems(xs[1..]) + s == Print(xs[0]) + p;
    assert Print(ys[0]) + PrintItems(ys[1..]) + t == Print(ys[0]) + q;
    PrintUnique(xs[0], ys[0], p, q);
    ItemsUnique(xs[1..], ys[1..], s, t);
    assert xs == [xs[0]] + xs[1..] && ys == [ys[0]] + ys[1..];
  }

  lemma {:induction false} ItemsUnique(xs: seq<Json>, ys: seq<Json>, s: string, t: string)
    requires PrintItems(xs) + s == PrintItems(ys) + t
    ensures xs == ys && s == t
    decreases xs, 1
  {
    assert (PrintItems(xs) + s)[0] == PrintItems(xs)[0] && (PrintItems(ys) + t)[0] == PrintItems(ys)[0];
    if xs == [] {
      SamePrefix("]", "]", s, t);
    } else {
      var p, q := Print(xs[0]) + PrintItems(xs[1..]), Print(ys[0]) + PrintItems(ys[1..]);
      assert PrintItems(xs) + s == "," + (p + s) && PrintItems(ys) + t == "," + (q + t);
      SameRest(",", p + s, q + t);
      ItemHeads(xs, ys, s, t);
    }
  }

  lemma {:induction false} ObjectsUnique(es: seq<Entry>, fs: seq<Entry>, s: string, t: string)
    requires Print(JObj(es)) + s == Print(JObj(fs)) + t
    ensures es == fs && s == t
    decreases es, 1
  {
    var p := if es == [] then "}" else PrintEntry(es[0]) + PrintEntries(es[1..]);
    var q := if fs == [] then "}" else PrintEntry(fs[0]) + PrintEntries(fs[1..]);
    assert Print(JObj(es)) + s == "{" + (p + s) && Print(JObj(fs)) + t == "{" + (q + t);
    SameRest("{", p + s, q + t);
    if es != [] && fs != [] {
      EntryHeads(es, fs, s, t);
    } else {
      if es != [] { StartsQuoted(es[0], PrintEntries(es[1..]), s); }
      if fs != [] { StartsQuoted(fs[0], PrintEntries(fs[1..]), t); }
      assert (p + s)[0] == (q + t)[0];
      SamePrefix(p, q, s, t);
    }
  }

  lemma StartsQuoted(e: Entry, rest: string, s: string)
    ensures ((PrintEntry(e) + rest) + s)[0] == '"'
  {
  }

  lemma EntryText(e: Entry, rest: string, s: string)
    ensures PrintEntry(e) + rest + s == PrintString(e.key) + (":" + (Print(e.value) + (rest + s)))
  {
  }

  lemma {:induction false} EntryHeads(es: seq<Entry>, fs: seq<Entry>, s: string, t: string)
    requires es != [] && fs != []
    requires PrintEntry(es[0]) + PrintEntries(es[1..]) + s == PrintEntry(fs[0]) + PrintEntries(fs[1..]) + t
    ensures es == fs && s == t
    decreases es, 0
  {
    var e, f := es[0], fs[0];
    var p, q := PrintEntries(es[1..]) + s, PrintEntries(fs[1..]) + t;
    EntryText(e, PrintEntries(es[1..]), s);
    EntryText(f, PrintEntries(fs[1..]), t);
    PrintStringUnique(e.key, f.key, ":" + (Print(e.value) + p), ":" + (Print(f.value) + q));
    SameRest(":", Print(e.value) + p, Print(f.value) + q);
    PrintUnique(e.value, f.value, p, q);
    EntriesUnique(es[1..], fs[1..], s, t);
    assert es == [e] + es[1..] && fs == [f] + fs[1..];
  }

  lemma {:induction false} EntriesUnique(es: seq<Entry>, fs: seq<Entry>, s: string, t: string)
    requires PrintEntries(es) + s == PrintEntries(fs) + t
    ensures es == fs && s == t
    decreases es, 1
  {
    assert (PrintEntries(es) + s)[0] == PrintEntries(es)[0] && (PrintEntries(fs) + t)[0] == PrintEntries(fs)[0];
    if es == [] {
      SamePrefix("}", "}", s, t);
    } else {
      var p, q := PrintEntry(es[0]) + PrintEntries(es[1..]), PrintEntry(fs[0]) + PrintEntries(fs[1..]);
      assert PrintEntries(es) + s == "," + (p + s) && PrintEntries(fs) + t == "," + (q + t);
      SameRest(",", p + s, q + t);
      EntryHeads(es, fs, s, t);
    }
  }

  /** Without sorting: equal texts come from equal values. */
  lemma PrintInjective(v: Json, w: Json)
    requires Print(v) == Print(w)
    ensures v == w
  {
    assert Print(v) + "" == Print(v) && Print(w) + "" == Print(w);
    PrintUnique(v, w, "", "");
  }
}
