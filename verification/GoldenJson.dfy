/**
 The golden adapter's writer (`stableStringify` in `conformance/golden/adapter.ts`) against the Rust
 one. It escapes fewer characters and sorts keys by UTF-16 code units; this module says exactly
 when the two texts agree, and that it tells values apart just as well.
 */
module GoldenJson {
  import opened Text
  import opened CanonicalJson
  import opened StableJson
  import opened GoldenOrder

  /** The controls `JSON.stringify` leaves as they are. */
  predicate IsBareControl(c: char) {
    0x7f <= c as int <= 0x9f
  }

  function Ordered(v: Json): Json
    decreases v
  {
    match v
    case JArr(items) => JArr(OrderedItems(items))
    case JObj(es) => JObj(SortByUnits(OrderedEntries(es)))
    case _ => v
  }

  function OrderedItems(items: seq<Json>): seq<Json>
    decreases items
  {
    if items == [] then [] else [Ordered(items[0])] + OrderedItems(items[1..])
  }

  function OrderedEntries(es: seq<Entry>): seq<Entry>
    decreases es
  {
    if es == [] then [] else [Entry(es[0].key, Ordered(es[0].value))] + OrderedEntries(es[1..])
  }

  // ---------------------------------------------------------------- its text

  predicate Bare(s: string) {
    exists i :: 0 <= i < |s| && IsBareControl(s[i])
  }

  lemma BareConcat(a: string, b: string)
    ensures Bare(a + b) <==> Bare(a) || Bare(b)
  {
    if Bare(a) {
      var i :| 0 <= i < |a| && IsBareControl(a[i]);
      assert (a + b)[i] == a[i];
    }
    if Bare(b) {
      var i :| 0 <= i < |b| && IsBareControl(b[i]);
      assert (a + b)[|a| + i] == b[i];
    }
  }

  function JsEscapeAll(s: string): (r: string)
    ensures !Bare(s) ==> r == EscapeAll(s)
    ensures Bare(r) <==> Bare(s)
  {
    if s == "" then ""
    else
      var first := if IsBareControl(s[0]) then [s[0]] else EscapeChar(s[0]);
      assert s == [s[0]] + s[1..];
      BareConcat([s[0]], s[1..]);
      assert Bare([s[0]]) <==> IsBareControl(s[0]) by { assert [s[0]][0] == s[0]; }
      EscapedIsNotBare(s[0]);
      BareConcat(first, JsEscapeAll(s[1..]));
      first + JsEscapeAll(s[1..])
  }

  lemma EscapedIsNotBare(c: char)
    ensures !Bare(EscapeChar(c))
  {
  }

  lemma {:induction false} EscapedAllIsNotBare(s: string)
    ensures !Bare(EscapeAll(s))
  {
    if s != "" {
      EscapedIsNotBare(s[0]);
      EscapedAllIsNotBare(s[1..]);
      BareConcat(EscapeChar(s[0]), EscapeAll(s[1..]));
    }
  }

  function JsString(s: string): (r: string)
    ensures !Bare(s) ==> r == PrintString(s)
    ensures Bare(r) <==> Bare(s)
  {
    BareConcat("\"", JsEscapeAll(s));
    BareConcat("\"" + JsEscapeAll(s), "\"");
    "\"" + JsEscapeAll(s) + "\""
  }

  /** No string in the value holds a bare control. */
  predicate Clean(v: Json)
    decreases v
  {
    match v
    case JStr(s) => !Bare(s)
    case JArr(items) => CleanItems(items)
    case JObj(es) => CleanEntries(es)
    case _ => true
  }

  predicate CleanItems(items: seq<Json>)
    decreases items
  {
    items == [] || (Clean(items[0]) && CleanItems(items[1..]))
  }

  predicate CleanEntry(e: Entry)
    decreases e
  {
    !Bare(e.key) && Clean(e.value)
  }

  predicate CleanEntries(es: seq<Entry>)
    decreases es
  {
    es == [] || (CleanEntry(es[0]) && CleanEntries(es[1..]))
  }

  lemma DigitsAreNotBare(s: string)
    requires AllDigits(s)
    ensures !Bare(s)
  {
  }

  lemma NumberIsNotBare(n: int)
    ensures !Bare(PrintNum(n))
  {
    if n < 0 {
      DigitsAreNotBare(Decimal(-n));
      BareConcat("-", Decimal(-n));
    } else {
      DigitsAreNotBare(Decimal(n));
    }
  }

  lemma WordsAreNotBare()
    ensures !Bare("null") && !Bare("true") && !Bare("false") && !Bare("[]") && !Bare("{}")
    ensures "[" + "]" == "[]" && "{" + "}" == "{}"
  {
  }

  lemma ArrayParts(items: seq<Json>)
    requires items != []
    ensures Print(JArr(items)) == "[" + (Print(items[0]) + PrintItems(items[1..]))
    ensures Clean(JArr(items)) <==> Clean(items[0]) && CleanItems(items[1..])
  {
  }

  lemma ObjectParts(es: seq<Entry>)
    requires es != []
    ensures Print(JObj(es)) == "{" + (PrintEntry(es[0]) + PrintEntries(es[1..]))
    ensures Clean(JObj(es)) <==> CleanEntry(es[0]) && CleanEntries(es[1..])
  {
  }

  /** A concatenation of three parts. */
  lemma BareConcat3(a: string, b: string, c: string)
    ensures Bare(a + (b + c)) <==> Bare(a) || Bare(b) || Bare(c)
  {
    BareConcat(b, c);
    BareConcat(a, b + c);
  }

  /** The text `stableStringify` writes for a value whose entries are ordered. */
  function JsPrint(v: Json): (r: string)
    ensures Clean(v) ==> r == Print(v)
    ensures Bare(r) <==> !Clean(v)
    decreases v, 1
  {
    WordsAreNotBare();
    match v
    case JNum(n) => NumberIsNotBare(n); PrintNum(n)
    case JStr(s) => JsString(s)
    case JArr(items) =>
      if items == [] then "[]"
      else
        BareConcat3("[", JsPrint(items[0]), JsItems(items[1..]));
        ArrayParts(items);
        "[" + (JsPrint(items[0]) + JsItems(items[1..]))
    case JObj(es) =>
      if es == [] then "{}"
      else
        BareConcat3("{", JsEntry(es[0]), JsEntries(es[1..]));
        ObjectParts(es);
        "{" + (JsEntry(es[0]) + JsEntries(es[1..]))
    case _ => Print(v)
  }

  function JsItems(items: seq<Json>): (r: string)
    ensures CleanItems(items) ==> r == PrintItems(items)
    ensures Bare(r) <==> !CleanItems(items)
    decreases items, 0
  {
    if items == [] then "]"
    else
      BareConcat3(",", JsPrint(items[0]), JsItems(items[1..]));
      "," + (JsPrint(items[0]) + JsItems(items[1..]))
  }

  function JsEntry(e: Entry): (r: string)
    ensures CleanEntry(e) ==> r == PrintEntry(e)
    ensures Bare(r) <==> !CleanEntry(e)
    decreases e, 0
  {
    BareConcat3(JsString(e.key), ":", JsPrint(e.value));
    JsString(e.key) + (":" + JsPrint(e.value))
  }

  function JsEntries(es: seq<Entry>): (r: string)
    ensures CleanEntries(es) ==> r == PrintEntries(es)
    ensures Bare(r) <==> !CleanEntries(es)
    decreases es, 0
  {
    if es == [] then "}"
    else
      BareConcat3(",", JsEntry(es[0]), JsEntries(es[1..]));
      "," + (JsEntry(es[0]) + JsEntries(es[1..]))
  }

  function GoldenText(v: Json): string {
    JsPrint(Ordered(v))
  }

  // ---------------------------------------------------------------- agreement

  lemma StringIsNotBare(s: string)
    ensures !Bare(PrintString(s))
  {
    EscapedAllIsNotBare(s);
    BareConcat("\"", EscapeAll(s));
    BareConcat("\"" + EscapeAll(s), "\"");
  }

  /** The Rust writer leaves no control in its text. */
  lemma {:induction false} PrintIsNotBare(v: Json)
    ensures !Bare(Print(v))
    decreases v, 1
  {
    match v
    case JNum(n) => NumberIsNotBare(n);
    case JStr(s) => StringIsNotBare(s);
    case JArr(items) =>
      if items != [] {
        PrintIsNotBare(items[0]);
        ItemsAreNotBare(items[1..]);
        BareConcat3("[", Print(items[0]), PrintItems(items[1..]));
      }
    case JObj(es) =>
      if es != [] {
        EntryIsNotBare(es[0]);
        EntriesAreNotBare(es[1..]);
        BareConcat3("{", PrintEntry(es[0]), PrintEntries(es[1..]));
      }
    case _ =>
  }

  lemma {:induction false} ItemsAreNotBare(items: seq<Json>)
    ensures !Bare(PrintItems(items))
    decreases items, 0
  {
    if items != [] {
      PrintIsNotBare(items[0]);
      ItemsAreNotBare(items[1..]);
      BareConcat3(",", Print(items[0]), PrintItems(items[1..]));
    }
  }

  lemma {:induction false} EntryIsNotBare(e: Entry)
    ensures !Bare(PrintEntry(e))
    decreases e, 0
  {
    StringIsNotBare(e.key);
    PrintIsNotBare(e.value);
    BareConcat3(PrintString(e.key), ":", Print(e.value));
  }

  lemma {:induction false} EntriesAreNotBare(es: seq<Entry>)
    ensures !Bare(PrintEntries(es))
    decreases es, 0
  {
    if es != [] {
      EntryIsNotBare(es[0]);
      EntriesAreNotBare(es[1..]);
      BareConcat3(",", PrintEntry(es[0]), PrintEntries(es[1..]));
    }
  }

  lemma {:induction false} CleanMembers(es: seq<Entry>)
    ensures CleanEntries(es) <==> forall e :: e in es ==> CleanEntry(e)
    decreases |es|
  {
    if es != [] {
      CleanMembers(es[1..]);
      if CleanEntries(es) {
        forall e | e in es ensures CleanEntry(e) {
          assert e == es[0] || e in es[1..];
        }
      } else if CleanEntry(es[0]) {
        var e :| e in es[1..] && !CleanEntry(e);
        assert e in es;
      } else {
        assert es[0] in es;
      }
    }
  }

  lemma {:induction false} OrderedIsClean(v: Json)
    ensures Clean(Ordered(v)) <==> Clean(v)
    decreases v, 1
  {
    match v
    case JArr(items) => OrderedItemsAreClean(items);
    case JObj(es) =>
      OrderedEntriesAreClean(es);
      CleanMembers(OrderedEntries(es));
      CleanMembers(SortByUnits(OrderedEntries(es)));
    case _ =>
  }

  lemma {:induction false} OrderedItemsAreClean(items: seq<Json>)
    ensures CleanItems(OrderedItems(items)) <==> CleanItems(items)
    decreases items, 0
  {
    if items != [] {
      OrderedIsClean(items[0]);
      OrderedItemsAreClean(items[1..]);
    }
  }

  lemma {:induction false} OrderedEntriesAreClean(es: seq<Entry>)
    ensures CleanEntries(OrderedEntries(es)) <==> CleanEntries(es)
    decreases es, 0
  {
    if es != [] {
      OrderedIsClean(es[0].value);
      OrderedEntriesAreClean(es[1..]);
    }
  }

  lemma TextsAgree(v: Json)
    ensures GoldenText(v) == StableText(v) <==> Clean(v) && Ordered(v) == Canon(v)
  {
    OrderedIsClean(v);
    PrintIsNotBare(Canon(v));
    if GoldenText(v) == StableText(v) {
      PrintInjective(Ordered(v), Canon(v));
    }
  }

  // ---------------------------------------------------------------- the order of keys

  /** No object in the value has two crossed keys. */
  ghost predicate Uncrossed(v: Json)
    decreases v
  {
    match v
    case JArr(items) => UncrossedItems(items)
    case JObj(es) => NoneCrossed(KeysOf(es)) && UncrossedEntries(es)
    case _ => true
  }

  ghost predicate UncrossedItems(items: seq<Json>)
    decreases items
  {
    items == [] || (Uncrossed(items[0]) && UncrossedItems(items[1..]))
  }

  ghost predicate UncrossedEntries(es: seq<Entry>)
    decreases es
  {
    es == [] || (Uncrossed(es[0].value) && UncrossedEntries(es[1..]))
  }

  lemma {:induction false} UncrossedOrdered(v: Json)
    requires Uncrossed(v)
    ensures Ordered(v) == Canon(v)
    decreases v, 1
  {
    match v
    case JArr(items) => UncrossedItemsOrdered(items);
    case JObj(es) =>
      UncrossedEntriesOrdered(es);
      SortSame(CanonEntries(es));
    case _ =>
  }

  lemma {:induction false} UncrossedItemsOrdered(items: seq<Json>)
    requires UncrossedItems(items)
    ensures OrderedItems(items) == CanonItems(items)
    decreases items, 0
  {
    if items != [] {
      UncrossedOrdered(items[0]);
      UncrossedItemsOrdered(items[1..]);
    }
  }

  lemma {:induction false} UncrossedEntriesOrdered(es: seq<Entry>)
    requires UncrossedEntries(es)
    ensures OrderedEntries(es) == CanonEntries(es)
    decreases es, 0
  {
    if es != [] {
      UncrossedOrdered(es[0].value);
      UncrossedEntriesOrdered(es[1..]);
    }
  }

  lemma {:induction false} OrderedKeys(es: seq<Entry>)
    ensures KeysOf(OrderedEntries(es)) == KeysOf(es)
    decreases es
  {
    if es != [] {
      OrderedKeys(es[1..]);
      assert OrderedEntries(es)[1..] == OrderedEntries(es[1..]);
    }
  }

  /** Entries with distinct keys that sort to the same were the same. */
  lemma SortedFromSame(xs: seq<Entry>, ys: seq<Entry>)
    requires KeysOf(xs) == KeysOf(ys) && Distinct(KeysOf(xs)) && SortByUnits(xs) == SortEntries(ys)
    ensures xs == ys
  {
    assert |xs| == |KeysOf(xs)| == |ys|;
    forall i | 0 <= i < |xs| ensures xs[i] == ys[i] {
      assert xs[i] in SortByUnits(xs) && xs[i] in ys;
      var j :| 0 <= j < |ys| && ys[j] == xs[i];
      assert KeysOf(ys)[j] == KeysOf(xs)[i];
    }
  }

  lemma {:induction false} OrderedUncrossed(v: Json)
    requires Valid(v) && Ordered(v) == Canon(v)
    ensures Uncrossed(v)
    decreases v, 1
  {
    match v
    case JArr(items) => OrderedItemsUncrossed(items);
    case JObj(es) =>
      OrderedKeys(es);
      SortedFromSame(OrderedEntries(es), CanonEntries(es));
      SortTells(CanonEntries(es));
      OrderedEntriesUncrossed(es);
    case _ =>
  }

  lemma {:induction false} OrderedItemsUncrossed(items: seq<Json>)
    requires ValidItems(items) && OrderedItems(items) == CanonItems(items)
    ensures UncrossedItems(items)
    decreases items, 0
  {
    if items != [] {
      assert OrderedItems(items)[0] == CanonItems(items)[0] && OrderedItems(items)[1..] == CanonItems(items)[1..];
      OrderedUncrossed(items[0]);
      OrderedItemsUncrossed(items[1..]);
    }
  }

  lemma {:induction false} OrderedEntriesUncrossed(es: seq<Entry>)
    requires ValidEntries(es) && OrderedEntries(es) == CanonEntries(es)
    ensures UncrossedEntries(es)
    decreases es, 0
  {
    if es != [] {
      assert OrderedEntries(es)[0] == CanonEntries(es)[0] && OrderedEntries(es)[1..] == CanonEntries(es)[1..];
      OrderedUncrossed(es[0].value);
      OrderedEntriesUncrossed(es[1..]);
    }
  }

  /**
   The two writers agree exactly when no string holds a control the golden one leaves bare, and no
   object has crossed keys.
   */
  lemma WritersAgreeExactlyWhen(v: Json)
    requires Valid(v)
    ensures GoldenText(v) == StableText(v) <==> Clean(v) && Uncrossed(v)
  {
    TextsAgree(v);
    if Ordered(v) == Canon(v) {
      OrderedUncrossed(v);
    }
    if Uncrossed(v) {
      UncrossedOrdered(v);
    }
  }

  /** Every character below U+10000. */
  predicate Basic(s: string) {
    forall i :: 0 <= i < |s| ==> !Astral(s[i])
  }

  predicate BasicKeys(v: Json)
    decreases v
  {
    match v
    case JArr(items) => BasicItems(items)
    case JObj(es) => BasicEntries(es)
    case _ => true
  }

  predicate BasicItems(items: seq<Json>)
    decreases items
  {
    items == [] || (BasicKeys(items[0]) && BasicItems(items[1..]))
  }

  predicate BasicEntries(es: seq<Entry>)
    decreases es
  {
    es == [] || (Basic(es[0].key) && BasicKeys(es[0].value) && BasicEntries(es[1..]))
  }

  lemma {:induction false} BasicPair(a: string, b: string)
    requires Basic(a) && Basic(b)
    ensures !Crossed(a, b)
  {
    if a != "" && b != "" && a[0] == b[0] {
      BasicPair(a[1..], b[1..]);
    }
  }

  lemma {:induction false} BasicIsUncrossed(v: Json)
    requires BasicKeys(v)
    ensures Uncrossed(v)
    decreases v, 1
  {
    match v
    case JArr(items) => BasicItemsAreUncrossed(items);
    case JObj(es) =>
      BasicEntriesAreUncrossed(es);
      forall i, j | 0 <= i < |es| && 0 <= j < |es| ensures !Crossed(KeysOf(es)[i], KeysOf(es)[j]) {
        BasicPair(es[i].key, es[j].key);
      }
    case _ =>
  }

  lemma {:induction false} BasicItemsAreUncrossed(items: seq<Json>)
    requires BasicItems(items)
    ensures UncrossedItems(items)
    decreases items, 0
  {
    if items != [] {
      BasicIsUncrossed(items[0]);
      BasicItemsAreUncrossed(items[1..]);
    }
  }

  lemma {:induction false} BasicEntriesAreUncrossed(es: seq<Entry>)
    requires BasicEntries(es)
    ensures UncrossedEntries(es) && forall i :: 0 <= i < |es| ==> Basic(es[i].key)
    decreases es, 0
  {
    if es != [] {
      BasicIsUncrossed(es[0].value);
      BasicEntriesAreUncrossed(es[1..]);
      assert forall i :: 0 < i < |es| ==> es[i] == es[1..][i - 1];
    }
  }

  /** For keys below U+10000, objects with a key twice included, only the controls matter. */
  lemma BasicKeysAgreeExactlyWhen(v: Json)
    requires BasicKeys(v)
    ensures GoldenText(v) == StableText(v) <==> Clean(v)
  {
    BasicIsUncrossed(v);
    UncrossedOrdered(v);
    TextsAgree(v);
  }

  lemma OneEntry(e: Entry)
    requires !Bare(e.key) && e.value == JNull
    ensures CleanEntries([e]) && ValidEntries([e])
  {
    var rest := [e][1..];
    assert CleanEntries(rest) && ValidEntries(rest);
    assert CleanEntry(e);
  }

  /** Any two crossed keys make an object with two texts; U+E000 and U+10000 are such keys. */
  lemma OrdersDiffer(k: string, l: string)
    requires Crossed(k, l) && !Bare(k) && !Bare(l)
    ensures var v := JObj([Entry(k, JNull), Entry(l, JNull)]);
      Valid(v) && Clean(v) && GoldenText(v) != StableText(v)
    ensures Crossed("\U{E000}", "\U{10000}")
  {
    var a, b := Entry(k, JNull), Entry(l, JNull);
    var es := [a, b];
    NotCrossedItself(k);
    assert es[1..] == [b] && [b][1..] == [];
    assert KeysOf(es)[0] == k && KeysOf(es)[1] == l;
    OneEntry(b);
    assert CleanEntry(a) && CleanEntries(es) && ValidEntries(es);
    WritersAgreeExactlyWhen(JObj(es));
  }

  // ---------------------------------------------------------------- equal golden texts

  /** The text with its bare controls escaped. */
  function Fixed(s: string): string {
    if s == "" then "" else (if IsBareControl(s[0]) then EscapeChar(s[0]) else [s[0]]) + Fixed(s[1..])
  }

  lemma {:induction false} FixedConcat(a: string, b: string)
    ensures Fixed(a + b) == Fixed(a) + Fixed(b)
  {
    if a == "" {
      assert a + b == b;
    } else {
      assert (a + b)[1..] == a[1..] + b;
      FixedConcat(a[1..], b);
    }
  }

  lemma {:induction false} FixedIsSame(s: string)
    requires !Bare(s)
    ensures Fixed(s) == s
  {
    if s != "" {
      assert !IsBareControl(s[0]);
      assert !Bare(s[1..]) by {
        assert forall i :: 0 <= i < |s| - 1 ==> s[1..][i] == s[i + 1];
      }
      FixedIsSame(s[1..]);
      assert s == [s[0]] + s[1..];
    }
  }

  lemma {:induction false} FixedString(s: string)
    ensures Fixed(JsEscapeAll(s)) == EscapeAll(s)
  {
    if s != "" {
      var first := if IsBareControl(s[0]) then [s[0]] else EscapeChar(s[0]);
      FixedConcat(first, JsEscapeAll(s[1..]));
      FixedString(s[1..]);
      EscapedIsNotBare(s[0]);
      if IsBareControl(s[0]) {
        assert [s[0]][1..] == "";
      } else {
        FixedIsSame(first);
      }
    }
  }

  lemma FixedQuoted(s: string)
    ensures Fixed(JsString(s)) == PrintString(s)
  {
    FixedString(s);
    FixedConcat("\"" + JsEscapeAll(s), "\"");
    FixedConcat("\"", JsEscapeAll(s));
    FixedMark('"');
  }

  lemma FixedMark(c: char)
    requires !IsBareControl(c)
    ensures Fixed([c]) == [c]
  {
    assert [c][1..] == "";
  }

  /** A clean mark, and two parts. */
  lemma FixedParts(c: char, a: string, b: string)
    requires !IsBareControl(c)
    ensures Fixed([c] + (a + b)) == [c] + (Fixed(a) + Fixed(b))
    ensures Fixed(a + ([c] + b)) == Fixed(a) + ([c] + Fixed(b))
  {
    FixedMark(c);
    FixedConcat([c], a + b);
    FixedConcat(a, b);
    FixedConcat(a, [c] + b);
    FixedConcat([c], b);
  }

  /** Escaping the bare controls of the golden text of a value gives its Rust text. */
  lemma {:induction false} FixedPrint(v: Json)
    ensures Fixed(JsPrint(v)) == Print(v)
    decreases v, 1
  {
    match v
    case JStr(s) => FixedQuoted(s);
    case JArr(items) =>
      if items == [] {
        WordsAreNotBare();
        FixedIsSame("[]");
      } else {
        FixedParts('[', JsPrint(items[0]), JsItems(items[1..]));
        FixedPrint(items[0]);
        FixedItems(items[1..]);
        ArrayParts(items);
      }
    case JObj(es) =>
      if es == [] {
        WordsAreNotBare();
        FixedIsSame("{}");
      } else {
        FixedParts('{', JsEntry(es[0]), JsEntries(es[1..]));
        FixedEntry(es[0]);
        FixedEntries(es[1..]);
        ObjectParts(es);
      }
    case _ =>
      FixedIsSame(JsPrint(v));
  }

  lemma {:induction false} FixedItems(items: seq<Json>)
    ensures Fixed(JsItems(items)) == PrintItems(items)
    decreases items, 0
  {
    if items == [] {
      FixedMark(']');
    } else {
      FixedParts(',', JsPrint(items[0]), JsItems(items[1..]));
      FixedPrint(items[0]);
      FixedItems(items[1..]);
    }
  }

  lemma {:induction false} FixedEntry(e: Entry)
    ensures Fixed(JsEntry(e)) == PrintEntry(e)
    decreases e, 0
  {
    FixedParts(':', JsString(e.key), JsPrint(e.value));
    FixedQuoted(e.key);
    FixedPrint(e.value);
  }

  lemma {:induction false} FixedEntries(es: seq<Entry>)
    ensures Fixed(JsEntries(es)) == PrintEntries(es)
    decreases es, 0
  {
    if es == [] {
      FixedMark('}');
    } else {
      FixedParts(',', JsEntry(es[0]), JsEntries(es[1..]));
      FixedEntry(es[0]);
      FixedEntries(es[1..]);
    }
  }

  lemma {:induction false} OrderedMeans(v: Json)
    requires Valid(v)
    ensures Meaning(Ordered(v)) == Meaning(v)
    decreases v, 1
  {
    match v
    case JArr(items) => OrderedItemsMean(items);
    case JObj(es) =>
      OrderedEntriesMean(es);
      OrderedKeys(es);
      FieldsSortByUnits(OrderedEntries(es));
    case _ =>
  }

  lemma {:induction false} OrderedItemsMean(items: seq<Json>)
    requires ValidItems(items)
    ensures ItemMeanings(OrderedItems(items)) == ItemMeanings(items)
    decreases items, 0
  {
    if items != [] {
      OrderedMeans(items[0]);
      OrderedItemsMean(items[1..]);
      assert OrderedItems(items)[1..] == OrderedItems(items[1..]);
    }
  }

  lemma {:induction false} OrderedEntriesMean(es: seq<Entry>)
    requires ValidEntries(es)
    ensures Fields(OrderedEntries(es)) == Fields(es)
    decreases es, 0
  {
    if es != [] {
      OrderedMeans(es[0].value);
      OrderedEntriesMean(es[1..]);
      assert OrderedEntries(es)[1..] == OrderedEntries(es[1..]);
    }
  }

  lemma {:induction false} OrderedInsert(e: Entry, es: seq<Entry>)
    ensures OrderedEntries(InsertEntry(e, es)) == InsertEntry(Entry(e.key, Ordered(e.value)), OrderedEntries(es))
    decreases |es|
  {
    if es == [] || !Less(es[0].key, e.key) {
      assert ([e] + es)[1..] == es;
    } else {
      OrderedInsert(e, es[1..]);
      assert ([es[0]] + InsertEntry(e, es[1..]))[1..] == InsertEntry(e, es[1..]);
      assert OrderedEntries(es)[1..] == OrderedEntries(es[1..]);
    }
  }

  lemma {:induction false} OrderedSort(es: seq<Entry>)
    ensures OrderedEntries(SortEntries(es)) == SortEntries(OrderedEntries(es))
    decreases |es|
  {
    if es != [] {
      OrderedSort(es[1..]);
      OrderedInsert(es[0], SortEntries(es[1..]));
      assert OrderedEntries(es)[1..] == OrderedEntries(es[1..]);
    }
  }

  /** The golden order does not depend on the order before. */
  lemma {:induction false} OrderedOfCanon(v: Json)
    requires Valid(v)
    ensures Ordered(Canon(v)) == Ordered(v)
    decreases v, 1
  {
    match v
    case JArr(items) => OrderedOfCanonItems(items);
    case JObj(es) =>
      OrderedOfCanonEntries(es);
      OrderedSort(CanonEntries(es));
      OrderedKeys(es);
      SortSorted(OrderedEntries(es));
    case _ =>
  }

  lemma {:induction false} OrderedOfCanonItems(items: seq<Json>)
    requires ValidItems(items)
    ensures OrderedItems(CanonItems(items)) == OrderedItems(items)
    decreases items, 0
  {
    if items != [] {
      OrderedOfCanon(items[0]);
      OrderedOfCanonItems(items[1..]);
      assert CanonItems(items)[1..] == CanonItems(items[1..]);
    }
  }

  lemma {:induction false} OrderedOfCanonEntries(es: seq<Entry>)
    requires ValidEntries(es)
    ensures OrderedEntries(CanonEntries(es)) == OrderedEntries(es)
    decreases es, 0
  {
    if es != [] {
      OrderedOfCanon(es[0].value);
      OrderedOfCanonEntries(es[1..]);
      assert CanonEntries(es)[1..] == CanonEntries(es[1..]);
    }
  }

  /** The golden texts of two values are the same exactly when they are equal up to the order of object entries. */
  lemma GoldenTextExact(v: Json, w: Json)
    requires Valid(v) && Valid(w)
    ensures GoldenText(v) == GoldenText(w) <==> Meaning(v) == Meaning(w)
  {
    if GoldenText(v) == GoldenText(w) {
      FixedPrint(Ordered(v));
      FixedPrint(Ordered(w));
      PrintInjective(Ordered(v), Ordered(w));
      OrderedMeans(v);
      OrderedMeans(w);
    }
    if Meaning(v) == Meaning(w) {
      MeaningDeterminesCanon(v, w);
      OrderedOfCanon(v);
      OrderedOfCanon(w);
    }
  }
}
