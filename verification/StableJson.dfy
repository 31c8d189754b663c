/**
 `stable_json`: the text is the same exactly for values that agree up to the order of object
 entries. The writer fills a buffer in place; the text feeds the challenge-id digest.
 */
module StableJson {
  import opened Text
  import opened CanonicalJson

  // ---------------------------------------------------------------- the canonical order

  function KeysOf(es: seq<Entry>): (keys: seq<string>)
    ensures |keys| == |es| && forall i :: 0 <= i < |es| ==> keys[i] == es[i].key
  {
    if es == [] then [] else [es[0].key] + KeysOf(es[1..])
  }

  function InsertEntry(e: Entry, es: seq<Entry>): (r: seq<Entry>)
    ensures forall x :: x in r <==> x == e || x in es
    ensures |r| == |es| + 1
  {
    if es == [] then [e]
    else if !Less(es[0].key, e.key) then [e] + es
    else
      assert es == [es[0]] + es[1..];
      [es[0]] + InsertEntry(e, es[1..])
  }

  /** `entries.sort_by_key`. */
  function SortEntries(es: seq<Entry>): (r: seq<Entry>)
    ensures forall x :: x in r <==> x in es
    ensures |r| == |es|
  {
    if es == [] then []
    else
      assert es == [es[0]] + es[1..];
      InsertEntry(es[0], SortEntries(es[1..]))
  }

  /** The value with the entries of every object sorted. */
  function Canon(v: Json): Json
    decreases v
  {
    match v
    case JArr(items) => JArr(CanonItems(items))
    case JObj(es) => JObj(SortEntries(CanonEntries(es)))
    case _ => v
  }

  function CanonItems(items: seq<Json>): (r: seq<Json>)
    ensures |r| == |items|
    decreases items
  {
    if items == [] then [] else [Canon(items[0])] + CanonItems(items[1..])
  }

  function CanonEntries(es: seq<Entry>): (r: seq<Entry>)
    ensures |r| == |es| && KeysOf(r) == KeysOf(es)
    decreases es
  {
    if es == [] then [] else [Entry(es[0].key, Canon(es[0].value))] + CanonEntries(es[1..])
  }

  function StableText(v: Json): string {
    Print(Canon(v))
  }

  // ---------------------------------------------------------------- meaning

  /** A value whose objects are maps. */
  datatype Tree =
    | TNull
    | TBool(b: bool)
    | TNum(n: int)
    | TStr(s: string)
    | TArr(items: seq<Tree>)
    | TObj(fields: map<string, Tree>)

  function Meaning(v: Json): Tree
    decreases v
  {
    match v
    case JNull => TNull
    case JBool(b) => TBool(b)
    case JNum(n) => TNum(n)
    case JStr(s) => TStr(s)
    case JArr(items) => TArr(ItemMeanings(items))
    case JObj(es) => TObj(Fields(es))
  }

  function ItemMeanings(items: seq<Json>): (r: seq<Tree>)
    ensures |r| == |items|
    decreases items
  {
    if items == [] then [] else [Meaning(items[0])] + ItemMeanings(items[1..])
  }

  function Fields(es: seq<Entry>): map<string, Tree>
    decreases es
  {
    if es == [] then map[] else Fields(es[1..])[es[0].key := Meaning(es[0].value)]
  }

  /** No object has a key twice, as `serde_json::Map` guarantees. */
  ghost predicate Valid(v: Json)
    decreases v
  {
    match v
    case JArr(items) => ValidItems(items)
    case JObj(es) => Distinct(KeysOf(es)) && ValidEntries(es)
    case _ => true
  }

  ghost predicate ValidItems(items: seq<Json>)
    decreases items
  {
    items == [] || (Valid(items[0]) && ValidItems(items[1..]))
  }

  ghost predicate ValidEntries(es: seq<Entry>)
    decreases es
  {
    es == [] || (Valid(es[0].value) && ValidEntries(es[1..]))
  }

  // ---------------------------------------------------------------- sorting keeps the fields

  lemma FieldKeys(es: seq<Entry>)
    ensures forall k :: k in Fields(es) <==> k in KeysOf(es)
  {
    if es != [] {
      FieldKeys(es[1..]);
      assert KeysOf(es) == [es[0].key] + KeysOf(es[1..]);
    }
  }

  lemma {:induction false} KeysInsert(e: Entry, es: seq<Entry>)
    ensures multiset(KeysOf(InsertEntry(e, es))) == multiset(KeysOf(es)) + multiset{e.key}
  {
    var r := InsertEntry(e, es);
    if es == [] || !Less(es[0].key, e.key) {
      assert r == [e] + es;
      assert KeysOf(r) == [e.key] + KeysOf(es);
    } else {
      KeysInsert(e, es[1..]);
      assert KeysOf(es) == [es[0].key] + KeysOf(es[1..]);
      assert r[1..] == InsertEntry(e, es[1..]);
      assert KeysOf(r) == [es[0].key] + KeysOf(r[1..]);
    }
  }

  lemma FieldsCons(e: Entry, es: seq<Entry>)
    ensures Fields([e] + es) == Fields(es)[e.key := Meaning(e.value)]
  {
    assert ([e] + es)[1..] == es;
  }

  lemma {:induction false} FieldsInsert(e: Entry, es: seq<Entry>)
    requires e.key !in KeysOf(es)
    ensures Fields(InsertEntry(e, es)) == Fields(es)[e.key := Meaning(e.value)]
  {
    if es == [] || !Less(es[0].key, e.key) {
      assert InsertEntry(e, es) == [e] + es;
      FieldsCons(e, es);
    } else {
      assert KeysOf(es) == [es[0].key] + KeysOf(es[1..]);
      FieldsInsert(e, es[1..]);
      FieldsCons(es[0], InsertEntry(e, es[1..]));
      var rest := Fields(es[1..]);
      var x, y := Meaning(e.value), Meaning(es[0].value);
      assert rest[e.key := x][es[0].key := y] == rest[es[0].key := y][e.key := x];
    }
  }

  lemma {:induction false} FieldsSort(es: seq<Entry>)
    requires Distinct(KeysOf(es))
    ensures Fields(SortEntries(es)) == Fields(es)
    ensures multiset(KeysOf(SortEntries(es))) == multiset(KeysOf(es))
  {
    if es != [] {
      assert KeysOf(es) == [es[0].key] + KeysOf(es[1..]);
      assert Distinct(KeysOf(es[1..])) by {
        assert KeysOf(es[1..]) == KeysOf(es)[1..];
      }
      FieldsSort(es[1..]);
      assert es[0].key !in KeysOf(es[1..]);
      assert es[0].key !in multiset(KeysOf(SortEntries(es[1..])));
      FieldsInsert(es[0], SortEntries(es[1..]));
      KeysInsert(es[0], SortEntries(es[1..]));
    }
  }

  lemma {:induction false} InsertAscends(e: Entry, es: seq<Entry>)
    requires Ascending(KeysOf(es)) && e.key !in KeysOf(es)
    ensures Ascending(KeysOf(InsertEntry(e, es)))
  {
    var r := InsertEntry(e, es);
    if es != [] {
      assert KeysOf(es) == [es[0].key] + KeysOf(es[1..]);
      if !Less(es[0].key, e.key) {
        LessTotal(es[0].key, e.key);
        AscendingHead(e.key, KeysOf(es));
        AscendingCons(e.key, KeysOf(es));
        assert KeysOf(r) == [e.key] + KeysOf(es);
      } else {
        assert Ascending(KeysOf(es[1..])) by {
          assert KeysOf(es[1..]) == KeysOf(es)[1..];
        }
        InsertAscends(e, es[1..]);
        var rest := InsertEntry(e, es[1..]);
        forall y | y in KeysOf(rest) ensures Less(es[0].key, y) {
          var i :| 0 <= i < |rest| && rest[i].key == y;
          assert rest[i] in rest;
          if rest[i] in es[1..] {
            var j :| 0 <= j < |es[1..]| && es[1..][j] == rest[i];
            assert Less(KeysOf(es)[0], KeysOf(es)[j + 1]);
          }
        }
        AscendingCons(es[0].key, KeysOf(rest));
        assert KeysOf(r) == [es[0].key] + KeysOf(rest);
      }
    }
  }

  lemma {:induction false} SortAscends(es: seq<Entry>)
    requires Distinct(KeysOf(es))
    ensures Ascending(KeysOf(SortEntries(es)))
  {
    if es != [] {
      assert KeysOf(es[1..]) == KeysOf(es)[1..];
      SortAscends(es[1..]);
      FieldsSort(es[1..]);
      assert es[0].key !in multiset(KeysOf(es[1..])) by {
        assert KeysOf(es)[0] == es[0].key;
      }
      InsertAscends(es[0], SortEntries(es[1..]));
    }
  }

  // ---------------------------------------------------------------- equal texts

  lemma {:induction false} CanonMeans(v: Json)
    requires Valid(v)
    ensures Meaning(Canon(v)) == Meaning(v)
    decreases v
  {
    match v
    case JArr(items) => CanonItemsMean(items);
    case JObj(es) =>
      CanonEntriesMean(es);
      FieldsSort(CanonEntries(es));
    case _ =>
  }

  lemma {:induction false} CanonItemsMean(items: seq<Json>)
    requires ValidItems(items)
    ensures ItemMeanings(CanonItems(items)) == ItemMeanings(items)
    decreases items
  {
    if items != [] {
      CanonMeans(items[0]);
      CanonItemsMean(items[1..]);
    }
  }

  lemma {:induction false} CanonEntriesMean(es: seq<Entry>)
    requires ValidEntries(es)
    ensures Fields(CanonEntries(es)) == Fields(es)
    decreases es
  {
    if es != [] {
      CanonMeans(es[0].value);
      CanonEntriesMean(es[1..]);
    }
  }

  /** Values that agree up to entry order have the same canonical form. */
  lemma {:induction false} MeaningDeterminesCanon(v: Json, w: Json)
    requires Valid(v) && Valid(w) && Meaning(v) == Meaning(w)
    ensures Canon(v) == Canon(w)
    decreases v
  {
    match v
    case JArr(items) => ItemsDetermine(items, w.items);
    case JObj(es) => EntriesDetermine(es, w.entries);
    case _ =>
  }

  lemma {:induction false} ItemsDetermine(xs: seq<Json>, ys: seq<Json>)
    requires ValidItems(xs) && ValidItems(ys) && ItemMeanings(xs) == ItemMeanings(ys)
    ensures CanonItems(xs) == CanonItems(ys)
    decreases xs
  {
    if xs != [] {
      assert ItemMeanings(xs)[0] == ItemMeanings(ys)[0] && ItemMeanings(xs)[1..] == ItemMeanings(ys)[1..];
      MeaningDeterminesCanon(xs[0], ys[0]);
      ItemsDetermine(xs[1..], ys[1..]);
    }
  }

  lemma EntriesDetermine(es: seq<Entry>, fs: seq<Entry>)
    requires Distinct(KeysOf(es)) && Distinct(KeysOf(fs)) && ValidEntries(es) && ValidEntries(fs)
    requires Fields(es) == Fields(fs)
    ensures SortEntries(CanonEntries(es)) == SortEntries(CanonEntries(fs))
    decreases es, 1
  {
    var a, b := SortEntries(CanonEntries(es)), SortEntries(CanonEntries(fs));
    SameKeys(es, fs);
    assert |a| == |KeysOf(a)| == |KeysOf(b)| == |b|;
    forall i | 0 <= i < |a| ensures a[i] == b[i] {
      assert KeysOf(a)[i] == KeysOf(b)[i];
      assert a[i] in a && b[i] in b;
      SameEntry(es, fs, a[i], b[i]);
    }
  }

  lemma SameKeys(es: seq<Entry>, fs: seq<Entry>)
    requires Distinct(KeysOf(es)) && Distinct(KeysOf(fs)) && Fields(es) == Fields(fs)
    ensures KeysOf(SortEntries(CanonEntries(es))) == KeysOf(SortEntries(CanonEntries(fs)))
  {
    SortAscends(CanonEntries(es));
    SortAscends(CanonEntries(fs));
    SortedKeys(es);
    SortedKeys(fs);
    AscendingUnique(KeysOf(SortEntries(CanonEntries(es))), KeysOf(SortEntries(CanonEntries(fs))));
  }

  lemma SortedKeys(es: seq<Entry>)
    requires Distinct(KeysOf(es))
    ensures forall k :: k in KeysOf(SortEntries(CanonEntries(es))) <==> k in Fields(es)
  {
    FieldsSort(CanonEntries(es));
    FieldKeys(es);
    var keys := KeysOf(SortEntries(CanonEntries(es)));
    assert forall k :: k in keys <==> k in multiset(keys);
    assert forall k :: k in KeysOf(es) <==> k in multiset(KeysOf(es));
  }

  /** Canonical entries with one key come from entries with one meaning. */
  lemma SameEntry(es: seq<Entry>, fs: seq<Entry>, x: Entry, y: Entry)
    requires Distinct(KeysOf(es)) && Distinct(KeysOf(fs)) && ValidEntries(es) && ValidEntries(fs)
    requires Fields(es) == Fields(fs) && x in CanonEntries(es) && y in CanonEntries(fs) && x.key == y.key
    ensures x == y
    decreases es, 0
  {
    var i := CanonOrigin(es, x);
    var j := CanonOrigin(fs, y);
    FieldAt(es, i);
    FieldAt(fs, j);
    MeaningDeterminesCanon(es[i].value, fs[j].value);
  }

  lemma {:induction false} CanonOrigin(es: seq<Entry>, x: Entry) returns (i: nat)
    requires x in CanonEntries(es)
    ensures i < |es| && x == Entry(es[i].key, Canon(es[i].value))
    decreases |es|
  {
    if x == CanonEntries(es)[0] {
      i := 0;
    } else {
      i := CanonOrigin(es[1..], x);
      i := i + 1;
    }
  }

  lemma {:induction false} FieldAt(es: seq<Entry>, i: nat)
    requires i < |es| && Distinct(KeysOf(es)) && ValidEntries(es)
    ensures es[i].key in Fields(es) && Fields(es)[es[i].key] == Meaning(es[i].value) && Valid(es[i].value)
    decreases |es|
  {
    if i > 0 {
      assert KeysOf(es[1..]) == KeysOf(es)[1..];
      FieldAt(es[1..], i - 1);
      assert KeysOf(es)[0] != KeysOf(es)[i];
    }
  }

  /** Two values print the same text exactly when they are equal up to the order of object entries. */
  lemma StableTextExact(v: Json, w: Json)
    requires Valid(v) && Valid(w)
    ensures StableText(v) == StableText(w) <==> Meaning(v) == Meaning(w)
  {
    if StableText(v) == StableText(w) {
      PrintInjective(Canon(v), Canon(w));
      CanonMeans(v);
      CanonMeans(w);
    }
    if Meaning(v) == Meaning(w) {
      MeaningDeterminesCanon(v, w);
    }
  }
}
