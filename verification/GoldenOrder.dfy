/**
 The order of `stableStringify` in `conformance/golden/adapter.ts`: keys by UTF-16 code units, against
 the code-point order of the Rust writer.
 */
module GoldenOrder {
  import opened Text
  import opened CanonicalJson
  import opened StableJson

  /** Position in the order of UTF-16 code units: surrogate pairs sort below U+E000. */
  function UnitRank(c: char): int {
    var n := c as int;
    if n < 0xd800 then n else if n >= 0x10000 then n - 0x10000 + 0xd800 else n + 0x100000
  }

  /** `left < right` on strings. */
  predicate LessUnits(a: string, b: string) {
    if b == "" then false
    else if a == "" then true
    else if a[0] != b[0] then UnitRank(a[0]) < UnitRank(b[0])
    else LessUnits(a[1..], b[1..])
  }

  function InsertByUnits(e: Entry, es: seq<Entry>): (r: seq<Entry>)
    ensures |r| == |es| + 1 && forall x :: x in r <==> x == e || x in es
  {
    if es == [] then [e]
    else if !LessUnits(es[0].key, e.key) then [e] + es
    else
      assert es == [es[0]] + es[1..];
      [es[0]] + InsertByUnits(e, es[1..])
  }

  function SortByUnits(es: seq<Entry>): (r: seq<Entry>)
    ensures |r| == |es| && forall x :: x in r <==> x in es
  {
    if es == [] then []
    else
      assert es == [es[0]] + es[1..];
      InsertByUnits(es[0], SortByUnits(es[1..]))
  }

  // ---------------------------------------------------------------- the order

  lemma {:induction false} UnitsIrreflexive(a: string)
    ensures !LessUnits(a, a)
  {
    if a != "" {
      UnitsIrreflexive(a[1..]);
    }
  }

  lemma {:induction false} UnitsTransitive(a: string, b: string, c: string)
    requires LessUnits(a, b) && LessUnits(b, c)
    ensures LessUnits(a, c)
  {
    if a != "" && a[0] == b[0] && b[0] == c[0] {
      UnitsTransitive(a[1..], b[1..], c[1..]);
    }
  }

  lemma {:induction false} UnitsTotal(a: string, b: string)
    ensures LessUnits(a, b) || a == b || LessUnits(b, a)
  {
    if a != "" && b != "" && a[0] == b[0] {
      UnitsTotal(a[1..], b[1..]);
      assert a == [a[0]] + a[1..] && b == [b[0]] + b[1..];
    }
  }

  predicate Private(c: char) {
    0xe000 <= c as int < 0x10000
  }

  predicate Astral(c: char) {
    c as int >= 0x10000
  }

  /** Where the keys first differ, one has a character in U+E000 to U+FFFF and the other one from U+10000 on. */
  predicate Crossed(a: string, b: string) {
    if a == "" || b == "" then false
    else if a[0] != b[0] then (Private(a[0]) && Astral(b[0])) || (Astral(a[0]) && Private(b[0]))
    else Crossed(a[1..], b[1..])
  }

  /** The two orders disagree on exactly these pairs. */
  lemma {:induction false} OrdersAgree(a: string, b: string)
    ensures (LessUnits(a, b) <==> Less(a, b)) <==> !Crossed(a, b)
  {
    if a != "" && b != "" && a[0] == b[0] {
      OrdersAgree(a[1..], b[1..]);
    }
  }

  ghost predicate NoneCrossed(keys: seq<string>) {
    forall i, j :: 0 <= i < |keys| && 0 <= j < |keys| ==> !Crossed(keys[i], keys[j])
  }

  // ---------------------------------------------------------------- one sort or the other

  lemma {:induction false} InsertSame(e: Entry, es: seq<Entry>)
    requires forall x :: x in es ==> !Crossed(x.key, e.key)
    ensures InsertByUnits(e, es) == InsertEntry(e, es)
  {
    if es != [] {
      OrdersAgree(es[0].key, e.key);
      assert es[0] in es;
      InsertSame(e, es[1..]);
    }
  }

  lemma {:induction false} SortSame(es: seq<Entry>)
    requires NoneCrossed(KeysOf(es))
    ensures SortByUnits(es) == SortEntries(es)
  {
    if es != [] {
      assert KeysOf(es) == [es[0].key] + KeysOf(es[1..]);
      assert forall i :: 0 <= i < |es| - 1 ==> KeysOf(es[1..])[i] == KeysOf(es)[i + 1];
      SortSame(es[1..]);
      forall x | x in SortEntries(es[1..]) ensures !Crossed(x.key, es[0].key) {
        var i :| 0 <= i < |es[1..]| && es[1..][i] == x;
        assert KeysOf(es)[i + 1] == x.key && KeysOf(es)[0] == es[0].key;
      }
      InsertSame(es[0], SortEntries(es[1..]));
    }
  }

  ghost predicate Climbs(es: seq<Entry>) {
    forall i, j :: 0 <= i < j < |es| ==> LessUnits(es[i].key, es[j].key)
  }

  lemma ClimbsCons(e: Entry, es: seq<Entry>)
    requires Climbs(es) && forall x :: x in es ==> LessUnits(e.key, x.key)
    ensures Climbs([e] + es)
  {
    var r := [e] + es;
    forall i, j | 0 <= i < j < |r| ensures LessUnits(r[i].key, r[j].key) {
      assert r[j] == es[j - 1] && es[j - 1] in es;
    }
  }

  lemma ClimbsTail(es: seq<Entry>)
    requires es != [] && Climbs(es)
    ensures Climbs(es[1..]) && forall x :: x in es[1..] ==> LessUnits(es[0].key, x.key)
  {
  }

  lemma {:induction false} InsertClimbs(e: Entry, es: seq<Entry>)
    requires Climbs(es) && forall x :: x in es ==> x.key != e.key
    ensures Climbs(InsertByUnits(e, es))
  {
    if es != [] {
      ClimbsTail(es);
      assert es[0] in es;
      UnitsTotal(es[0].key, e.key);
      if !LessUnits(es[0].key, e.key) {
        forall x | x in es ensures LessUnits(e.key, x.key) {
          if x != es[0] {
            assert x in es[1..] by { assert es == [es[0]] + es[1..]; }
            UnitsTransitive(e.key, es[0].key, x.key);
          }
        }
        ClimbsCons(e, es);
      } else {
        InsertClimbs(e, es[1..]);
        ClimbsCons(es[0], InsertByUnits(e, es[1..]));
      }
    }
  }

  lemma DistinctTail(es: seq<Entry>)
    requires es != [] && Distinct(KeysOf(es))
    ensures Distinct(KeysOf(es[1..])) && forall x :: x in es[1..] ==> x.key != es[0].key
  {
    assert KeysOf(es[1..]) == KeysOf(es)[1..];
    forall x | x in es[1..] ensures x.key != es[0].key {
      var i :| 0 <= i < |es[1..]| && es[1..][i] == x;
      assert KeysOf(es)[0] != KeysOf(es)[i + 1];
    }
  }

  lemma {:induction false} SortClimbs(es: seq<Entry>)
    requires Distinct(KeysOf(es))
    ensures Climbs(SortByUnits(es))
  {
    if es != [] {
      DistinctTail(es);
      SortClimbs(es[1..]);
      InsertClimbs(es[0], SortByUnits(es[1..]));
    }
  }

  /** Entries that both sorts put in the same order have no crossed keys. */
  lemma SortTells(es: seq<Entry>)
    requires Distinct(KeysOf(es)) && SortByUnits(es) == SortEntries(es)
    ensures NoneCrossed(KeysOf(es))
  {
    SortClimbs(es);
    SortAscends(es);
    var r := SortEntries(es);
    forall i, j | 0 <= i < |es| && 0 <= j < |es| ensures !Crossed(KeysOf(es)[i], KeysOf(es)[j]) {
      assert es[i] in r && es[j] in r;
      var k :| 0 <= k < |r| && r[k] == es[i];
      var l :| 0 <= l < |r| && r[l] == es[j];
      BothOrders(r, k, l);
    }
  }

  lemma BothOrders(r: seq<Entry>, k: nat, l: nat)
    requires Climbs(r) && Ascending(KeysOf(r)) && k < |r| && l < |r|
    ensures !Crossed(r[k].key, r[l].key)
  {
    if k < l {
      assert Less(KeysOf(r)[k], KeysOf(r)[l]);
      NotCrossed(r[k].key, r[l].key);
    } else if l < k {
      assert Less(KeysOf(r)[l], KeysOf(r)[k]);
      NotCrossed(r[l].key, r[k].key);
    } else {
      NotCrossedItself(r[k].key);
    }
  }

  lemma {:induction false} NotCrossedItself(a: string)
    ensures !Crossed(a, a)
  {
    if a != "" {
      NotCrossedItself(a[1..]);
    }
  }

  lemma NotCrossed(a: string, b: string)
    requires LessUnits(a, b) && Less(a, b)
    ensures !Crossed(a, b) && !Crossed(b, a)
  {
    OrdersAgree(a, b);
    Asymmetric(a, b);
    OrdersAgree(b, a);
  }

  lemma Asymmetric(a: string, b: string)
    requires LessUnits(a, b) && Less(a, b)
    ensures !LessUnits(b, a) && !Less(b, a)
  {
    if LessUnits(b, a) {
      UnitsTransitive(a, b, a);
      UnitsIrreflexive(a);
    }
    if Less(b, a) {
      LessTransitive(a, b, a);
      LessIrreflexive(a);
    }
  }

  // ---------------------------------------------------------------- the order before does not matter

  lemma {:induction false} InsertsCommute(a: Entry, b: Entry, s: seq<Entry>)
    requires LessUnits(a.key, b.key)
    ensures InsertByUnits(a, InsertByUnits(b, s)) == InsertByUnits(b, InsertByUnits(a, s))
  {
    if LessUnits(b.key, a.key) {
      UnitsTransitive(a.key, b.key, a.key);
      UnitsIrreflexive(a.key);
    }
    if s != [] && LessUnits(s[0].key, a.key) {
      UnitsTransitive(s[0].key, a.key, b.key);
      InsertsCommute(a, b, s[1..]);
      var x, y := InsertByUnits(b, s[1..]), InsertByUnits(a, s[1..]);
      assert InsertByUnits(b, s) == [s[0]] + x && InsertByUnits(a, s) == [s[0]] + y;
      assert ([s[0]] + x)[1..] == x && ([s[0]] + y)[1..] == y;
    } else {
      assert InsertByUnits(a, s) == [a] + s && ([a] + s)[1..] == s;
      InsertHead(a, b, s);
    }
  }

  /** `a` goes in front of whatever `b` goes into. */
  lemma InsertHead(a: Entry, b: Entry, s: seq<Entry>)
    requires LessUnits(a.key, b.key) && !LessUnits(b.key, a.key) && (s != [] ==> !LessUnits(s[0].key, a.key))
    ensures InsertByUnits(a, InsertByUnits(b, s)) == [a] + InsertByUnits(b, s)
  {
  }

  lemma InsertsSwap(a: Entry, b: Entry, s: seq<Entry>)
    requires a.key != b.key
    ensures InsertByUnits(a, InsertByUnits(b, s)) == InsertByUnits(b, InsertByUnits(a, s))
  {
    UnitsTotal(a.key, b.key);
    if LessUnits(a.key, b.key) {
      InsertsCommute(a, b, s);
    } else {
      InsertsCommute(b, a, s);
    }
  }

  lemma {:induction false} SortInserted(e: Entry, s: seq<Entry>)
    requires forall x :: x in s ==> x.key != e.key
    ensures SortByUnits(InsertEntry(e, s)) == InsertByUnits(e, SortByUnits(s))
  {
    var r := InsertEntry(e, s);
    if s == [] || !Less(s[0].key, e.key) {
      assert r == [e] + s && r[1..] == s;
    } else {
      assert s[0] in s;
      SortInserted(e, s[1..]);
      assert r == [s[0]] + InsertEntry(e, s[1..]) && r[1..] == InsertEntry(e, s[1..]);
      InsertsSwap(s[0], e, SortByUnits(s[1..]));
    }
  }

  lemma {:induction false} SortSorted(es: seq<Entry>)
    requires Distinct(KeysOf(es))
    ensures SortByUnits(SortEntries(es)) == SortByUnits(es)
  {
    if es != [] {
      DistinctTail(es);
      SortSorted(es[1..]);
      SortInserted(es[0], SortEntries(es[1..]));
    }
  }

  // ---------------------------------------------------------------- the fields stay

  lemma UpdatesSwap(m: map<string, Tree>, k: string, x: Tree, l: string, y: Tree)
    requires k != l
    ensures m[k := x][l := y] == m[l := y][k := x]
  {
  }

  lemma {:induction false} FieldsInsertByUnits(e: Entry, es: seq<Entry>)
    requires forall x :: x in es ==> x.key != e.key
    ensures Fields(InsertByUnits(e, es)) == Fields(es)[e.key := Meaning(e.value)]
  {
    if es == [] || !LessUnits(es[0].key, e.key) {
      assert InsertByUnits(e, es) == [e] + es;
      FieldsCons(e, es);
    } else {
      assert es[0] in es;
      FieldsInsertByUnits(e, es[1..]);
      FieldsCons(es[0], InsertByUnits(e, es[1..]));
      UpdatesSwap(Fields(es[1..]), e.key, Meaning(e.value), es[0].key, Meaning(es[0].value));
    }
  }

  lemma {:induction false} FieldsSortByUnits(es: seq<Entry>)
    requires Distinct(KeysOf(es))
    ensures Fields(SortByUnits(es)) == Fields(es)
  {
    if es != [] {
      DistinctTail(es);
      FieldsSortByUnits(es[1..]);
      FieldsInsertByUnits(es[0], SortByUnits(es[1..]));
    }
  }
}
