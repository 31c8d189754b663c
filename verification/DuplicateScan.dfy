/**
 `hasDuplicateChallengeParameter` of `conformance/golden/adapter.ts`: an index walks the header and
 remembers the keys it has passed.
 */
module DuplicateScan {
  import opened Wrappers
  import opened Dicts
  import opened AuthParams
  import opened AuthRoundTrip

  /** `\w`. */
  predicate IsWordChar(c: char) {
    'A' <= c <= 'Z' || 'a' <= c <= 'z' || '0' <= c <= '9' || c == '_'
  }

  /** `\s` in JavaScript. */
  predicate IsJsSpace(c: char) {
    var n := c as int;
    || 0x09 <= n <= 0x0d || n == 0x20 || n == 0xa0 || n == 0x1680 || 0x2000 <= n <= 0x200a
    || 0x2028 <= n <= 0x2029 || n == 0x202f || n == 0x205f || n == 0x3000 || n == 0xfeff
  }

  function WordEnd(h: string, i: nat): (j: nat)
    requires i <= |h|
    ensures i <= j <= |h|
    decreases |h| - i
  {
    if i < |h| && IsWordChar(h[i]) then WordEnd(h, i + 1) else i
  }

  /** Past the closing quote of the string that opened before `i`; beyond the end if there is none. */
  function PastQuote(h: string, i: nat): (j: nat)
    ensures i < j
    decreases |h| - i
  {
    if i >= |h| || h[i] == '"' then i + 1 else PastQuote(h, if h[i] == '\\' then i + 2 else i + 1)
  }

  /** `(\w+)=` at `i`: the position of the equals sign. */
  function KeyAt(h: string, i: nat): (r: Option<nat>)
    requires i <= |h|
    ensures r.Some? ==> i < r.value < |h|
  {
    var end := WordEnd(h, i);
    if end > i && end < |h| && h[end] == '=' then Some(end) else None
  }

  function PastValue(h: string, eq: nat): (j: nat)
    requires eq < |h|
    ensures eq < j
  {
    if eq + 1 < |h| && h[eq + 1] == '"' then PastQuote(h, eq + 2) else eq + 1
  }

  /** What the walk from `i` on returns. */
  function Scan(h: string, i: nat, expectKey: bool, seen: set<string>): bool
    decreases |h| - i
  {
    if i >= |h| then false
    else if h[i] == ',' then Scan(h, i + 1, true, seen)
    else if !expectKey then Scan(h, i + 1, false, seen)
    else if IsJsSpace(h[i]) then Scan(h, i + 1, true, seen)
    else
      match KeyAt(h, i)
      case None => Scan(h, i + 1, false, seen)
      case Some(eq) => h[i..eq] in seen || Scan(h, PastValue(h, eq), false, seen + {h[i..eq]})
  }

  method HasDuplicateChallengeParameter(header: string) returns (found: bool)
    ensures found == Scan(header, 0, true, {})
  {
    var seen: set<string> := {};
    var expectKey := true;
    var i := 0;
    while i < |header|
      invariant Scan(header, i, expectKey, seen) == Scan(header, 0, true, {})
      decreases |header| - i
    {
      var ch := header[i];
      if ch == ',' {
        expectKey := true;
        i := i + 1;
        continue;
      }
      if expectKey {
        if IsJsSpace(ch) {
          i := i + 1;
          continue;
        }
        expectKey := false;
        var eq := KeyAt(header, i);
        if eq.Some? {
          var key := header[i..eq.value];
          if key in seen {
            return true;
          }
          seen := seen + {key};
          ghost var next := PastValue(header, eq.value);
          i := eq.value + 1;
          if i < |header| && header[i] == '"' {
            i := i + 1;
            while i < |header| && header[i] != '"'
              invariant PastQuote(header, i) == next
              decreases |header| - i
            {
              i := i + if header[i] == '\\' then 2 else 1;
            }
            i := i + 1;
          }
          assert i == next;
          continue;
        }
      }
      i := i + 1;
    }
    return false;
  }

  // ---------------------------------------------------------------- exactness

  predicate IsWordKey(k: string) {
    k != "" && forall i :: 0 <= i < |k| ==> IsWordChar(k[i])
  }

  ghost predicate HasWordKeys(ps: Dict) {
    forall i :: 0 <= i < |ps| ==> IsWordKey(ps[i].0)
  }

  /** Two parameters share a key, or one has a key that was seen. */
  ghost predicate Repeats(ps: Dict, seen: set<string>) {
    || (exists i, j :: 0 <= i < j < |ps| && ps[i].0 == ps[j].0)
    || (exists i :: 0 <= i < |ps| && ps[i].0 in seen)
  }

  lemma RepeatsRest(ps: Dict, seen: set<string>)
    requires ps != []
    ensures Repeats(ps, seen) <==> ps[0].0 in seen || Repeats(ps[1..], seen + {ps[0].0})
  {
    var rest, seen' := ps[1..], seen + {ps[0].0};
    assert forall i :: 0 <= i < |rest| ==> rest[i] == ps[i + 1];
    if i, j :| 0 <= i < j < |ps| && ps[i].0 == ps[j].0 {
      if i == 0 {
        assert rest[j - 1].0 in seen';
      } else {
        assert rest[i - 1].0 == rest[j - 1].0;
      }
    }
    if i :| 0 <= i < |ps| && ps[i].0 in seen && i > 0 {
      assert rest[i - 1].0 in seen';
    }
    if i, j :| 0 <= i < j < |rest| && rest[i].0 == rest[j].0 {
      assert ps[i + 1].0 == ps[j + 1].0;
    }
    if i :| 0 <= i < |rest| && rest[i].0 in seen' {
      assert ps[i + 1].0 == ps[0].0 || ps[i + 1].0 in seen;
    }
  }

  lemma {:induction false} WordEndAt(h: string, i: nat, k: string)
    requires (forall j :: 0 <= j < |k| ==> IsWordChar(k[j])) && At(h, i, k)
    requires i + |k| < |h| && !IsWordChar(h[i + |k|])
    ensures WordEnd(h, i) == i + |k|
    decreases |k|
  {
    if k != "" {
      AtRest(h, i, k);
      WordEndAt(h, i + 1, k[1..]);
    }
  }

  lemma {:induction false} PastQuoteAt(h: string, i: nat, v: string)
    requires At(h, i, EscapedChars(v)) && i + |EscapedChars(v)| < |h| && h[i + |EscapedChars(v)|] == '"'
    ensures PastQuote(h, i) == i + |EscapedChars(v)| + 1
    decreases |v|
  {
    if v != "" {
      var first := if v[0] == '\\' || v[0] == '"' then ['\\', v[0]] else [v[0]];
      AtConcat(h, i, first, EscapedChars(v[1..]));
      assert h[i] == first[0] && (|first| == 2 ==> h[i + 1] == first[1]);
      PastQuoteAt(h, i + |first|, v[1..]);
    }
  }

  lemma PastValueAt(h: string, eq: nat, v: string)
    requires eq < |h| && At(h, eq + 1, Quote(v))
    ensures PastValue(h, eq) == eq + 1 + |Quote(v)|
  {
    QuoteText(v);
    var i := eq + 1;
    AtConcat(h, i, "\"", EscapedChars(v) + "\"");
    AtConcat(h, i + 1, EscapedChars(v), "\"");
    assert h[i + 0] == "\""[0] && h[i + 1 + |EscapedChars(v)| + 0] == "\""[0];
    PastQuoteAt(h, i + 1, v);
  }

  /** The walk over one printed parameter. */
  lemma ScanParam(h: string, i: nat, p: (string, string), seen: set<string>)
    requires At(h, i, ParamText(p)) && IsWordKey(p.0)
    ensures Scan(h, i, true, seen) <==> p.0 in seen || Scan(h, i + |ParamText(p)|, false, seen + {p.0})
  {
    ParamPieces(h, i, p);
    var eq := i + |p.0|;
    assert h[i + 0] == p.0[0] && IsWordChar(h[i]);
    WordEndAt(h, i, p.0);
    AtSlice(h, i, p.0);
    PastValueAt(h, eq, p.1);
    assert KeyAt(h, i) == Some(eq);
  }

  lemma ScanGap(h: string, i: nat, x: string, seen: set<string>)
    requires Rest(h, i, ", " + x)
    ensures Scan(h, i, false, seen) == Scan(h, i + 2, true, seen) && Rest(h, i + 2, x)
  {
    CommaSkipped(h, i, x);
    RestConcat(h, i + 1, " ", x);
    assert h[i + 1 + 0] == " "[0];
    assert Scan(h, i, false, seen) == Scan(h, i + 1, true, seen);
  }

  lemma ScanFirst(h: string, i: nat, p: (string, string), rest: string, seen: set<string>)
    requires Rest(h, i, ParamText(p) + rest) && IsWordKey(p.0)
    ensures Rest(h, i + |ParamText(p)|, rest)
    ensures Scan(h, i, true, seen) <==> p.0 in seen || Scan(h, i + |ParamText(p)|, false, seen + {p.0})
  {
    RestConcat(h, i, ParamText(p), rest);
    ScanParam(h, i, p, seen);
  }

  lemma FirstParam(ps: Dict)
    requires ps != []
    ensures ParamsText(ps) == ParamText(ps[0]) + if |ps| == 1 then "" else ", " + ParamsText(ps[1..])
  {
  }

  lemma {:induction false} ScanParams(h: string, i: nat, ps: Dict, seen: set<string>)
    requires Rest(h, i, ParamsText(ps)) && HasWordKeys(ps)
    ensures Scan(h, i, true, seen) <==> Repeats(ps, seen)
    decreases |ps|
  {
    if ps != [] {
      var end, seen' := i + |ParamText(ps[0])|, seen + {ps[0].0};
      FirstParam(ps);
      ScanFirst(h, i, ps[0], if |ps| == 1 then "" else ", " + ParamsText(ps[1..]), seen);
      RepeatsRest(ps, seen);
      if |ps| > 1 {
        ScanGap(h, end, ParamsText(ps[1..]), seen');
        ScanParams(h, end + 2, ps[1..], seen');
      } else {
        assert ps[1..] == [];
      }
    }
  }

  /** For word keys and arbitrary values, a duplicate is reported exactly when two keys are equal. */
  lemma DuplicatesExactly(ps: Dict)
    requires HasWordKeys(ps)
    ensures Scan(ParamsText(ps), 0, true, {}) <==> exists i, j :: 0 <= i < j < |ps| && ps[i].0 == ps[j].0
  {
    ScanParams(ParamsText(ps), 0, ps, {});
  }
}
