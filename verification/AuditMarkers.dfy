/**
 Markers in audit issue bodies (`agricola/audit.py`): how an issue is recognised, and what carrying
 propagation state over to a new body does to them.
 */
module AuditMarkers {
  import opened Wrappers
  import opened Text
  import opened TextLines
  import opened Dicts
  import opened PropagationTable
  import opened PropagationEdits
  import opened AuditIds

  const AUDIT_MARKER := "<!-- agricola:audit -->"
  const FINDING_PREFIX := "<!-- agricola:audit-finding="
  const MARKER_END := " -->"

  function MarkerFor(id: string): string {
    FINDING_PREFIX + id + MARKER_END
  }

  /** The id that a finding marker at the start of `s` names. */
  function MarkerAt(s: string): (r: Option<string>)
    ensures r.Some? ==> IsFindingId(r.value) && MarkerFor(r.value) <= s
  {
    if !(FINDING_PREFIX <= s) then None
    else
      var rest := s[|FINDING_PREFIX|..];
      if |rest| < 9 then None
      else
        var id := rest[..9 + DigitRun(rest[9..])];
        if IsFindingId(id) && MarkerFor(id) <= s then Some(id) else None
  }

  /** `_finding_marker_from_body`: the id of the first finding marker. */
  function FindingOf(body: string): Option<string> {
    if MarkerAt(body).Some? then MarkerAt(body)
    else if body == "" then None
    else FindingOf(body[1..])
  }

  /** A body that starts with a finding's marker belongs to that finding. */
  lemma MarkerFirst(id: string, body: string)
    requires IsFindingId(id) && MarkerFor(id) <= body
    ensures FindingOf(body) == Some(id)
  {
    var tail := body[|MarkerFor(id)|..];
    assert body == MarkerFor(id) + tail;
    var rest := body[|FINDING_PREFIX|..];
    assert rest == id + (MARKER_END + tail);
    assert rest[9..] == id[9..] + (MARKER_END + tail);
    DigitRunOf(id[9..], MARKER_END + tail);
    assert rest[..|id|] == id;
    assert FINDING_PREFIX <= body;
  }

  // ---------------------------------------------------------------- searching lines

  lemma {:induction false} ContainsConcat(a: string, b: string, x: string)
    requires Contains(b, x)
    ensures Contains(a + b, x)
  {
    if a == "" {
      assert a + b == b;
    } else {
      assert (a + b)[1..] == a[1..] + b;
      ContainsConcat(a[1..], b, x);
    }
  }

  lemma {:induction false} ContainsPrefix(a: string, b: string, x: string)
    requires Contains(a, x) && a <= b
    ensures Contains(b, x)
  {
    if !(x <= a) {
      assert a[1..] <= b[1..];
      ContainsPrefix(a[1..], b[1..], x);
    }
  }

  /** A single line that occurs in two texts around a line break occurs in one of them. */
  lemma {:induction false} ContainsAround(a: string, b: string, x: string)
    requires OneLine(x) && Contains(a + "\n" + b, x) && x != ""
    ensures Contains(a, x) || Contains(b, x)
  {
    var s := a + "\n" + b;
    if x <= s {
      assert s[|a|] == '\n';
      assert forall i :: 0 <= i < |x| ==> x[i] == s[i];
      assert a == s[..|a|] && x == s[..|x|];
      assert x <= a;
    } else if a == "" {
      assert s[1..] == b;
    } else {
      assert s[1..] == a[1..] + "\n" + b;
      ContainsAround(a[1..], b, x);
    }
  }

  ghost predicate Free(lines: seq<string>, x: string) {
    forall i :: 0 <= i < |lines| ==> !Contains(lines[i], x)
  }

  lemma {:induction false} JoinIsFree(lines: seq<string>, x: string)
    requires OneLine(x) && x != "" && Free(lines, x)
    ensures !Contains(Join(lines), x)
  {
    if |lines| > 1 {
      JoinIsFree(lines[1..], x);
      if Contains(Join(lines), x) {
        ContainsAround(lines[0], Join(lines[1..]), x);
      }
    }
  }

  lemma PartsAreFree(s: string, n: nat, next: nat, x: string)
    requires n <= next <= |s| && !Contains(s, x)
    ensures !Contains(s[..n], x) && !Contains(s[next..], x)
  {
    assert s[..n] <= s && s == s[..next] + s[next..];
    if Contains(s[..n], x) {
      ContainsPrefix(s[..n], s, x);
    }
    if Contains(s[next..], x) {
      ContainsConcat(s[..next], s[next..], x);
    }
  }

  lemma {:induction false} LinesAreFree(s: string, x: string)
    requires !Contains(s, x)
    ensures Free(SplitLines(s), x)
    decreases |s|
  {
    if s != "" {
      var n := LineEnd(s);
      if n < |s| {
        var next := if s[n] == '\r' && n + 1 < |s| && s[n + 1] == '\n' then n + 2 else n + 1;
        PartsAreFree(s, n, next, x);
        LinesAreFree(s[next..], x);
        assert SplitLines(s) == [s[..n]] + SplitLines(s[next..]);
      }
    }
  }

  // ---------------------------------------------------------------- preserved bodies

  ghost function FreeRow(x: string): (string, string) -> bool {
    (key: string, row: string) => !Contains(row, x)
  }

  lemma {:induction false} PreviousRowsAreFree(lines: seq<string>, x: string)
    requires Free(lines, x)
    ensures All(PreviousRows(lines), FreeRow(x))
  {
    if lines != [] {
      var n := |lines| - 1;
      PreviousRowsAreFree(lines[..n], x);
      PutAll(PreviousRows(lines[..n]), RowKey(lines[n]), lines[n], FreeRow(x));
    }
  }

  lemma {:induction false} PreservedAreFree(lines: seq<string>, previous: Dict, x: string)
    requires All(previous, FreeRow(x))
    ensures All(Preserved(lines, previous), FreeRow(x))
  {
    if lines != [] {
      var n := |lines| - 1;
      var key := RowKey(lines[n]);
      PreservedAreFree(lines[..n], previous, x);
      if "| `" <= lines[n] && Get(previous, key).Some? {
        GetAll(previous, key, FreeRow(x));
        PutAll(Preserved(lines[..n], previous), KeyTarget(key), Get(previous, key).value, FreeRow(x));
      }
    }
  }

  lemma {:induction false} ReplaceRowIsFree(line: string, d: Dict, x: string)
    requires !Contains(line, x) && All(d, FreeRow(x))
    ensures !Contains(ReplaceRow(line, d), x)
  {
    if d != [] {
      assert FreeRow(x)(d[0].0, d[0].1);
      ReplaceRowIsFree(line, d[1..], x);
    }
  }

  lemma EditedIsFree(lines: seq<string>, d: Dict, start: nat, end: nat, x: string)
    requires start < end < |lines| && OneLine(x) && x != "" && Free(lines, x) && All(d, FreeRow(x))
      && x[|x| - 1] != '\n'
    ensures !Contains(RStrip(Join(EditLines(lines, d, start, end))) + "\n", x)
  {
    var edited := EditLines(lines, d, start, end);
    forall i | 0 <= i < |edited| ensures !Contains(edited[i], x) {
      ReplaceRowIsFree(lines[i], d, x);
    }
    JoinIsFree(edited, x);
    var text := RStrip(Join(edited));
    if Contains(text + "\n", x) {
      assert text + "\n" + "" == text + "\n";
      ContainsAround(text, "", x);
      if Contains(text, x) {
        ContainsPrefix(text, Join(edited), x);
      }
    }
  }

  /** An edit with rows free of `x` brings no `x` into a body. */
  lemma ReplacedIsFree(body: string, d: Dict, x: string)
    requires OneLine(x) && x != "" && !Contains(body, x) && All(d, FreeRow(x)) && Replaced(body, d).Success?
    ensures !Contains(Replaced(body, d).value, x)
  {
    var lines := SplitLines(body);
    LinesAreFree(body, x);
    if TABLE_START in lines && TABLE_END in lines {
      var start := FirstIndex(lines, TABLE_START, 0).value;
      var end := FirstIndex(lines, TABLE_END, start).value;
      EditedIsFree(lines, d, start, end, x);
    }
  }

  /** No marker enters a body with the rows that are carried over. */
  lemma PreservedBodyIsFree(body: string, previous: string, x: string)
    requires OneLine(x) && x != "" && !Contains(body, x) && !Contains(previous, x) && Preserve(body, previous).Success?
    ensures !Contains(Preserve(body, previous).value, x)
  {
    var lines, before := SplitLines(body), SplitLines(previous);
    LinesAreFree(previous, x);
    PreviousRowsAreFree(before, x);
    PreservedAreFree(lines, PreviousRows(before), x);
    ReplacedIsFree(body, Preserved(lines, PreviousRows(before)), x);
  }

  lemma FirstLineOf(first: string, rest: string)
    requires OneLine(first)
    ensures var lines := SplitLines(first + ("\n" + rest)); lines != [] && lines[0] == first
  {
    LineEndAt(first, "\n" + rest);
    assert (first + ("\n" + rest))[..|first|] == first;
  }

  lemma RStripKeepsInk(first: string, text: string)
    requires first != "" && !IsSpace(first[|first| - 1]) && first <= text
    ensures first <= RStrip(text)
  {
    var more := text[|first|..];
    assert text == first + more;
    RStripAppend(first, more);
  }

  /** The first line of a body survives being carried over to. */
  lemma PreservedKeepsFirstLine(body: string, previous: string, first: string, rest: string)
    requires body == first + ("\n" + rest) && OneLine(first) && first != "" && first != TABLE_START
    requires !IsSpace(first[|first| - 1]) && Preserve(body, previous).Success?
    ensures first <= Preserve(body, previous).value
  {
    ReplacedKeepsFirstLine(body, Preserved(SplitLines(body), PreviousRows(SplitLines(previous))), first, rest);
  }

  /** It survives every edit of the table. */
  lemma ReplacedKeepsFirstLine(body: string, d: Dict, first: string, rest: string)
    requires body == first + ("\n" + rest) && OneLine(first) && first != "" && first != TABLE_START
    requires !IsSpace(first[|first| - 1]) && Replaced(body, d).Success?
    ensures first <= Replaced(body, d).value
  {
    var lines := SplitLines(body);
    FirstLineOf(first, rest);
    if TABLE_START in lines && TABLE_END in lines {
      var start := FirstIndex(lines, TABLE_START, 0).value;
      var end := FirstIndex(lines, TABLE_END, start).value;
      var edited := EditLines(lines, d, start, end);
      assert edited[0] == first && first <= Join(edited);
      RStripKeepsInk(first, Join(edited));
    }
  }
}
