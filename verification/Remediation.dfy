/**
 `ensure_audit_remediation` of `agricola/audit.py`: the command section of a finding issue is rendered
 anew behind what precedes it, and recorded state is carried over from the old body.
 */
module Remediation {
  import opened Wrappers
  import opened TextLines
  import opened PropagationTable
  import opened PropagationEdits
  import opened PropagationReader
  import opened PropagationRender

  const HEADING_OLD := "\n## Agricola remediation\n"
  const HEADING_COMMANDS := "\n## Available `/ag` commands\n"
  const HEADING_ACTION := "\n## How to action\n"

  /** `body.find(x)`, or the length of the body. */
  function FindOrEnd(body: string, x: string): (i: nat)
    ensures i <= |body|
  {
    if body == "" || x <= body then 0 else 1 + FindOrEnd(body[1..], x)
  }

  function Min(a: nat, b: nat): (m: nat)
    ensures m == a || m == b
  {
    if a < b then a else b
  }

  /** What precedes the first of the headings, without the blanks at its end. */
  function Prefix(body: string): string {
    RStrip(body[..Min(FindOrEnd(body, HEADING_OLD),
      Min(FindOrEnd(body, HEADING_COMMANDS), FindOrEnd(body, HEADING_ACTION)))])
  }

  function Updated(body: string, section: string): string {
    Prefix(body) + ("\n" + ("\n" + (section + "\n")))
  }

  function Ensured(body: string, section: string): Result<string> {
    Preserve(Updated(body, section), body)
  }

  method EnsureAuditRemediation(body: string, section: string) returns (r: Result<string>)
    ensures r == Ensured(body, section)
  {
    r := PreservePropagationState(Updated(body, section), body);
  }

  // ---------------------------------------------------------------- its lines

  /** Where the line after a line break starts. */
  function AfterBreak(s: string, n: nat): (m: nat)
    requires n < |s|
    ensures n < m <= |s|
  {
    if s[n] == '\r' && n + 1 < |s| && s[n + 1] == '\n' then n + 2 else n + 1
  }

  lemma {:induction false} SplitStep(s: string, n: nat)
    requires LineEnd(s) == n < |s|
    ensures SplitLines(s) == [s[..n]] + SplitLines(s[AfterBreak(s, n)..])
  {
  }

  lemma TakeInFront(a: string, c: string, n: nat)
    requires n <= |a|
    ensures (a + c)[..n] == a[..n]
  {
  }

  lemma DropInFront(a: string, c: string, n: nat)
    requires n <= |a|
    ensures (a + c)[n..] == a[n..] + c
  {
  }

  lemma TakeAndDrop(a: string, c: string, n: nat)
    requires n <= |a|
    ensures a[..n] + (a[n..] + c) == a + c
  {
  }

  lemma LineEndInFront(a: string, c: string, n: nat)
    requires LineEnd(a) == n < |a|
    ensures LineEnd(a + c) == n
  {
    LineEndAt(a[..n], a[n..] + c);
    TakeAndDrop(a, c, n);
  }

  /** The first line break of `a` is that of `a + c`, if `a` goes on after it. */
  lemma BreakInFront(a: string, c: string, n: nat)
    requires LineEnd(a) == n && n + 1 < |a|
    ensures LineEnd(a + c) == n && AfterBreak(a + c, n) == AfterBreak(a, n)
    ensures (a + c)[..n] == a[..n] && (a + c)[AfterBreak(a, n)..] == a[AfterBreak(a, n)..] + c
  {
    LineEndInFront(a, c, n);
    assert (a + c)[n] == a[n] && (a + c)[n + 1] == a[n + 1];
    TakeInFront(a, c, n);
    DropInFront(a, c, AfterBreak(a, n));
  }

  lemma OneMoreLine(a: string, b: string)
    requires a != "" && LineEnd(a) == |a|
    ensures SplitLines(a) == [a] && SplitLines(a + ("\n" + b)) == [a] + SplitLines(b)
  {
    var s := a + ("\n" + b);
    assert a[..|a|] == a;
    LineEndAt(a, "\n" + b);
    assert s[|a|] == '\n' && s[..|a|] == a && s[|a| + 1..] == b;
    SplitStep(s, |a|);
  }

  lemma SplitThrough(a: string, c: string, n: nat, more: seq<string>)
    requires LineEnd(a) == n && n + 1 < |a|
    requires SplitLines(a[AfterBreak(a, n)..] + c) == SplitLines(a[AfterBreak(a, n)..]) + more
    ensures SplitLines(a + c) == SplitLines(a) + more
  {
    BreakInFront(a, c, n);
    SplitStep(a, n);
    SplitStep(a + c, n);
    FirstAndRest([a[..n]], SplitLines(a[AfterBreak(a, n)..]), more);
  }

  lemma FirstAndRest(x: seq<string>, y: seq<string>, z: seq<string>)
    ensures x + (y + z) == (x + y) + z
  {
  }

  lemma {:induction false} SplitConcat(a: string, b: string)
    requires a != "" && !IsBreak(a[|a| - 1])
    ensures SplitLines(a + ("\n" + b)) == SplitLines(a) + SplitLines(b)
    decreases |a|
  {
    var n := LineEnd(a);
    if n == |a| {
      OneMoreLine(a, b);
    } else {
      var m := AfterBreak(a, n);
      assert IsBreak(a[n]) && (m == n + 2 ==> IsBreak(a[n + 1]));
      assert a[m..][|a| - m - 1] == a[|a| - 1];
      SplitConcat(a[m..], b);
      SplitThrough(a, "\n" + b, n, SplitLines(b));
    }
  }

  lemma BreakIsSpace(c: char)
    ensures IsBreak(c) ==> IsSpace(c)
  {
  }

  lemma BlankLine(b: string)
    ensures SplitLines("\n" + b) == [""] + SplitLines(b)
  {
    var s := "\n" + b;
    assert s[..0] == "" && s[1..] == b;
    assert LineEnd(s) == 0;
  }

  /** The lines of the updated body: those of the prefix, a blank one, and the section. */
  lemma UpdatedLines(body: string, section: seq<string>)
    requires Prefix(body) != "" && section != [] && OneLineEach(section)
    ensures SplitLines(Updated(body, Join(section))) == SplitLines(Prefix(body)) + ([""] + section)
  {
    var p := Prefix(body);
    BreakIsSpace(p[|p| - 1]);
    SplitConcat(p, "\n" + (Join(section) + "\n"));
    BlankLine(Join(section) + "\n");
    SplitOfJoin(section);
  }

  // ---------------------------------------------------------------- the state stays

  /** The lines before the table. */
  function Above(body: string, head: seq<string>): seq<string> {
    SplitLines(Prefix(body)) + ([""] + head)
  }

  /** A finding issue whose recorded state is in its table, and nothing like it before the section. */
  ghost predicate IsRemediated(body: string, start: nat, end: nat) {
    && IssueBody(SplitLines(body), start, end) && StateInTable(SplitLines(body), start, end)
    && Prefix(body) != "" && ProseEach(SplitLines(Prefix(body)))
  }

  function Section(r: Rendering, head: seq<string>, tail: seq<string>): seq<string> {
    head + RenderedTable(r) + tail
  }

  lemma UpdatedIsBody(body: string, r: Rendering, head: seq<string>, tail: seq<string>)
    requires Prefix(body) != "" && ProseEach(head) && ProseEach(tail) && ValidRendering(r)
    ensures SplitLines(Updated(body, Join(Section(r, head, tail)))) == BodyLines(r, Above(body, head), tail)
  {
    SectionIsOneLine(r, head, tail);
    UpdatedLines(body, Section(r, head, tail));
    RegroupLines(SplitLines(Prefix(body)), [""], head, RenderedTable(r), tail);
  }

  lemma AboveIsProse(body: string, head: seq<string>)
    requires ProseEach(SplitLines(Prefix(body))) && ProseEach(head)
    ensures ProseEach(Above(body, head))
  {
    BlankIsProse();
  }

  lemma UpdatedIsIssueBody(body: string, r: Rendering, head: seq<string>, tail: seq<string>)
    requires Prefix(body) != "" && ProseEach(SplitLines(Prefix(body))) && ProseEach(head) && ProseEach(tail)
      && ValidRendering(r)
    ensures var lines := SplitLines(Updated(body, Join(Section(r, head, tail)))); var above := Above(body, head);
      && IssueBody(lines, |above|, EndOf(r, above)) && lines[|above| + 1..EndOf(r, above)] == Inside(r)
  {
    UpdatedIsBody(body, r, head, tail);
    AboveIsProse(body, head);
    LinesAreIssueBody(SplitLines(Updated(body, Join(Section(r, head, tail)))), r, Above(body, head), tail);
  }

  lemma LinesAreIssueBody(lines: seq<string>, r: Rendering, above: seq<string>, tail: seq<string>)
    requires lines == BodyLines(r, above, tail) && ValidRendering(r) && ProseEach(above) && ProseEach(tail)
    ensures IssueBody(lines, |above|, EndOf(r, above)) && lines[|above| + 1..EndOf(r, above)] == Inside(r)
  {
    RenderedIsIssueBody(r, above, tail);
    BodyInside(r, above, tail);
  }

  lemma RegroupLines(p: seq<string>, blank: seq<string>, head: seq<string>, table: seq<string>, tail: seq<string>)
    ensures p + (blank + (head + table + tail)) == (p + (blank + head)) + table + tail
  {
  }

  lemma BlankIsProse()
    ensures Prose("")
  {
  }

  lemma SectionIsOneLine(r: Rendering, head: seq<string>, tail: seq<string>)
    requires ProseEach(head) && ProseEach(tail) && ValidRendering(r)
    ensures OneLineEach(Section(r, head, tail)) && Section(r, head, tail) != []
  {
    assert Section(r, head, tail) == BodyLines(r, head, tail);
    BodyHasTable(r, head, tail);
  }

  /**
   Rendering the section anew keeps, for every target it shows, the state the old table showed, and
   the new body is again one whose recorded state is in its table.
   */
  lemma EnsuredKeepsState(
      body: string, start: nat, end: nat, r: Rendering, head: seq<string>, tail: seq<string>)
    requires IsRemediated(body, start, end) && ProseEach(head) && ProseEach(tail) && ValidRendering(r)
    ensures var above := Above(body, head); var e := Ensured(body, Join(Section(r, head, tail)));
      && e.Success? && HasTableIn(e.value, |above|, EndOf(r, above))
      && IssueBody(SplitLines(e.value), |above|, EndOf(r, above))
      && View(Rows(e.value, |above|, EndOf(r, above))) == CarryOver(View(Inside(r)), View(Rows(body, start, end)))
  {
    var above := Above(body, head);
    var updated := Updated(body, Join(Section(r, head, tail)));
    UpdatedIsIssueBody(body, r, head, tail);
    RegenerationKeepsState(updated, body, |above|, EndOf(r, above), start, end);
    PreserveKeepsBody(updated, body, |above|, EndOf(r, above));
  }

  /** Carrying state over keeps an issue body one. */
  lemma PreserveKeepsBody(body: string, previous: string, start: nat, end: nat)
    requires IssueBody(SplitLines(body), start, end) && StateRowsOnly(SplitLines(previous))
    ensures Preserve(body, previous).Success? && IssueBody(SplitLines(Preserve(body, previous).value), start, end)
  {
    var d := Preserved(SplitLines(body), PreviousRows(SplitLines(previous)));
    PreservedAre(SplitLines(body), SplitLines(previous), "");
    ReplaceIsMapUpdate(body, d, start, end);
    EditKeepsBody(SplitLines(body), SplitLines(Preserve(body, previous).value), start, end, d);
  }

  lemma RecordedIsRows(body: string, start: nat, end: nat)
    requires IssueBody(SplitLines(body), start, end)
    ensures HasTableIn(body, start, end) && Recorded(SplitLines(body)) == References(View(Rows(body, start, end)))
  {
    RecordedIsView(SplitLines(body), start, end);
  }

  lemma RecordedOfEnsured(
      body: string, start: nat, end: nat, r: Rendering, head: seq<string>, tail: seq<string>)
    requires IsRemediated(body, start, end) && ProseEach(head) && ProseEach(tail) && ValidRendering(r)
    ensures var e := Ensured(body, Join(Section(r, head, tail))); var before := View(Rows(body, start, end));
      && e.Success? && Recorded(SplitLines(body)) == References(before)
      && Recorded(SplitLines(e.value)) == References(CarryOver(View(Inside(r)), before))
  {
    var above := Above(body, head);
    EnsuredKeepsState(body, start, end, r, head, tail);
    RecordedIsRows(body, start, end);
    RecordedIsRows(Ensured(body, Join(Section(r, head, tail))).value, |above|, EndOf(r, above));
  }

  /** Nothing recorded is lost for a target the new section shows. */
  lemma EnsuredKeepsRecorded(
      body: string, start: nat, end: nat, r: Rendering, head: seq<string>, tail: seq<string>, t: string)
    requires IsRemediated(body, start, end) && ProseEach(head) && ProseEach(tail) && ValidRendering(r)
    requires t in View(Inside(r)) && t in Recorded(SplitLines(body))
    ensures var e := Ensured(body, Join(Section(r, head, tail)));
      e.Success? && t in Recorded(SplitLines(e.value))
        && Recorded(SplitLines(e.value))[t] == Recorded(SplitLines(body))[t]
  {
    RecordedOfEnsured(body, start, end, r, head, tail);
    CarriedOver(View(Inside(r)), View(Rows(body, start, end)), t);
  }

  /** A recorded reference is carried over. */
  lemma CarriedOver(shown: map<string, string>, before: map<string, string>, t: string)
    requires t in shown && t in References(before)
    ensures var after := References(CarryOver(shown, before)); t in after && after[t] == References(before)[t]
  {
    ReadIsState(before[t]);
  }
}
