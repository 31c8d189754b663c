/**
 The three edits of a propagation table: queueing, recording outcomes, and carrying recorded state
 over to a regenerated body; and the reader that finds recorded pull requests again.
 */
module PropagationEdits {
  import opened Wrappers
  import opened Text
  import opened TextLines
  import opened Dicts
  import opened PropagationTable

  const DASH := "\U{2014}"

  function QueuedRow(t: string): string {
    TableRow(t, "pr", "Queued", DASH)
  }

  /** What `record_propagation_outcomes` looks at in an outcome. */
  datatype TableOutcome =
    | Published(target: string, pr: string, url: string)
    | Skipped(target: string, reason: string)

  /** `reason.replace("|", "\\|")`. */
  function Escape(s: string): string {
    if s == "" then "" else (if s[0] == '|' then "\\|" else [s[0]]) + Escape(s[1..])
  }

  function OutcomeRow(o: TableOutcome): string {
    match o
    case Published(t, pr, url) => TableRow(t, "pr", "Recorded", "[" + pr + "](" + url + ")")
    case Skipped(t, reason) => TableRow(t, "pr", "Skipped " + DASH + " " + Escape(reason), DASH)
  }

  function QueuedRows(targets: seq<string>): Dict {
    if targets == [] then []
    else
      var n := |targets| - 1;
      Put(QueuedRows(targets[..n]), targets[n], QueuedRow(targets[n]))
  }

  function OutcomeRows(outcomes: seq<TableOutcome>): Dict {
    if outcomes == [] then []
    else
      var n := |outcomes| - 1;
      Put(OutcomeRows(outcomes[..n]), outcomes[n].target, OutcomeRow(outcomes[n]))
  }

  method QueuedPropagations(body: string, targets: seq<string>) returns (r: Result<string>)
    ensures r == Replaced(body, QueuedRows(targets))
  {
    r := ReplacePropagationRows(body, QueuedRows(targets));
  }

  method RecordPropagationOutcomes(body: string, outcomes: seq<TableOutcome>) returns (r: Result<string>)
    ensures r == Replaced(body, OutcomeRows(outcomes))
  {
    var replacements: Dict := [];
    for i := 0 to |outcomes|
      invariant replacements == OutcomeRows(outcomes[..i])
    {
      assert outcomes[..i + 1][..i] == outcomes[..i];
      replacements := Put(replacements, outcomes[i].target, OutcomeRow(outcomes[i]));
    }
    assert outcomes[..|outcomes|] == outcomes;
    r := ReplacePropagationRows(body, replacements);
  }

  // ---------------------------------------------------------------- queue and record as updates

  predicate IsRefChar(c: char) {
    'A' <= c <= 'Z' || 'a' <= c <= 'z' || '0' <= c <= '9' || c == '_' || c == '.' || c == '-'
  }

  function RefRun(s: string): (n: nat)
    ensures n <= |s|
  {
    if s != "" && IsRefChar(s[0]) then 1 + RefRun(s[1..]) else 0
  }

  /** `PullRequestRef`: owner, slash, name, hash, a positive number. */
  predicate IsReference(s: string) {
    var owner := RefRun(s);
    && 0 < owner < |s| && s[owner] == '/'
    && var rest := s[owner + 1..];
       var name := RefRun(rest);
       && 0 < name < |rest| && rest[name] == '#'
       && var number := rest[name + 1..];
          number != "" && AllDigits(number) && number[0] != '0'
  }

  /** Valid outcomes whose link or reason stays on one line. */
  ghost predicate ValidOutcome(o: TableOutcome) {
    && IsTarget(o.target)
    && match o
       case Published(_, pr, url) => IsReference(pr) && OneLine(pr) && OneLine(url)
       case Skipped(_, reason) => OneLine(reason)
  }

  lemma RowIsRow(t: string, mode: string, status: string, pr: string)
    requires IsTarget(t) && OneLine(mode) && OneLine(status) && OneLine(pr)
    ensures RowTarget(TableRow(t, mode, status, pr)) == Some(t) && OneLine(TableRow(t, mode, status, pr))
  {
    RowTargetExact(TableRow(t, mode, status, pr), t);
    assert OneLine(RowPrefix(t));
  }

  lemma {:induction false} EscapeOneLine(s: string)
    requires OneLine(s)
    ensures OneLine(Escape(s))
  {
    if s != "" {
      EscapeOneLine(s[1..]);
    }
  }

  lemma OutcomeRowIsRow(o: TableOutcome)
    requires ValidOutcome(o)
    ensures RowTarget(OutcomeRow(o)) == Some(o.target) && OneLine(OutcomeRow(o))
  {
    match o
    case Published(t, pr, url) => RowIsRow(t, "pr", "Recorded", "[" + pr + "](" + url + ")");
    case Skipped(t, reason) =>
      EscapeOneLine(reason);
      RowIsRow(t, "pr", "Skipped " + DASH + " " + Escape(reason), DASH);
  }

  /** The last outcome for `t`. */
  function LastOutcome(outcomes: seq<TableOutcome>, t: string): (r: Option<TableOutcome>)
    ensures r.Some? ==> r.value in outcomes && r.value.target == t
    ensures r.None? ==> forall o :: o in outcomes ==> o.target != t
  {
    if outcomes == [] then None
    else
      var n := |outcomes| - 1;
      assert outcomes == outcomes[..n] + [outcomes[n]];
      if outcomes[n].target == t then Some(outcomes[n]) else LastOutcome(outcomes[..n], t)
  }

  /** `queue`: the shown targets among `targets` become queued. */
  function Queue(view: map<string, string>, targets: seq<string>): map<string, string> {
    map t | t in view :: if t in targets then QueuedRow(t) else view[t]
  }

  /** `record`: each shown target takes its last outcome. */
  function Record(view: map<string, string>, outcomes: seq<TableOutcome>): map<string, string> {
    map t | t in view ::
      if LastOutcome(outcomes, t).Some? then OutcomeRow(LastOutcome(outcomes, t).value) else view[t]
  }

  lemma {:induction false} QueuedRowsAre(targets: seq<string>, t: string)
    requires forall i :: 0 <= i < |targets| ==> IsTarget(targets[i])
    ensures IsUpdate(QueuedRows(targets))
    ensures Get(QueuedRows(targets), t) == if t in targets then Some(QueuedRow(t)) else None
  {
    if targets != [] {
      var n := |targets| - 1;
      var d := QueuedRows(targets[..n]);
      assert targets == targets[..n] + [targets[n]];
      QueuedRowsAre(targets[..n], t);
      RowIsRow(targets[n], "pr", "Queued", DASH);
      PutUpdate(d, targets[n], QueuedRow(targets[n]));
      PutGet(d, targets[n], QueuedRow(targets[n]), t);
    }
  }

  lemma {:induction false} OutcomeRowsAre(outcomes: seq<TableOutcome>, t: string)
    requires forall i :: 0 <= i < |outcomes| ==> ValidOutcome(outcomes[i])
    ensures IsUpdate(OutcomeRows(outcomes))
    ensures Get(OutcomeRows(outcomes), t) ==
      if LastOutcome(outcomes, t).Some? then Some(OutcomeRow(LastOutcome(outcomes, t).value)) else None
  {
    if outcomes != [] {
      var n := |outcomes| - 1;
      var d := OutcomeRows(outcomes[..n]);
      OutcomeRowsAre(outcomes[..n], t);
      OutcomeRowIsRow(outcomes[n]);
      PutUpdate(d, outcomes[n].target, OutcomeRow(outcomes[n]));
      PutGet(d, outcomes[n].target, OutcomeRow(outcomes[n]), t);
    }
  }

  lemma QueueAgrees(view: map<string, string>, targets: seq<string>)
    requires forall i :: 0 <= i < |targets| ==> IsTarget(targets[i])
    ensures Override(view, QueuedRows(targets)) == Queue(view, targets)
  {
    forall t | t in view ensures Override(view, QueuedRows(targets))[t] == Queue(view, targets)[t] {
      QueuedRowsAre(targets, t);
    }
  }

  lemma RecordAgrees(view: map<string, string>, outcomes: seq<TableOutcome>)
    requires forall i :: 0 <= i < |outcomes| ==> ValidOutcome(outcomes[i])
    ensures Override(view, OutcomeRows(outcomes)) == Record(view, outcomes)
  {
    forall t | t in view ensures Override(view, OutcomeRows(outcomes))[t] == Record(view, outcomes)[t] {
      OutcomeRowsAre(outcomes, t);
    }
  }

  /** Queueing acts on the map, and only on the table. */
  lemma QueueIsMapUpdate(body: string, targets: seq<string>, start: nat, end: nat)
    requires HasTableIn(body, start, end) && forall i :: 0 <= i < |targets| ==> IsTarget(targets[i])
    ensures Replaced(body, QueuedRows(targets)).Success?
    ensures var r := Replaced(body, QueuedRows(targets)).value;
      && Edited(SplitLines(body), SplitLines(r), start, end)
      && View(Rows(r, start, end)) == Queue(View(Rows(body, start, end)), targets)
  {
    var d := QueuedRows(targets);
    QueuedRowsAre(targets, "");
    ReplaceIsMapUpdate(body, d, start, end);
    QueueAgrees(View(Rows(body, start, end)), targets);
  }

  /** Recording acts on the map, and only on the table. */
  lemma RecordIsMapUpdate(body: string, outcomes: seq<TableOutcome>, start: nat, end: nat)
    requires HasTableIn(body, start, end) && forall i :: 0 <= i < |outcomes| ==> ValidOutcome(outcomes[i])
    ensures Replaced(body, OutcomeRows(outcomes)).Success?
    ensures var r := Replaced(body, OutcomeRows(outcomes)).value;
      && Edited(SplitLines(body), SplitLines(r), start, end)
      && View(Rows(r, start, end)) == Record(View(Rows(body, start, end)), outcomes)
  {
    var d := OutcomeRows(outcomes);
    OutcomeRowsAre(outcomes, "");
    ReplaceIsMapUpdate(body, d, start, end);
    RecordAgrees(View(Rows(body, start, end)), outcomes);
  }

  // ---------------------------------------------------------------- preserving

  /** `line.split(" |", 1)[0]`. */
  function RowKey(line: string): string {
    if line == "" || " |" <= line then "" else [line[0]] + RowKey(line[1..])
  }

  /** `key.removeprefix("| `").removesuffix("`")`. */
  function KeyTarget(key: string): string {
    var t := if "| `" <= key then key[3..] else key;
    if t != "" && t[|t| - 1] == '`' then t[..|t| - 1] else t
  }

  predicate HasState(line: string) {
    Contains(line, "| Queued |") || Contains(line, "| Recorded |") || Contains(line, "| Skipped " + DASH)
  }

  predicate IsStateLine(line: string) {
    "| `" <= line && HasState(line)
  }

  /** `previous_rows`. */
  function PreviousRows(lines: seq<string>): Dict {
    if lines == [] then []
    else
      var n := |lines| - 1;
      var d := PreviousRows(lines[..n]);
      if IsStateLine(lines[n]) then Put(d, RowKey(lines[n]), lines[n]) else d
  }

  /** The replacements of `preserve_propagation_state`. */
  function Preserved(lines: seq<string>, previous: Dict): Dict {
    if lines == [] then []
    else
      var n := |lines| - 1;
      var d := Preserved(lines[..n], previous);
      var key := RowKey(lines[n]);
      if "| `" <= lines[n] && Get(previous, key).Some? then Put(d, KeyTarget(key), Get(previous, key).value) else d
  }

  function Preserve(body: string, previous: string): Result<string> {
    Replaced(body, Preserved(SplitLines(body), PreviousRows(SplitLines(previous))))
  }

  method PreservePropagationState(body: string, previous: string) returns (r: Result<string>)
    ensures r == Preserve(body, previous)
  {
    var lines, before := SplitLines(body), SplitLines(previous);
    var previousRows: Dict := [];
    for i := 0 to |before|
      invariant previousRows == PreviousRows(before[..i])
    {
      assert before[..i + 1][..i] == before[..i];
      if IsStateLine(before[i]) {
        previousRows := Put(previousRows, RowKey(before[i]), before[i]);
      }
    }
    assert before[..|before|] == before;
    var replacements: Dict := [];
    for i := 0 to |lines|
      invariant replacements == Preserved(lines[..i], previousRows)
    {
      assert lines[..i + 1][..i] == lines[..i];
      if "| `" <= lines[i] {
        var key := RowKey(lines[i]);
        var row := Get(previousRows, key);
        if row.Some? {
          replacements := Put(replacements, KeyTarget(key), row.value);
        }
      }
    }
    assert lines[..|lines|] == lines;
    r := ReplacePropagationRows(body, replacements);
  }

  /** Every line that looks like recorded state is a row of a target. */
  ghost predicate StateRowsOnly(lines: seq<string>) {
    forall i :: 0 <= i < |lines| && IsStateLine(lines[i]) ==> RowTarget(lines[i]).Some?
  }

  /** The last state row of `t`. */
  function LastState(lines: seq<string>, t: string): (r: Option<string>)
    ensures r.Some? ==> r.value in lines && IsStateLine(r.value) && RowTarget(r.value) == Some(t)
    ensures r.None? ==> forall l :: l in lines && IsStateLine(l) ==> RowTarget(l) != Some(t)
  {
    if lines == [] then None
    else
      var n := |lines| - 1;
      assert lines == lines[..n] + [lines[n]];
      if IsStateLine(lines[n]) && RowTarget(lines[n]) == Some(t) then Some(lines[n]) else LastState(lines[..n], t)
  }

  /** `preserve`: a shown target with recorded state keeps its previous row. */
  function KeepState(view: map<string, string>, previous: seq<string>): map<string, string> {
    map t | t in view :: if LastState(previous, t).Some? then LastState(previous, t).value else view[t]
  }

  function KeyOf(t: string): string {
    "| `" + t + "`"
  }

  lemma {:induction false} RowKeyCut(a: string, rest: string)
    requires a != "" ==> a[|a| - 1] != ' '
    requires forall i :: 0 <= i < |a| - 1 ==> !(a[i] == ' ' && a[i + 1] == '|')
    ensures RowKey(a + (" |" + rest)) == a
  {
    var line := a + (" |" + rest);
    if a != "" {
      assert line[0] == a[0] && line[1] == if |a| > 1 then a[1] else ' ';
      RowKeyCut(a[1..], rest);
      assert line[1..] == a[1..] + (" |" + rest);
    }
  }

  lemma RowKeyOfRow(line: string, t: string)
    requires RowTarget(line) == Some(t)
    ensures RowKey(line) == KeyOf(t) && KeyTarget(RowKey(line)) == t && "| `" <= line
  {
    RowTargetExact(line, t);
    var rest := line[|RowPrefix(t)|..];
    assert RowPrefix(t) == KeyOf(t) + " |";
    assert line == RowPrefix(t) + rest;
    assert line == KeyOf(t) + (" |" + rest);
    RowKeyCut(KeyOf(t), rest);
    assert KeyOf(t)[3..] == t + "`";
  }

  lemma KeyOfInjective(t: string, u: string)
    ensures KeyOf(t) == KeyOf(u) ==> t == u
  {
    assert KeyOf(t)[3..|KeyOf(t)| - 1] == t && KeyOf(u)[3..|KeyOf(u)| - 1] == u;
  }

  /** `previous_rows` holds, under a target's key, its last state row; and no other keys. */
  lemma {:induction false} PreviousRowsAre(lines: seq<string>, key: string, t: string)
    requires StateRowsOnly(lines)
    ensures Get(PreviousRows(lines), KeyOf(t)) == LastState(lines, t)
    ensures Get(PreviousRows(lines), key).Some? ==> exists u :: IsTarget(u) && key == KeyOf(u)
  {
    if lines != [] {
      var n := |lines| - 1;
      PreviousRowsAre(lines[..n], key, t);
      if IsStateLine(lines[n]) {
        var u := RowTarget(lines[n]).value;
        RowKeyOfRow(lines[n], u);
        KeyOfInjective(t, u);
        PutGet(PreviousRows(lines[..n]), RowKey(lines[n]), lines[n], KeyOf(t));
        PutGet(PreviousRows(lines[..n]), RowKey(lines[n]), lines[n], key);
      }
    }
  }

  predicate Mentions(lines: seq<string>, t: string) {
    exists i :: 0 <= i < |lines| && "| `" <= lines[i] && RowKey(lines[i]) == KeyOf(t)
  }

  lemma MentionsLast(lines: seq<string>, t: string)
    requires lines != []
    ensures var n := |lines| - 1;
      Mentions(lines, t) <==> Mentions(lines[..n], t) || ("| `" <= lines[n] && RowKey(lines[n]) == KeyOf(t))
  {
    var n := |lines| - 1;
    if Mentions(lines[..n], t) {
      var i :| 0 <= i < n && "| `" <= lines[..n][i] && RowKey(lines[..n][i]) == KeyOf(t);
      assert lines[i] == lines[..n][i];
    }
    if i :| 0 <= i < n && "| `" <= lines[i] && RowKey(lines[i]) == KeyOf(t) {
      assert lines[..n][i] == lines[i];
    }
  }

  /** A line whose key is among the previous rows puts that target's last state row. */
  lemma PreviousRowOf(before: seq<string>, key: string) returns (u: string)
    requires StateRowsOnly(before) && OneLineEach(before) && Get(PreviousRows(before), key).Some?
    ensures key == KeyOf(u) && KeyTarget(key) == u && LastState(before, u) == Get(PreviousRows(before), key)
    ensures IsRowOf(u, Get(PreviousRows(before), key).value)
  {
    PreviousRowsAre(before, key, "");
    u :| IsTarget(u) && key == KeyOf(u);
    PreviousRowsAre(before, key, u);
    assert key[3..] == u + "`";
  }

  lemma {:induction false} PreservedAre(lines: seq<string>, before: seq<string>, t: string)
    requires StateRowsOnly(before) && OneLineEach(before)
    ensures var d := Preserved(lines, PreviousRows(before));
      IsUpdate(d) && Get(d, t) == if Mentions(lines, t) then LastState(before, t) else None
  {
    if lines != [] {
      var n := |lines| - 1;
      var previous := PreviousRows(before);
      var d := Preserved(lines[..n], previous);
      var key := RowKey(lines[n]);
      PreservedAre(lines[..n], before, t);
      MentionsLast(lines, t);
      if "| `" <= lines[n] && Get(previous, key).Some? {
        var u := PreviousRowOf(before, key);
        KeyOfInjective(t, u);
        PutGet(d, u, Get(previous, key).value, t);
        PutUpdate(d, u, Get(previous, key).value);
      } else if "| `" <= lines[n] && key == KeyOf(t) {
        PreviousRowsAre(before, key, t);
      }
    }
  }

  lemma {:induction false} ShownIsMentioned(rows: seq<string>, t: string)
    requires t in View(rows)
    ensures exists i :: 0 <= i < |rows| && RowTarget(rows[i]) == Some(t)
  {
    if RowTarget(rows[|rows| - 1]) != Some(t) {
      ShownIsMentioned(rows[..|rows| - 1], t);
      var i :| 0 <= i < |rows| - 1 && RowTarget(rows[..|rows| - 1][i]) == Some(t);
      assert rows[i] == rows[..|rows| - 1][i];
    }
  }

  lemma RowMentions(lines: seq<string>, i: nat, t: string)
    requires i < |lines| && RowTarget(lines[i]) == Some(t)
    ensures Mentions(lines, t)
  {
    RowKeyOfRow(lines[i], t);
  }

  lemma ShownIsPreserved(lines: seq<string>, before: seq<string>, start: nat, end: nat, t: string)
    requires start < end <= |lines| && StateRowsOnly(before) && OneLineEach(before) && t in View(lines[start + 1..end])
    ensures Get(Preserved(lines, PreviousRows(before)), t) == LastState(before, t)
  {
    var rows := lines[start + 1..end];
    ShownIsMentioned(rows, t);
    var i :| 0 <= i < |rows| && RowTarget(rows[i]) == Some(t);
    assert rows[i] == lines[start + 1 + i];
    RowMentions(lines, start + 1 + i, t);
    PreservedAre(lines, before, t);
  }

  lemma KeepAgrees(lines: seq<string>, before: seq<string>, start: nat, end: nat)
    requires start < end <= |lines| && StateRowsOnly(before) && OneLineEach(before)
    ensures var view := View(lines[start + 1..end]);
      Override(view, Preserved(lines, PreviousRows(before))) == KeepState(view, before)
  {
    var view := View(lines[start + 1..end]);
    forall t | t in view ensures Get(Preserved(lines, PreviousRows(before)), t) == LastState(before, t) {
      ShownIsPreserved(lines, before, start, end, t);
    }
  }

  /** Preserving acts on the map, and only on the table. */
  lemma PreserveIsMapUpdate(body: string, previous: string, start: nat, end: nat)
    requires HasTableIn(body, start, end) && StateRowsOnly(SplitLines(previous))
    ensures Preserve(body, previous).Success?
    ensures var r := Preserve(body, previous).value;
      && Edited(SplitLines(body), SplitLines(r), start, end)
      && View(Rows(r, start, end)) == KeepState(View(Rows(body, start, end)), SplitLines(previous))
  {
    var before := SplitLines(previous);
    PreservedAre(SplitLines(body), before, "");
    ReplaceIsMapUpdate(body, Preserved(SplitLines(body), PreviousRows(before)), start, end);
    KeepAgrees(SplitLines(body), before, start, end);
  }
}
