/**
 When carrying state over twice gives the same text as once (`preserve_propagation_state` of
 `agricola/planner.py`), for every previous body, also one whose rows somebody damaged.
 */
module PropagationSettled {
  import opened Wrappers
  import opened Text
  import opened TextLines
  import opened Dicts
  import opened PropagationTable
  import opened PropagationEdits

  // ---------------------------------------------------------------- keys

  /** No cut inside. */
  predicate Plain(s: string) {
    forall i :: 0 <= i < |s| - 1 ==> !(s[i] == ' ' && s[i + 1] == '|')
  }

  lemma {:induction false} RowKeyIsPlain(line: string)
    ensures RowKey(line) <= line && Plain(RowKey(line))
  {
    if line != "" && !(" |" <= line) {
      RowKeyIsPlain(line[1..]);
    }
  }

  lemma KeyStarts(line: string)
    requires "| `" <= line
    ensures "| `" <= RowKey(line)
  {
    var one := line[1..];
    var two := one[1..];
    assert line[0] == '|' && one[0] == ' ' && two[0] == one[1] == '`';
    assert RowKey(two) == ['`'] + RowKey(two[1..]);
    assert RowKey(one) == [' '] + RowKey(two);
    assert RowKey(line) == ['|'] + RowKey(one);
  }

  lemma {:induction false} RowKeyWhole(line: string)
    requires Plain(line)
    ensures RowKey(line) == line
  {
    if line != "" {
      if line[0] == ' ' && |line| > 1 {
        assert line[1] != '|';
      }
      RowKeyWhole(line[1..]);
    }
  }

  function TargetOf(line: string): string {
    KeyTarget(RowKey(line))
  }

  lemma TargetIsPlain(line: string)
    requires "| `" <= line
    ensures Plain(TargetOf(line))
  {
    RowKeyIsPlain(line);
    KeyStarts(line);
    var t := TargetOf(line);
    forall i | 0 <= i < |t| ensures t[i] == RowKey(line)[3 + i] {}
  }

  /** The prefix test of a row fits no other target. */
  lemma PrefixTarget(t: string, line: string)
    requires Plain(t) && RowPrefix(t) <= line
    ensures TargetOf(line) == t && RowKey(line) == KeyOf(t) && "| `" <= line
  {
    var rest := line[|RowPrefix(t)|..];
    assert RowPrefix(t) == KeyOf(t) + " |";
    assert line == RowPrefix(t) + rest;
    assert line == KeyOf(t) + (" |" + rest);
    RowKeyCut(KeyOf(t), rest);
    assert KeyOf(t)[3..] == t + "`";
  }

  // ---------------------------------------------------------------- the replacements

  ghost predicate Keyed(key: string, line: string) {
    "| `" <= line && OneLine(line) && RowKey(line) == key
  }

  lemma {:induction false} PreviousAreKeyed(before: seq<string>)
    requires OneLineEach(before)
    ensures All(PreviousRows(before), Keyed)
  {
    if before != [] {
      var n := |before| - 1;
      PreviousAreKeyed(before[..n]);
      if IsStateLine(before[n]) {
        PutAll(PreviousRows(before[..n]), RowKey(before[n]), before[n], Keyed);
      }
    }
  }

  ghost predicate PlainEntry(t: string, line: string) {
    Plain(t) && "| `" <= line && OneLine(line)
  }

  lemma {:induction false} PreservedEntries(lines: seq<string>, previous: Dict)
    requires All(previous, Keyed)
    ensures All(Preserved(lines, previous), PlainEntry)
  {
    if lines != [] {
      var n := |lines| - 1;
      var key := RowKey(lines[n]);
      PreservedEntries(lines[..n], previous);
      if "| `" <= lines[n] && Get(previous, key).Some? {
        GetAll(previous, key, Keyed);
        TargetIsPlain(lines[n]);
        PutAll(Preserved(lines[..n], previous), KeyTarget(key), Get(previous, key).value, PlainEntry);
      }
    }
  }

  lemma PreservedIsEdit(lines: seq<string>, previous: Dict)
    requires All(previous, Keyed)
    ensures IsEdit(Preserved(lines, previous))
  {
    PreservedEntries(lines, previous);
    var d := Preserved(lines, previous);
    forall i | 0 <= i < |d| ensures IsTableLine(d[i].0, d[i].1) {
      assert PlainEntry(d[i].0, d[i].1);
    }
  }

  lemma {:induction false} ReplaceByTarget(line: string, d: Dict)
    requires All(d, PlainEntry)
    ensures ReplaceRow(line, d) ==
      if RowPrefix(TargetOf(line)) <= line && Get(d, TargetOf(line)).Some? then Get(d, TargetOf(line)).value else line
  {
    if d != [] {
      assert PlainEntry(d[0].0, d[0].1);
      if RowPrefix(d[0].0) <= line {
        PrefixTarget(d[0].0, line);
      } else {
        ReplaceByTarget(line, d[1..]);
      }
    }
  }

  /** `line` puts a replacement for `t`. */
  predicate Puts(line: string, previous: Dict, t: string) {
    "| `" <= line && Get(previous, RowKey(line)).Some? && TargetOf(line) == t
  }

  lemma PreservedLast(lines: seq<string>, previous: Dict, t: string)
    requires lines != []
    ensures var n := |lines| - 1;
      Get(Preserved(lines, previous), t)
        == if Puts(lines[n], previous, t) then Get(previous, RowKey(lines[n]))
           else Get(Preserved(lines[..n], previous), t)
  {
    var n := |lines| - 1;
    var key := RowKey(lines[n]);
    if "| `" <= lines[n] && Get(previous, key).Some? {
      PutGet(Preserved(lines[..n], previous), KeyTarget(key), Get(previous, key).value, t);
    }
  }

  /** A replacement puts itself again. */
  ghost predicate PutsItself(line: string, previous: Dict, t: string) {
    Puts(line, previous, t) && Get(previous, RowKey(line)) == Some(line)
  }

  lemma {:induction false} KeptPutsItself(lines: seq<string>, previous: Dict, t: string)
    requires All(previous, Keyed) && Get(Preserved(lines, previous), t).Some?
    ensures PutsItself(Get(Preserved(lines, previous), t).value, previous, t)
  {
    var n := |lines| - 1;
    PreservedLast(lines, previous, t);
    if Puts(lines[n], previous, t) {
      GetAll(previous, RowKey(lines[n]), Keyed);
    } else {
      KeptPutsItself(lines[..n], previous, t);
    }
  }

  /** What the edit does to a line: nothing, or the replacement of its target. */
  ghost predicate Swapped(line: string, line': string, d: Dict) {
    line' == line || Get(d, TargetOf(line)) == Some(line')
  }

  /** The edited lines put the same replacements. */
  lemma {:induction false} SameSoFar(lines: seq<string>, lines': seq<string>, previous: Dict, d: Dict, t: string)
    requires |lines| == |lines'| && forall i :: 0 <= i < |lines| ==> Swapped(lines[i], lines'[i], d)
    requires forall u :: Get(d, u).Some? ==> PutsItself(Get(d, u).value, previous, u)
    ensures var now := Get(Preserved(lines', previous), t);
      now == Get(Preserved(lines, previous), t) || (now.Some? && now == Get(d, t))
    decreases |lines|
  {
    if lines != [] {
      var n := |lines| - 1;
      SameSoFar(lines[..n], lines'[..n], previous, d, t);
      PreservedLast(lines, previous, t);
      PreservedLast(lines', previous, t);
      assert Swapped(lines[n], lines'[n], d);
      if lines'[n] != lines[n] {
        assert PutsItself(lines'[n], previous, TargetOf(lines[n]));
      }
    }
  }

  lemma SameReplacements(lines: seq<string>, lines': seq<string>, previous: Dict, t: string)
    requires All(previous, Keyed) && |lines| == |lines'|
    requires forall i :: 0 <= i < |lines| ==> Swapped(lines[i], lines'[i], Preserved(lines, previous))
    ensures Get(Preserved(lines', previous), t) == Get(Preserved(lines, previous), t)
  {
    var d := Preserved(lines, previous);
    forall u | Get(d, u).Some? ensures PutsItself(Get(d, u).value, previous, u) {
      KeptPutsItself(lines, previous, u);
    }
    SameSoFar(lines, lines', previous, d, t);
  }

  /** An edited row is not edited again. */
  lemma RowStays(lines: seq<string>, lines': seq<string>, previous: Dict, i: nat)
    requires All(previous, Keyed) && i < |lines| == |lines'|
    requires forall i :: 0 <= i < |lines| ==> Swapped(lines[i], lines'[i], Preserved(lines, previous))
    requires lines'[i] == ReplaceRow(lines[i], Preserved(lines, previous))
    ensures ReplaceRow(lines'[i], Preserved(lines', previous)) == lines'[i]
  {
    PreservedEntries(lines, previous);
    PreservedEntries(lines', previous);
    ReplaceByTarget(lines[i], Preserved(lines, previous));
    ReplaceByTarget(lines'[i], Preserved(lines', previous));
    SameReplacements(lines, lines', previous, TargetOf(lines'[i]));
    if lines'[i] != lines[i] {
      KeptPutsItself(lines, previous, TargetOf(lines[i]));
    }
  }

  /** A row of the edited lines, which the edit itself would leave alone. */
  ghost predicate Steady(lines: seq<string>, previous: Dict, i: nat)
    requires i < |lines|
  {
    ReplaceRow(lines[i], Preserved(lines, previous)) == lines[i]
  }

  /** After the edit, every row is steady. */
  lemma RowsStay(lines: seq<string>, previous: Dict, start: nat, end: nat)
    requires All(previous, Keyed) && start < end < |lines|
    ensures forall i :: start < i < end ==>
      Steady(EditLines(lines, Preserved(lines, previous), start, end), previous, i)
  {
    var d := Preserved(lines, previous);
    var lines' := EditLines(lines, d, start, end);
    PreservedEntries(lines, previous);
    forall i | 0 <= i < |lines| ensures Swapped(lines[i], lines'[i], d) {
      ReplaceByTarget(lines[i], d);
    }
    forall i | start < i < end ensures Steady(lines', previous, i) {
      RowStays(lines, lines', previous, i);
    }
  }

  // ---------------------------------------------------------------- the last line

  /** How many lines there are up to the last one that is not blank. */
  function InkEnd(lines: seq<string>): (k: nat)
    ensures k <= |lines| && (k > 0 ==> RStrip(lines[k - 1]) != "")
  {
    if lines == [] then 0
    else if RStrip(lines[|lines| - 1]) == "" then InkEnd(lines[..|lines| - 1])
    else |lines|
  }

  lemma {:induction false} RStripLinesAt(lines: seq<string>)
    requires InkEnd(lines) > 0
    ensures var k := InkEnd(lines); RStripLines(lines) == lines[..k - 1] + [RStrip(lines[k - 1])]
  {
    var n := |lines| - 1;
    if RStrip(lines[n]) == "" {
      RStripLinesAt(lines[..n]);
      assert lines[..n][..InkEnd(lines) - 1] == lines[..InkEnd(lines) - 1];
    }
  }

  /** It depends on the lines from any line with ink on. */
  lemma {:induction false} InkEndSame(a: seq<string>, b: seq<string>, from: nat)
    requires from < |a| == |b| && (forall j :: from <= j < |a| ==> a[j] == b[j]) && RStrip(a[from]) != ""
    ensures InkEnd(a) == InkEnd(b) > from
    decreases |a|
  {
    var n := |a| - 1;
    if RStrip(a[n]) == "" {
      InkEndSame(a[..n], b[..n], from);
    }
  }

  lemma {:induction false} RStripTail(s: string, i: nat)
    requires |RStrip(s)| <= i < |s|
    ensures IsSpace(s[i])
  {
    if i < |s| - 1 {
      RStripTail(s[..|s| - 1], i);
    }
  }

  /** Stripping does not touch what makes a line look like a row. */
  lemma RowInk(line: string)
    ensures "| `" <= line <==> "| `" <= RStrip(line)
  {
    var cut := RStrip(line);
    if "| `" <= line {
      if |cut| < 3 {
        assert line[2] == '`';
        RStripTail(line, 2);
      }
      assert cut == line[..|cut|];
    }
  }

  lemma PlainInk(line: string)
    requires Plain(RStrip(line))
    ensures Plain(line)
  {
    var cut := RStrip(line);
    forall i | 0 <= i < |line| - 1 ensures !(line[i] == ' ' && line[i + 1] == '|') {
      if i + 1 < |cut| {
        assert cut[i] == line[i] && cut[i + 1] == line[i + 1];
      } else {
        RStripTail(line, i + 1);
      }
    }
  }

  lemma {:induction false} RowKeyPrefix(a: string, b: string)
    requires !Plain(a)
    ensures RowKey(a + b) == RowKey(a)
  {
    assert |a| > 1 && (a + b)[0] == a[0] && (a + b)[1] == a[1];
    if !(" |" <= a) {
      var i :| 0 <= i < |a| - 1 && a[i] == ' ' && a[i + 1] == '|';
      assert a[1..][i - 1] == ' ' && a[1..][i] == '|';
      RowKeyPrefix(a[1..], b);
      assert (a + b)[1..] == a[1..] + b;
    }
  }

  /** Only a line without a cut has another key when its blanks are gone. */
  lemma StrippedKey(line: string)
    ensures !Plain(RStrip(line)) ==> RowKey(RStrip(line)) == RowKey(line)
    ensures Plain(RStrip(line)) ==> RowKey(RStrip(line)) == RStrip(line) && RowKey(line) == line
  {
    var cut := RStrip(line);
    if Plain(cut) {
      PlainInk(line);
      RowKeyWhole(cut);
      RowKeyWhole(line);
    } else {
      RowKeyPrefix(cut, line[|cut|..]);
      assert cut + line[|cut|..] == line;
    }
  }

  lemma BlankPutsNothing(lines: seq<string>, previous: Dict, t: string)
    requires lines != [] && RStrip(lines[|lines| - 1]) == ""
    ensures Get(Preserved(lines, previous), t) == Get(Preserved(lines[..|lines| - 1], previous), t)
  {
    RowInk(lines[|lines| - 1]);
    PreservedLast(lines, previous, t);
  }

  /** Blank lines at the end put nothing. */
  lemma {:induction false} BlanksPutNothing(lines: seq<string>, previous: Dict, t: string)
    ensures Get(Preserved(lines, previous), t) == Get(Preserved(lines[..InkEnd(lines)], previous), t)
  {
    if lines == [] || RStrip(lines[|lines| - 1]) != "" {
      assert lines[..|lines|] == lines;
    } else {
      var k, init := InkEnd(lines), lines[..|lines| - 1];
      BlankPutsNothing(lines, previous, t);
      BlanksPutNothing(init, previous, t);
      assert init[..k] == lines[..k];
    }
  }

  /** What the lines put, by their last line with ink. */
  lemma LastPuts(lines: seq<string>, previous: Dict, t: string)
    requires InkEnd(lines) > 0
    ensures var k := InkEnd(lines); var last := lines[k - 1];
      && Get(Preserved(lines, previous), t)
           == (if Puts(last, previous, t) then Get(previous, RowKey(last))
               else Get(Preserved(lines[..k - 1], previous), t))
      && Get(Preserved(RStripLines(lines), previous), t)
           == (if Puts(RStrip(last), previous, t) then Get(previous, RowKey(RStrip(last)))
               else Get(Preserved(lines[..k - 1], previous), t))
  {
    var k := InkEnd(lines);
    var cut := RStripLines(lines);
    BlanksPutNothing(lines, previous, t);
    PreservedLast(lines[..k], previous, t);
    assert lines[..k][..k - 1] == lines[..k - 1];
    RStripLinesAt(lines);
    PreservedLast(cut, previous, t);
    assert cut[..k - 1] == lines[..k - 1];
  }

  // ---------------------------------------------------------------- one row, a second time

  /**
   Without the blanks at its end, `last` is the key of a recorded row that it was not before, and no
   row has that key: the closing backtick is missing.
   */
  predicate Reveals(last: string, previous: Dict) {
    var cut := RStrip(last);
    && cut != last && "| `" <= cut && Plain(cut) && Get(previous, cut).Some?
    && (|cut| == 3 || cut[|cut| - 1] != '`')
  }

  lemma {:induction false} MentionPuts(lines: seq<string>, previous: Dict, i: nat, t: string)
    requires i < |lines| && Puts(lines[i], previous, t)
    ensures Get(Preserved(lines, previous), t).Some?
  {
    PreservedLast(lines, previous, t);
    var n := |lines| - 1;
    if !Puts(lines[n], previous, t) {
      assert lines[..n][i] == lines[i];
      MentionPuts(lines[..n], previous, i, t);
    }
  }

  /** A replacement that does not change `row`. */
  predicate Agrees(put: Option<string>, row: string) {
    put.None? || put.value == row
  }

  /** What the next edit puts into a row. */
  lemma NextRow(lines: seq<string>, previous: Dict, i: nat)
    requires All(previous, Keyed) && i < |lines| && Steady(lines, previous, i)
    ensures var t := TargetOf(lines[i]); var next := Preserved(RStripLines(lines), previous);
      (ReplaceRow(lines[i], next) == lines[i]) <==> (RowPrefix(t) <= lines[i] ==> Agrees(Get(next, t), lines[i]))
    ensures var t := TargetOf(lines[i]);
      RowPrefix(t) <= lines[i] ==> Agrees(Get(Preserved(lines, previous), t), lines[i])
  {
    PreservedEntries(lines, previous);
    PreservedEntries(RStripLines(lines), previous);
    ReplaceByTarget(lines[i], Preserved(lines, previous));
    ReplaceByTarget(lines[i], Preserved(RStripLines(lines), previous));
  }

  lemma PlainRest(cut: string)
    requires Plain(cut) && |cut| >= 3
    ensures Plain(cut[3..])
  {
    assert forall j :: 0 <= j < |cut| - 3 ==> cut[3..][j] == cut[3 + j];
  }

  lemma BareTarget(cut: string)
    requires "| `" <= cut && (|cut| == 3 || cut[|cut| - 1] != '`')
    ensures KeyTarget(cut) == cut[3..] && cut != KeyOf(cut[3..])
  {
    assert |KeyOf(cut[3..])| == |cut| + 1;
  }

  lemma ClosedTarget(cut: string)
    requires "| `" <= cut && |cut| > 3 && cut[|cut| - 1] == '`'
    ensures cut == KeyOf(KeyTarget(cut))
  {
    assert cut[..3] == "| `" && cut[3..] == KeyTarget(cut) + "`";
    assert cut == cut[..3] + cut[3..];
  }

  lemma SteadyRow(lines: seq<string>, previous: Dict, i: nat, t: string)
    requires All(previous, Keyed) && i < |lines| && Steady(lines, previous, i) && RowPrefix(t) <= lines[i] && Plain(t)
    ensures Agrees(Get(Preserved(lines, previous), t), lines[i])
  {
    PrefixTarget(t, lines[i]);
    NextRow(lines, previous, i);
  }

  /** The last line has the same key without its blanks, or none: nothing changes. */
  lemma SameLast(lines: seq<string>, previous: Dict, t: string)
    requires InkEnd(lines) > 0
    requires var last := lines[InkEnd(lines) - 1]; var cut := RStrip(last);
      cut == last || !("| `" <= cut) || !Plain(cut)
    ensures Get(Preserved(RStripLines(lines), previous), t) == Get(Preserved(lines, previous), t)
  {
    var last := lines[InkEnd(lines) - 1];
    LastPuts(lines, previous, t);
    RowInk(last);
    StrippedKey(last);
  }

  lemma SteadyPutsItself(lines: seq<string>, previous: Dict, i: nat, t: string)
    requires All(previous, Keyed) && i < |lines| && Steady(lines, previous, i) && RowPrefix(t) <= lines[i] && Plain(t)
    requires Get(previous, KeyOf(t)).Some?
    ensures Get(previous, KeyOf(t)) == Some(lines[i])
  {
    PrefixTarget(t, lines[i]);
    NextRow(lines, previous, i);
    MentionPuts(lines, previous, i, t);
    KeptPutsItself(lines, previous, t);
  }

  /** A row of `t`, whose target the stripped last line names with a closing backtick: it has been put already. */
  lemma ClosedLast(lines: seq<string>, previous: Dict, i: nat, t: string)
    requires All(previous, Keyed) && i < InkEnd(lines) && Steady(lines, previous, i) && RowPrefix(t) <= lines[i]
      && Plain(t)
    requires var cut := RStrip(lines[InkEnd(lines) - 1]);
      cut == KeyOf(t) && Plain(cut) && Get(previous, cut).Some?
    ensures Get(Preserved(RStripLines(lines), previous), t) == Some(lines[i])
  {
    SteadyPutsItself(lines, previous, i, t);
    ClosedPuts(previous, t);
    PutByLast(lines, previous, t);
  }

  lemma ClosedPuts(previous: Dict, t: string)
    requires Plain(KeyOf(t)) && Get(previous, KeyOf(t)).Some?
    ensures RowKey(KeyOf(t)) == KeyOf(t) && Puts(KeyOf(t), previous, t)
  {
    RowKeyWhole(KeyOf(t));
    assert KeyOf(t)[3..] == t + "`";
  }

  lemma PutByLast(lines: seq<string>, previous: Dict, t: string)
    requires InkEnd(lines) > 0 && Puts(RStrip(lines[InkEnd(lines) - 1]), previous, t)
    ensures Get(Preserved(RStripLines(lines), previous), t) == Get(previous, RowKey(RStrip(lines[InkEnd(lines) - 1])))
  {
    LastPuts(lines, previous, t);
  }

  /** A row of `t`, which the stripped last line does not name: the last line did not name it before either. */
  lemma OtherLast(lines: seq<string>, previous: Dict, i: nat, t: string)
    requires All(previous, Keyed) && i < InkEnd(lines) && Steady(lines, previous, i) && RowPrefix(t) <= lines[i]
      && Plain(t)
    requires var last := lines[InkEnd(lines) - 1]; var cut := RStrip(last);
      cut != last && Plain(cut) && !Puts(cut, previous, t)
    ensures Get(Preserved(RStripLines(lines), previous), t) == Get(Preserved(lines, previous), t)
  {
    var last := lines[InkEnd(lines) - 1];
    PrefixTarget(t, lines[i]);
    NextRow(lines, previous, i);
    LastPuts(lines, previous, t);
    StrippedKey(last);
    if Puts(last, previous, t) {
      GetAll(previous, last, Keyed);
      assert last == KeyOf(t);
      RStripTail(last, |last| - 1);
    }
  }

  /** The row of a revealed target changes. */
  lemma RevealedLast(lines: seq<string>, previous: Dict, i: nat)
    requires All(previous, Keyed) && i < InkEnd(lines) && Reveals(lines[InkEnd(lines) - 1], previous)
    requires RowPrefix(RStrip(lines[InkEnd(lines) - 1])[3..]) <= lines[i]
    ensures var t := RStrip(lines[InkEnd(lines) - 1])[3..];
      TargetOf(lines[i]) == t && !Agrees(Get(Preserved(RStripLines(lines), previous), t), lines[i])
  {
    var last := lines[InkEnd(lines) - 1];
    var cut := RStrip(last);
    var t := cut[3..];
    PlainRest(cut);
    PrefixTarget(t, lines[i]);
    BareTarget(cut);
    StrippedKey(last);
    LastPuts(lines, previous, t);
    GetAll(previous, cut, Keyed);
  }

  lemma RowNotRevealed(lines: seq<string>, previous: Dict, i: nat, t: string)
    requires All(previous, Keyed) && i < InkEnd(lines) && Steady(lines, previous, i) && RowPrefix(t) <= lines[i]
      && Plain(t)
    requires var last := lines[InkEnd(lines) - 1];
      !(Reveals(last, previous) && RowPrefix(RStrip(last)[3..]) <= lines[i])
    ensures Agrees(Get(Preserved(RStripLines(lines), previous), t), lines[i])
  {
    var last := lines[InkEnd(lines) - 1];
    var cut := RStrip(last);
    if cut == last || !("| `" <= cut) || !Plain(cut) {
      SteadyRow(lines, previous, i, t);
      SameLast(lines, previous, t);
    } else if !Puts(cut, previous, t) {
      SteadyRow(lines, previous, i, t);
      OtherLast(lines, previous, i, t);
    } else {
      RowKeyWhole(cut);
      if |cut| > 3 && cut[|cut| - 1] == '`' {
        ClosedTarget(cut);
        ClosedLast(lines, previous, i, t);
      } else {
        BareTarget(cut);
      }
    }
  }

  lemma RowKept(lines: seq<string>, previous: Dict, i: nat)
    requires All(previous, Keyed) && i < InkEnd(lines) && Steady(lines, previous, i)
    requires var last := lines[InkEnd(lines) - 1];
      !(Reveals(last, previous) && RowPrefix(RStrip(last)[3..]) <= lines[i])
    ensures ReplaceRow(lines[i], Preserved(RStripLines(lines), previous)) == lines[i]
  {
    var t := TargetOf(lines[i]);
    NextRow(lines, previous, i);
    if RowPrefix(t) <= lines[i] {
      assert RowPrefix(t)[..3] == "| `";
      TargetIsPlain(lines[i]);
      RowNotRevealed(lines, previous, i, t);
    }
  }

  lemma RowChanged(lines: seq<string>, previous: Dict, i: nat)
    requires All(previous, Keyed) && i < InkEnd(lines) && Steady(lines, previous, i)
    requires var last := lines[InkEnd(lines) - 1]; Reveals(last, previous) && RowPrefix(RStrip(last)[3..]) <= lines[i]
    ensures ReplaceRow(lines[i], Preserved(RStripLines(lines), previous)) != lines[i]
  {
    RevealedLast(lines, previous, i);
    NextRow(lines, previous, i);
  }

  // ---------------------------------------------------------------- the text, a second time

  predicate HasRow(lines: seq<string>, t: string, start: nat, end: nat)
    requires end <= |lines|
  {
    exists i :: start < i < end && RowPrefix(t) <= lines[i]
  }

  /** The previous row that the last line naming `t` puts. */
  function LastPut(lines: seq<string>, previous: Dict, t: string): Option<string> {
    if lines == [] then None
    else if Puts(lines[|lines| - 1], previous, t) then Get(previous, RowKey(lines[|lines| - 1]))
    else LastPut(lines[..|lines| - 1], previous, t)
  }

  lemma {:induction false} LastPutIs(lines: seq<string>, previous: Dict, t: string)
    ensures Get(Preserved(lines, previous), t) == LastPut(lines, previous, t)
  {
    if lines != [] {
      PreservedLast(lines, previous, t);
      LastPutIs(lines[..|lines| - 1], previous, t);
    }
  }

  /** The edited row of `t`. */
  lemma EditedRow(line: string, lines: seq<string>, previous: Dict, t: string)
    requires All(previous, Keyed) && Plain(t)
    ensures var put := Get(Preserved(lines, previous), t);
      (RowPrefix(t) <= ReplaceRow(line, Preserved(lines, previous)))
        <==> (RowPrefix(t) <= line && (put.None? || RowPrefix(t) <= put.value))
  {
    var d := Preserved(lines, previous);
    var u := TargetOf(line);
    PreservedEntries(lines, previous);
    ReplaceByTarget(line, d);
    if RowPrefix(t) <= line {
      PrefixTarget(t, line);
    }
    if RowPrefix(t) <= ReplaceRow(line, d) {
      PrefixTarget(t, ReplaceRow(line, d));
      if ReplaceRow(line, d) != line {
        KeptPutsItself(lines, previous, u);
      }
    }
  }

  lemma EditedHasRow(lines: seq<string>, previous: Dict, t: string, start: nat, end: nat)
    requires All(previous, Keyed) && Plain(t) && start < end < |lines|
    ensures var put := Get(Preserved(lines, previous), t);
      HasRow(EditLines(lines, Preserved(lines, previous), start, end), t, start, end) <==>
        HasRow(lines, t, start, end) && (put.None? || RowPrefix(t) <= put.value)
  {
    var edited := EditLines(lines, Preserved(lines, previous), start, end);
    forall i | start < i < end
      ensures var put := Get(Preserved(lines, previous), t);
        RowPrefix(t) <= edited[i] <==> RowPrefix(t) <= lines[i] && (put.None? || RowPrefix(t) <= put.value)
    {
      EditedRow(lines[i], lines, previous, t);
    }
  }

  /** The last line that is not blank. */
  function LastInk(lines: seq<string>): string {
    if InkEnd(lines) == 0 then "" else lines[InkEnd(lines) - 1]
  }

  /** It is behind the table, and what happens before it does not matter. */
  lemma LastInkSame(a: seq<string>, b: seq<string>, from: nat)
    requires from < |a| == |b| && (forall j :: from <= j < |a| ==> a[j] == b[j]) && RStrip(a[from]) != ""
    ensures InkEnd(a) == InkEnd(b) > from && LastInk(a) == LastInk(b)
  {
    InkEndSame(a, b, from);
    LastInkAt(a, InkEnd(a) - 1);
    LastInkAt(b, InkEnd(a) - 1);
  }

  lemma LastInkAt(lines: seq<string>, i: nat)
    requires i < |lines| && InkEnd(lines) == i + 1
    ensures LastInk(lines) == lines[i]
  {
  }

  /** The last line reveals a target that has a row among `lines`. */
  ghost predicate Names(last: string, previous: Dict, lines: seq<string>, start: nat, end: nat)
    requires end <= |lines|
  {
    Reveals(last, previous) && HasRow(lines, RStrip(last)[3..], start, end)
  }

  /** The rows of the edited lines, a second time. */
  lemma RowsAgain(lines: seq<string>, previous: Dict, start: nat, end: nat)
    requires All(previous, Keyed) && start < end < InkEnd(lines)
    requires forall i :: start < i < end ==> Steady(lines, previous, i)
    ensures var cut := RStripLines(lines);
      end <= |cut| && (RowsSettled(cut, Preserved(cut, previous), start, end) <==>
        !Names(LastInk(lines), previous, lines, start, end))
  {
    var last := LastInk(lines);
    var cut := RStripLines(lines);
    RStripLinesAt(lines);
    forall i | start < i < end
      ensures cut[i] == lines[i]
      ensures (ReplaceRow(cut[i], Preserved(cut, previous)) == cut[i]) <==>
        !(Reveals(last, previous) && RowPrefix(RStrip(last)[3..]) <= lines[i])
    {
      if Reveals(last, previous) && RowPrefix(RStrip(last)[3..]) <= lines[i] {
        RowChanged(lines, previous, i);
      } else {
        RowKept(lines, previous, i);
      }
    }
  }

  lemma EditedAgain(lines: seq<string>, previous: Dict, start: nat, end: nat)
    requires All(previous, Keyed) && HasTable(lines, start, end)
    ensures var edited := EditLines(lines, Preserved(lines, previous), start, end); var cut := RStripLines(edited);
      && end <= |cut|
      && (RowsSettled(cut, Preserved(cut, previous), start, end) <==>
        !Names(LastInk(lines), previous, edited, start, end))
  {
    var d := Preserved(lines, previous);
    var edited := EditLines(lines, d, start, end);
    InkedEnd();
    LastInkSame(lines, edited, end);
    RowsStay(lines, previous, start, end);
    RowsAgain(edited, previous, start, end);
  }

  lemma TextAgain(lines: seq<string>, previous: Dict, start: nat, end: nat)
    requires All(previous, Keyed) && HasTable(lines, start, end) && OneLineEach(lines)
    ensures var edited := EditLines(lines, Preserved(lines, previous), start, end);
            var text := RStrip(Join(edited)) + "\n";
      (Replaced(text, Preserved(SplitLines(text), previous)) == Success(text)) <==>
        !Names(LastInk(lines), previous, edited, start, end)
  {
    var d := Preserved(lines, previous);
    var edited := EditLines(lines, d, start, end);
    var text := RStrip(Join(edited)) + "\n";
    PreservedIsEdit(lines, previous);
    EditedLines(lines, d, start, end);
    EditedAgain(lines, previous, start, end);
    var cut := RStripLines(edited);
    PreservedIsEdit(cut, previous);
    if Replaced(text, Preserved(cut, previous)) == Success(text) {
      SettledRows(text, Preserved(cut, previous), start, end);
    } else if RowsSettled(cut, Preserved(cut, previous), start, end) {
      EditedIsSettled(lines, d, Preserved(cut, previous), start, end);
    }
  }

  /** The lines name a row that the first edit leaves a row. */
  ghost predicate NamesKept(lines: seq<string>, previous: Dict, start: nat, end: nat)
    requires end <= |lines|
  {
    && Names(LastInk(lines), previous, lines, start, end)
    && var t := RStrip(LastInk(lines))[3..];
       match LastPut(lines, previous, t) case None => true case Some(row) => RowPrefix(t) <= row
  }

  lemma NamesEdited(lines: seq<string>, previous: Dict, start: nat, end: nat)
    requires All(previous, Keyed) && HasTable(lines, start, end)
    ensures Names(LastInk(lines), previous, EditLines(lines, Preserved(lines, previous), start, end), start, end) <==>
      NamesKept(lines, previous, start, end)
  {
    var last := LastInk(lines);
    if Reveals(last, previous) {
      var cut := RStrip(last);
      var t := cut[3..];
      PlainRest(cut);
      EditedHasRow(lines, previous, t, start, end);
      LastPutIs(lines, previous, t);
    }
  }

  /**
   The second edit changes the text: stripped of its blanks, the last line names a recorded row without
   closing the backtick; the table has a row of that target; and the first edit leaves it one.
   */
  ghost predicate Unsettles(body: string, previous: string) {
    var lines := SplitLines(body);
    exists start, end :: HasTable(lines, start, end) && NamesKept(lines, PreviousRows(SplitLines(previous)), start, end)
  }

  /** Preserving twice gives the same text as once, exactly when the body does not unsettle. */
  lemma IdempotentExactlyWhen(body: string, previous: string)
    requires Preserve(body, previous).Success?
    ensures Preserve(Preserve(body, previous).value, previous) == Preserve(body, previous) <==>
      !Unsettles(body, previous)
  {
    var lines, rows := SplitLines(body), PreviousRows(SplitLines(previous));
    if TABLE_START in lines && TABLE_END in lines {
      var start := FirstIndex(lines, TABLE_START, 0).value;
      var end := FirstIndex(lines, TABLE_END, start).value;
      PreviousAreKeyed(SplitLines(previous));
      TextAgain(lines, rows, start, end);
      NamesEdited(lines, rows, start, end);
      assert Unsettles(body, previous) <==> NamesKept(lines, rows, start, end);
    }
  }

  // ---------------------------------------------------------------- when once is enough

  /** It is for every body, if every line of the previous body that looks like recorded state is a row. */
  lemma PreserveIsIdempotent(body: string, previous: string)
    requires StateRowsOnly(SplitLines(previous)) && Preserve(body, previous).Success?
    ensures Preserve(Preserve(body, previous).value, previous) == Preserve(body, previous)
  {
    IdempotentExactlyWhen(body, previous);
    if Unsettles(body, previous) {
      var lines := SplitLines(body);
      PreviousRowsAre(SplitLines(previous), RStrip(LastInk(lines)), "");
    }
  }

  /** A body without blanks at its end. */
  predicate Stripped(body: string) {
    RStripLines(SplitLines(body)) == SplitLines(body)
  }

  /** And for every previous body, if the body has no blanks at its end. */
  lemma StrippedIsSettled(body: string, previous: string)
    requires Stripped(body) && Preserve(body, previous).Success?
    ensures Preserve(Preserve(body, previous).value, previous) == Preserve(body, previous)
  {
    IdempotentExactlyWhen(body, previous);
    var lines := SplitLines(body);
    if InkEnd(lines) > 0 {
      RStripLinesAt(lines);
      assert LastInk(lines) == RStripLines(lines)[InkEnd(lines) - 1];
    }
  }

  /** What preserving returns has no blanks at its end, unless there is no table. */
  lemma PreservedIsStripped(body: string, previous: string)
    requires Preserve(body, previous).Success?
    ensures var once := Preserve(body, previous).value;
      once == body || (Stripped(once) && Preserve(once, previous).Success?)
  {
    var lines, before := SplitLines(body), SplitLines(previous);
    if TABLE_START in lines && TABLE_END in lines {
      var start := FirstIndex(lines, TABLE_START, 0).value;
      var end := FirstIndex(lines, TABLE_END, start).value;
      PreviousAreKeyed(before);
      var d := Preserved(lines, PreviousRows(before));
      PreservedIsEdit(lines, PreviousRows(before));
      EditedLines(lines, d, start, end);
      RStripLinesIdempotent(EditLines(lines, d, start, end));
    }
  }

  /** For all bodies: after two times nothing changes any more. */
  lemma SettledAfterTwo(body: string, previous: string)
    requires Preserve(body, previous).Success?
    ensures var once := Preserve(body, previous).value;
      && Preserve(once, previous).Success?
      && Preserve(Preserve(once, previous).value, previous) == Preserve(once, previous)
  {
    PreservedIsStripped(body, previous);
    var once := Preserve(body, previous).value;
    if once != body {
      StrippedIsSettled(once, previous);
    }
  }

  // ---------------------------------------------------------------- when it is not

  function Issue(row: string, last: string): seq<string> {
    [TABLE_START, row, TABLE_END, last]
  }

  lemma Markers()
    ensures OneLine(TABLE_START) && OneLine(TABLE_END) && TABLE_START != TABLE_END
    ensures !("| `" <= TABLE_START) && !("| `" <= TABLE_END)
  {
    assert TABLE_START[0] == TABLE_END[0] == '<';
    assert |TABLE_START| != |TABLE_END|;
  }

  lemma TableOf(lines: seq<string>)
    requires |lines| == 4 && lines[0] == TABLE_START && lines[1] != TABLE_START && lines[1] != TABLE_END
      && lines[2] == TABLE_END
    requires TABLE_START != TABLE_END
    ensures HasTable(lines, 0, 2)
  {
    FirstIndexIs(lines, TABLE_START, 0, 0);
    FirstIndexIs(lines, TABLE_END, 0, 2);
  }

  lemma OnePrevious(damaged: string)
    requires IsStateLine(damaged)
    ensures PreviousRows([damaged]) == [(RowKey(damaged), damaged)]
  {
    assert [damaged][..0] == [];
  }

  lemma IssueLines(row: string, last: string)
    requires OneLine(row) && OneLine(last) && "| `" <= row
    ensures OneLineEach(Issue(row, last)) && HasTable(Issue(row, last), 0, 2)
    ensures !("| `" <= TABLE_START) && !("| `" <= TABLE_END)
    ensures SplitLines(Join(Issue(row, last)) + "\n") == Issue(row, last)
  {
    Markers();
    assert row[0] == '|';
    TableOf(Issue(row, last));
    SplitOfJoin(Issue(row, last));
  }

  lemma OneDamaged(damaged: string)
    requires IsStateLine(damaged) && OneLine(damaged)
    ensures PreviousRows(SplitLines(damaged + "\n")) == [(RowKey(damaged), damaged)]
  {
    SplitOfJoin([damaged]);
    OnePrevious(damaged);
  }

  lemma CutTarget(t: string)
    requires IsTarget(t)
    ensures var cut := "| `" + t; RowKey(cut) == cut && KeyTarget(cut) == t && RowKey(cut + " ") == cut + " "
  {
    var cut := "| `" + t;
    RowKeyWhole(cut);
    RowKeyWhole(cut + " ");
    assert cut[3..] == t;
  }

  lemma CutBlank(t: string)
    requires IsTarget(t)
    ensures var cut := "| `" + t; OneLine(cut) && RStrip(cut + " ") == cut
  {
    var cut := "| `" + t;
    assert cut[|cut| - 1] == t[|t| - 1];
    assert (cut + " ")[..|cut|] == cut;
  }

  lemma CutRow(t: string) returns (row: string)
    requires IsTarget(t)
    ensures RowPrefix(t) <= row && RowKey(row) == KeyOf(t) && OneLine(row)
  {
    row := KeyOf(t) + (" |" + " x |");
    assert row == RowPrefix(t) + " x |";
    RowKeyCut(KeyOf(t), " x |");
  }

  lemma CutState(t: string) returns (damaged: string)
    requires IsTarget(t)
    ensures RowKey(damaged) == "| `" + t && OneLine(damaged) && IsStateLine(damaged)
  {
    var cut := "| `" + t;
    damaged := cut + (" |" + " Queued |");
    assert cut[|cut| - 1] == t[|t| - 1];
    RowKeyCut(cut, " Queued |");
    QueuedIsState(cut);
    TargetIsOneLine(t);
  }

  lemma TargetIsOneLine(t: string)
    requires IsTarget(t)
    ensures OneLine("| `" + t) && OneLine(("| `" + t) + (" |" + " Queued |"))
  {
    assert OneLine("| `") && OneLine(" |" + " Queued |");
  }

  lemma QueuedIsState(cut: string)
    requires "| `" <= cut
    ensures IsStateLine(cut + (" |" + " Queued |"))
  {
    var damaged := cut + (" |" + " Queued |");
    assert damaged[|cut| + 1..] == "| Queued |";
    ContainsAt(damaged, "| Queued |", |cut| + 1);
  }

  lemma {:induction false} NothingPut(lines: seq<string>, previous: Dict, t: string)
    requires forall i :: 0 <= i < |lines| ==> !Puts(lines[i], previous, t)
    ensures LastPut(lines, previous, t) == None
  {
    if lines != [] {
      NothingPut(lines[..|lines| - 1], previous, t);
    }
  }

  lemma BlankReveals(t: string, damaged: string)
    requires IsTarget(t)
    ensures var cut := "| `" + t; RStrip(cut + " ") == cut && Reveals(cut + " ", [(cut, damaged)])
  {
    var cut := "| `" + t;
    CutBlank(t);
    assert cut[|cut| - 1] == t[|t| - 1];
  }

  lemma GetOne(key: string, value: string, other: string)
    ensures Get([(key, value)], other) == if other == key then Some(value) else None
  {
    assert [(key, value)][1..] == [];
  }

  lemma NothingNamed(t: string, row: string, damaged: string)
    requires IsTarget(t) && RowKey(row) == KeyOf(t)
    ensures var cut := "| `" + t; LastPut(Issue(row, cut + " "), [(cut, damaged)], t) == None
  {
    var cut := "| `" + t;
    CutTarget(t);
    Markers();
    assert |KeyOf(t)| != |cut| && |cut + " "| != |cut|;
    var lines, rows := Issue(row, cut + " "), [(cut, damaged)];
    GetOne(cut, damaged, KeyOf(t));
    GetOne(cut, damaged, cut + " ");
    assert !Puts(lines[1], rows, t) && !Puts(lines[3], rows, t);
    assert !Puts(lines[0], rows, t) && !Puts(lines[2], rows, t);
    NothingPut(lines, rows, t);
  }

  lemma IssueUnsettles(body: string, previous: string, t: string, row: string, damaged: string)
    requires IsTarget(t) && RowPrefix(t) <= row && RowKey(row) == KeyOf(t)
    requires SplitLines(body) == Issue(row, "| `" + t + " ") && HasTable(SplitLines(body), 0, 2)
    requires PreviousRows(SplitLines(previous)) == [("| `" + t, damaged)]
    ensures Unsettles(body, previous)
  {
    var lines, cut := SplitLines(body), "| `" + t;
    BlankReveals(t, damaged);
    NothingNamed(t, row, damaged);
    assert lines[3] == cut + " ";
    assert InkEnd(lines) == 4 && LastInk(lines) == cut + " ";
    assert cut[3..] == t;
    assert RowPrefix(t) <= lines[1];
    assert HasRow(lines, t, 0, 2);
  }

  /**
   There is such a body for every target: its last line ends in a blank, and the row recorded for the
   target lost its closing backtick.
   */
  lemma BlanksUnsettle(t: string) returns (body: string, previous: string)
    requires IsTarget(t)
    ensures Preserve(body, previous).Success?
    ensures Preserve(Preserve(body, previous).value, previous) != Preserve(body, previous)
  {
    body, previous := UnsettledIssue(t);
    assert Preserve(body, previous).Success?;
    IdempotentExactlyWhen(body, previous);
  }

  lemma UnsettledIssue(t: string) returns (body: string, previous: string)
    requires IsTarget(t)
    ensures HasTableIn(body, 0, 2) && Unsettles(body, previous)
  {
    var cut := "| `" + t;
    CutTarget(t);
    CutBlank(t);
    var row := CutRow(t);
    var damaged := CutState(t);
    body, previous := Join(Issue(row, cut + " ")) + "\n", damaged + "\n";
    OneDamaged(damaged);
    assert RowPrefix(t)[..3] == "| `";
    IssueLines(row, cut + " ");
    IssueUnsettles(body, previous, t, row, damaged);
  }
}
