/** `str.splitlines`, `"\n".join` and `str.rstrip`, and how they undo each other. */
module TextLines {

  /** The characters `splitlines` breaks at. */
  predicate IsBreak(c: char) {
    var n := c as int;
    0x0a <= n <= 0x0d || 0x1c <= n <= 0x1e || n == 0x85 || 0x2028 <= n <= 0x2029
  }

  /** `str.isspace` for one character. */
  predicate IsSpace(c: char) {
    var n := c as int;
    || 0x09 <= n <= 0x0d || 0x1c <= n <= 0x20 || n == 0x85 || n == 0xa0 || n == 0x1680
    || 0x2000 <= n <= 0x200a || 0x2028 <= n <= 0x2029 || n == 0x202f || n == 0x205f || n == 0x3000
  }

  predicate OneLine(s: string) {
    forall i :: 0 <= i < |s| ==> !IsBreak(s[i])
  }

  predicate OneLineEach(lines: seq<string>) {
    forall i :: 0 <= i < |lines| ==> OneLine(lines[i])
  }

  /** Where the first line of `s` ends. */
  function LineEnd(s: string): (n: nat)
    ensures n <= |s| && OneLine(s[..n]) && (n < |s| ==> IsBreak(s[n]))
  {
    if s == "" || IsBreak(s[0]) then 0
    else
      var n := 1 + LineEnd(s[1..]);
      assert s[..n] == [s[0]] + s[1..][..n - 1];
      n
  }

  function SplitLines(s: string): (lines: seq<string>)
    ensures OneLineEach(lines)
  {
    if s == "" then []
    else
      var n := LineEnd(s);
      if n == |s| then [s]
      else
        var next := if s[n] == '\r' && n + 1 < |s| && s[n + 1] == '\n' then n + 2 else n + 1;
        [s[..n]] + SplitLines(s[next..])
  }

  function Join(lines: seq<string>): string {
    if lines == [] then ""
    else if |lines| == 1 then lines[0]
    else lines[0] + "\n" + Join(lines[1..])
  }

  function RStrip(s: string): (r: string)
    ensures r <= s && (r != "" ==> !IsSpace(r[|r| - 1]))
  {
    if s == "" then ""
    else if IsSpace(s[|s| - 1]) then RStrip(s[..|s| - 1])
    else s
  }

  /** The lines without trailing blanks: blank last lines go, then the blanks of the last line. */
  function RStripLines(lines: seq<string>): seq<string> {
    if lines == [] then []
    else
      var n := |lines| - 1;
      var last := RStrip(lines[n]);
      if last == "" then RStripLines(lines[..n]) else lines[..n] + [last]
  }

  // ---------------------------------------------------------------- laws

  lemma {:induction false} LineEndAt(line: string, rest: string)
    requires OneLine(line) && rest != "" && IsBreak(rest[0])
    ensures LineEnd(line + rest) == |line|
  {
    if line != "" {
      LineEndAt(line[1..], rest);
      assert (line + rest)[1..] == line[1..] + rest;
    } else {
      assert line + rest == rest;
    }
  }

  /** Splitting undoes joining. */
  lemma {:induction false} SplitOfJoin(lines: seq<string>)
    requires OneLineEach(lines) && lines != []
    ensures SplitLines(Join(lines) + "\n") == lines
  {
    var text := Join(lines) + "\n";
    var rest := if |lines| == 1 then "\n" else "\n" + (Join(lines[1..]) + "\n");
    assert text == lines[0] + rest;
    LineEndAt(lines[0], rest);
    assert text[..|lines[0]|] == lines[0] && text[|lines[0]|] == '\n';
    if |lines| == 1 {
      assert text[|lines[0]| + 1..] == "";
    } else {
      assert text[|lines[0]| + 1..] == Join(lines[1..]) + "\n";
      SplitOfJoin(lines[1..]);
    }
    assert lines == [lines[0]] + lines[1..];
  }

  lemma {:induction false} RStripAppend(a: string, b: string)
    ensures RStrip(a + b) == if RStrip(b) == "" then RStrip(a) else a + RStrip(b)
  {
    if b == "" {
      assert a + b == a;
    } else {
      assert (a + b)[..|a + b| - 1] == a + b[..|b| - 1];
      if IsSpace(b[|b| - 1]) {
        RStripAppend(a, b[..|b| - 1]);
      }
    }
  }

  lemma {:induction false} JoinLast(lines: seq<string>, last: string)
    requires lines != []
    ensures Join(lines + [last]) == Join(lines) + "\n" + last
  {
    if |lines| > 1 {
      JoinLast(lines[1..], last);
      assert (lines + [last])[1..] == lines[1..] + [last];
    } else {
      assert (lines + [last])[1..] == [last];
    }
  }

  /** Stripping the text strips the lines. */
  lemma {:induction false} RStripOfJoin(lines: seq<string>)
    ensures RStrip(Join(lines)) == Join(RStripLines(lines))
  {
    if lines != [] {
      var n := |lines| - 1;
      var last := lines[n];
      assert lines == lines[..n] + [last];
      if n == 0 {
        assert lines[..0] + [RStrip(last)] == [RStrip(last)];
      } else {
        JoinLast(lines[..n], last);
        RStripAppend(Join(lines[..n]) + "\n", last);
        if RStrip(last) == "" {
          RStripAppend(Join(lines[..n]), "\n");
          RStripOfJoin(lines[..n]);
        } else {
          JoinLast(lines[..n], RStrip(last));
        }
      }
    }
  }

  lemma {:induction false} RStripLinesIdempotent(lines: seq<string>)
    ensures RStripLines(RStripLines(lines)) == RStripLines(lines)
  {
    if lines != [] {
      var n := |lines| - 1;
      if RStrip(lines[n]) == "" {
        RStripLinesIdempotent(lines[..n]);
      }
    }
  }

  lemma {:induction false} RStripLinesOneLine(lines: seq<string>)
    requires OneLineEach(lines)
    ensures OneLineEach(RStripLines(lines))
  {
    if lines != [] {
      RStripLinesOneLine(lines[..|lines| - 1]);
    }
  }

  /** Up to and including a line that ends in ink, stripping changes nothing. */
  lemma {:induction false} RStripLinesKeeps(lines: seq<string>, k: nat)
    requires k < |lines| && lines[k] != "" && RStrip(lines[k]) == lines[k]
    ensures var r := RStripLines(lines);
      k < |r| <= |lines| && r[..k + 1] == lines[..k + 1] && r[k..] == RStripLines(lines[k..])
  {
    var n := |lines| - 1;
    if k < n {
      assert lines[k..][..n - k] == lines[..n][k..];
      if RStrip(lines[n]) == "" {
        RStripLinesKeeps(lines[..n], k);
        assert lines[..n][..k + 1] == lines[..k + 1];
      } else {
        assert (lines[..n] + [RStrip(lines[n])])[k..] == lines[..n][k..] + [RStrip(lines[n])];
      }
    } else {
      assert lines[..n] + [lines[n]] == lines;
      assert lines[n..] == [lines[n]];
      assert [lines[n]][..0] + [lines[n]] == [lines[n]];
    }
  }
}
