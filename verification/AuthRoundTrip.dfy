/** Parsing undoes printing, for any list of challenges with distinct lower-case token keys. */
module AuthRoundTrip {
  import opened Wrappers
  import opened Text
  import opened TextLines
  import opened Dicts
  import opened AuthParams

  /** The text `x` stands in `h` at `i`. */
  ghost predicate At(h: string, i: nat, x: string) {
    i + |x| <= |h| && forall k :: 0 <= k < |x| ==> h[i + k] == x[k]
  }

  lemma AtIsSlice(h: string, i: nat, x: string)
    ensures At(h, i, x) <==> i + |x| <= |h| && h[i..i + |x|] == x
  {
    if i + |x| <= |h| {
      var s := h[i..i + |x|];
      assert forall k :: 0 <= k < |x| ==> s[k] == h[i + k];
    }
  }

  lemma AtConcat(h: string, i: nat, a: string, b: string)
    ensures At(h, i, a + b) <==> At(h, i, a) && At(h, i + |a|, b)
  {
    AtIsSlice(h, i, a + b);
    AtIsSlice(h, i, a);
    AtIsSlice(h, i + |a|, b);
    if i + |a| + |b| <= |h| {
      var s, t := h[i..i + |a|], h[i + |a|..i + |a| + |b|];
      assert h[i..i + |a + b|] == s + t;
      assert s + t == a + b ==>
        s == (s + t)[..|a|] == (a + b)[..|a|] == a && t == (s + t)[|a|..] == (a + b)[|a|..] == b;
    }
  }

  lemma AtRest(h: string, i: nat, x: string)
    requires At(h, i, x) && x != ""
    ensures h[i] == x[0] && At(h, i + 1, x[1..])
  {
    assert x == [x[0]] + x[1..];
    AtConcat(h, i, [x[0]], x[1..]);
  }

  lemma AtSlice(h: string, i: nat, x: string)
    requires At(h, i, x)
    ensures h[i..i + |x|] == x
  {
    AtIsSlice(h, i, x);
  }

  // ---------------------------------------------------------------- quoting

  /** Character by character, what the two replacements of `quote` do. */
  function EscapedChars(v: string): string {
    if v == "" then "" else (if v[0] == '\\' || v[0] == '"' then ['\\', v[0]] else [v[0]]) + EscapedChars(v[1..])
  }

  lemma {:induction false} ReplaceConcat(a: string, b: string, c: char, with: string)
    ensures Replace(a + b, c, with) == Replace(a, c, with) + Replace(b, c, with)
  {
    if a == "" {
      assert a + b == b;
    } else {
      assert (a + b)[1..] == a[1..] + b;
      ReplaceConcat(a[1..], b, c, with);
    }
  }

  lemma {:induction false} EscapedIsByChar(v: string)
    ensures Escaped(v) == EscapedChars(v)
  {
    if v != "" {
      var first := if v[0] == '\\' then "\\\\" else [v[0]];
      EscapedIsByChar(v[1..]);
      ReplaceConcat(first, Replace(v[1..], '\\', "\\\\"), '"', "\\\"");
      assert "\\\\"[1..] == "\\" && "\\"[1..] == "";
      assert Replace("\\", '"', "\\\"") == "\\" && Replace("\\\\", '"', "\\\"") == "\\\\";
      assert [v[0]][1..] == "";
    }
  }

  lemma {:induction false} UnescapeEscaped(v: string)
    ensures Unescape(EscapedChars(v)) == v
  {
    if v != "" {
      UnescapeEscaped(v[1..]);
      var e := EscapedChars(v);
      if v[0] == '\\' || v[0] == '"' {
        assert e[2..] == EscapedChars(v[1..]);
      } else {
        assert e[1..] == EscapedChars(v[1..]);
      }
      assert v == [v[0]] + v[1..];
    }
  }

  lemma {:induction false} QuotedEndAt(h: string, i: nat, v: string)
    requires At(h, i, EscapedChars(v)) && i + |EscapedChars(v)| < |h| && h[i + |EscapedChars(v)|] == '"'
    ensures QuotedEnd(h, i) == Some(i + |EscapedChars(v)| + 1)
    decreases |v|
  {
    if v != "" {
      var first := if v[0] == '\\' || v[0] == '"' then ['\\', v[0]] else [v[0]];
      AtConcat(h, i, first, EscapedChars(v[1..]));
      assert h[i] == first[0] && (|first| == 2 ==> h[i + 1] == first[1]);
      QuotedEndAt(h, i + |first|, v[1..]);
    }
  }

  lemma QuoteText(v: string)
    ensures Quote(v) == "\"" + (EscapedChars(v) + "\"")
  {
    EscapedIsByChar(v);
  }

  /** A quoted value is read back as the value. */
  lemma ValueOfQuote(v: string)
    ensures ValueOf(Quote(v)) == v
  {
    QuoteText(v);
    UnescapeEscaped(v);
    assert Quote(v)[1..|Quote(v)| - 1] == EscapedChars(v);
  }

  /** And matched up to its closing quote. */
  lemma QuoteEnds(h: string, i: nat, v: string)
    requires At(h, i, Quote(v))
    ensures h[i] == '"' && ValueEnd(h, i) == i + |Quote(v)|
  {
    QuoteText(v);
    AtConcat(h, i, "\"", EscapedChars(v) + "\"");
    AtConcat(h, i + 1, EscapedChars(v), "\"");
    assert h[i] == "\""[0] && h[i + 1 + |EscapedChars(v)|] == "\""[0];
    QuotedEndAt(h, i + 1, v);
  }

  // ---------------------------------------------------------------- one parameter

  /** A lower-case token the expression accepts as a key. */
  predicate IsKey(k: string) {
    k != "" && IsLower(k) && forall i :: 0 <= i < |k| ==> IsKeyChar(k[i])
  }

  lemma {:induction false} KeyEndAt(h: string, i: nat, k: string)
    requires (forall j :: 0 <= j < |k| ==> IsKeyChar(k[j])) && At(h, i, k)
    requires i + |k| < |h| && !IsKeyChar(h[i + |k|])
    ensures KeyEnd(h, i) == i + |k|
    decreases |k|
  {
    if k != "" {
      AtRest(h, i, k);
      KeyEndAt(h, i + 1, k[1..]);
    }
  }

  /** Nothing, or one space, before a parameter or a scheme. */
  predicate IsGap(g: string) {
    g == "" || g == " "
  }

  lemma GapEnds(h: string, i: nat, g: string)
    requires IsGap(g) && At(h, i, g) && (i + |g| < |h| ==> !IsSpace(h[i + |g|]))
    ensures Spaces(h, i) == i + |g|
  {
    if g != "" {
      assert h[i] == g[0];
    }
  }

  /** Ended by nothing or a comma. */
  predicate IsTail(h: string, i: nat) {
    i == |h| || (i < |h| && h[i] == ',')
  }

  lemma KeyMatches(h: string, i: nat, g: string, k: string)
    requires IsGap(g) && IsKey(k) && At(h, i, g) && At(h, i + |g|, k)
    requires i + |g| + |k| < |h| && h[i + |g| + |k|] == '='
    ensures MatchKey(h, i) == Some(Key(k, i + |g| + |k| + 1))
  {
    var start := i + |g|;
    assert h[start + 0] == k[0];
    GapEnds(h, i, g);
    KeyEndAt(h, start, k);
    AtSlice(h, start, k);
  }

  lemma ParamPieces(h: string, i: nat, p: (string, string))
    requires At(h, i, ParamText(p))
    ensures At(h, i, p.0) && i + |p.0| < |h| && h[i + |p.0|] == '=' && At(h, i + |p.0| + 1, Quote(p.1))
  {
    AtConcat(h, i, p.0 + "=", Quote(p.1));
    AtConcat(h, i, p.0, "=");
    assert h[i + |p.0| + 0] == "="[0];
  }

  /** A quoted value behind a key is the value of the parameter. */
  lemma ValueMatches(h: string, i: nat, k: Key, v: string)
    requires i <= |h| && MatchKey(h, i) == Some(k) && At(h, k.end, Quote(v)) && IsTail(h, k.end + |Quote(v)|)
    ensures MatchParam(h, i) == Some(Param(k.name, Quote(v), k.end + |Quote(v)|))
  {
    QuoteEnds(h, k.end, v);
    AtSlice(h, k.end, Quote(v));
  }

  lemma ParamMatches(h: string, i: nat, g: string, p: (string, string))
    requires IsGap(g) && IsKey(p.0) && At(h, i, g) && At(h, i + |g|, ParamText(p))
    requires IsTail(h, i + |g| + |ParamText(p)|)
    ensures MatchParam(h, i) == Some(Param(p.0, Quote(p.1), i + |g| + |ParamText(p)|))
  {
    ParamPieces(h, i + |g|, p);
    KeyMatches(h, i, g, p.0);
    ValueMatches(h, i, Key(p.0, i + |g| + |p.0| + 1), p.1);
  }

  lemma {:induction false} LowerAt(s: string, i: nat)
    requires i < |s|
    ensures Lower(s)[i] == LowerChar(s[i])
  {
    if i > 0 {
      LowerAt(s[1..], i - 1);
    }
  }

  /** No parameter is taken for the scheme, not even one named `payment`. */
  lemma ParamIsNoScheme(h: string, i: nat, g: string, p: (string, string))
    requires IsGap(g) && IsKey(p.0) && At(h, i, g) && At(h, i + |g|, ParamText(p))
    ensures MatchScheme(h, i) == None
  {
    var start := i + |g|;
    ParamPieces(h, start, p);
    assert h[start + 0] == p.0[0];
    GapEnds(h, i, g);
    if |p.0| < 7 && start + 7 <= |h| {
      var word := h[start..start + 7];
      LowerAt(word, |p.0|);
      assert Lower(word)[|p.0|] == '=' && "payment"[|p.0|] != '=';
    } else if |p.0| > 7 {
      assert h[start + 7] == p.0[7];
    }
  }

  // ---------------------------------------------------------------- turns

  lemma {:induction false} PutNew(d: Dict, k: string, v: string)
    requires Get(d, k).None?
    ensures Put(d, k, v) == d + [(k, v)]
  {
    if d != [] {
      PutNew(d[1..], k, v);
      assert d == [d[0]] + d[1..];
    }
  }

  lemma ParamTurn(h: string, i: nat, g: string, p: (string, string), done: seq<Dict>, d: Dict)
    requires IsGap(g) && IsKey(p.0) && At(h, i, g) && At(h, i + |g|, ParamText(p)) && Get(d, p.0).None?
    requires IsTail(h, i + |g| + |ParamText(p)|)
    ensures Next(h, State(done + [d], true, i)) == State(done + [d + [p]], true, SkipComma(h, i + |g| + |ParamText(p)|))
  {
    ParamMatches(h, i, g, p);
    ParamIsNoScheme(h, i, g, p);
    ValueOfQuote(p.1);
    LowerFixed(p.0);
    PutNew(d, p.0, p.1);
    assert (done + [d])[|done| := d + [p]] == done + [d + [p]];
  }

  lemma PaymentLower()
    ensures Lower("Payment") == "payment"
  {
    var s := Lower("Payment");
    LowerAt("Payment", 0);
    LowerAt("Payment", 1);
    LowerAt("Payment", 2);
    LowerAt("Payment", 3);
    LowerAt("Payment", 4);
    LowerAt("Payment", 5);
    LowerAt("Payment", 6);
    assert s == [s[0], s[1], s[2], s[3], s[4], s[5], s[6]];
  }

  lemma SchemeTurn(h: string, i: nat, g: string, st: State)
    requires IsState(h, st) && st.position == i && IsGap(g) && At(h, i, g) && At(h, i + |g|, "Payment ")
    requires i + |g| + 8 < |h| ==> !IsSpace(h[i + |g| + 8])
    ensures Next(h, st) == State(st.challenges + [[]], true, i + |g| + 8)
  {
    var start := i + |g|;
    assert "Payment " == "Payment" + " ";
    AtConcat(h, start, "Payment", " ");
    AtSlice(h, start, "Payment");
    assert h[start + 0] == "Payment"[0];
    GapEnds(h, i, g);
    GapEnds(h, start + 7, " ");
    PaymentLower();
  }

  /** A comma where a parameter is expected ends the challenge. */
  lemma CommaTurn(h: string, st: State)
    requires IsState(h, st) && st.position < |h| && h[st.position] == ','
    ensures Next(h, st) == State(st.challenges, false, st.position + 1)
  {
    var i := st.position;
    assert Spaces(h, i) == i && KeyEnd(h, i) == i;
    if i + 7 <= |h| {
      LowerAt(h[i..i + 7], 0);
      assert "payment"[0] != ',';
    }
    assert MatchScheme(h, i) == None;
  }

  // ---------------------------------------------------------------- round trip

  /** Distinct lower-case token keys; the values are arbitrary. */
  ghost predicate IsChallenge(ps: Dict) {
    (forall i :: 0 <= i < |ps| ==> IsKey(ps[i].0)) && (forall i, j :: 0 <= i < j < |ps| ==> ps[i].0 != ps[j].0)
  }

  ghost predicate AreChallenges(cs: seq<Dict>) {
    forall i :: 0 <= i < |cs| ==> IsChallenge(cs[i])
  }

  /** The text `x` is the rest of `h` from `i` on. */
  ghost predicate Rest(h: string, i: nat, x: string) {
    At(h, i, x) && i + |x| == |h|
  }

  lemma RestConcat(h: string, i: nat, a: string, b: string)
    requires Rest(h, i, a + b)
    ensures At(h, i, a) && Rest(h, i + |a|, b)
  {
    AtConcat(h, i, a, b);
  }

  lemma {:induction false} GetNone(d: Dict, k: string)
    requires forall i :: 0 <= i < |d| ==> d[i].0 != k
    ensures Get(d, k).None?
  {
    if d != [] {
      GetNone(d[1..], k);
    }
  }

  lemma FirstIsNew(d: Dict, ps: Dict)
    requires IsChallenge(d + ps) && ps != []
    ensures Get(d, ps[0].0).None? && IsKey(ps[0].0) && d + ps == d + [ps[0]] + ps[1..]
  {
    forall i | 0 <= i < |d| ensures d[i].0 != ps[0].0 {
      assert (d + ps)[i].0 != (d + ps)[|d|].0;
    }
    assert IsKey((d + ps)[|d|].0);
    GetNone(d, ps[0].0);
  }

  /** What follows the first of the remaining parameters. */
  function AfterParam(ps: Dict, cs: seq<Dict>): string
    requires ps != []
  {
    if |ps| == 1 then MoreText(cs) else ", " + (ParamsText(ps[1..]) + MoreText(cs))
  }

  lemma ParamsSplit(ps: Dict, cs: seq<Dict>)
    requires ps != []
    ensures ParamsText(ps) + MoreText(cs) == ParamText(ps[0]) + AfterParam(ps, cs)
  {
  }

  lemma MoreIsTail(h: string, i: nat, ps: Dict, cs: seq<Dict>)
    requires ps != [] && Rest(h, i, AfterParam(ps, cs))
    ensures IsTail(h, i)
  {
    if AfterParam(ps, cs) != "" {
      assert AfterParam(ps, cs)[0] == ',';
      assert h[i + 0] == AfterParam(ps, cs)[0];
    }
  }

  /** `Next` at the start of a challenge. */
  lemma ChallengeStart(h: string, g: string, cs: seq<Dict>, st: State)
    requires IsState(h, st) && IsGap(g) && cs != [] && IsChallenge(cs[0])
    requires Rest(h, st.position, g + (ChallengeText(cs[0]) + MoreText(cs[1..])))
    ensures Next(h, st) == State(st.challenges + [[]], true, st.position + |g| + 8)
    ensures Rest(h, st.position + |g| + 8, ParamsText(cs[0]) + MoreText(cs[1..]))
  {
    var i, text := st.position, ParamsText(cs[0]) + MoreText(cs[1..]);
    assert ChallengeText(cs[0]) + MoreText(cs[1..]) == "Payment " + text;
    RestConcat(h, i, g, "Payment " + text);
    RestConcat(h, i + |g|, "Payment ", text);
    NoSpaceFirst(cs[0], cs[1..]);
    if text != "" {
      assert h[i + |g| + 8 + 0] == text[0];
    }
    SchemeTurn(h, i, g, st);
  }

  lemma NoSpaceFirst(ps: Dict, cs: seq<Dict>)
    requires IsChallenge(ps)
    ensures var text := ParamsText(ps) + MoreText(cs); text == "" || !IsSpace(text[0])
  {
    if ps != [] {
      ParamsSplit(ps, cs);
      assert IsKey(ps[0].0);
      assert IsKeyChar(ps[0].0[0]);
    }
  }

  lemma ParamRest(h: string, i: nat, g: string, ps: Dict, cs: seq<Dict>)
    requires ps != [] && Rest(h, i, g + (ParamsText(ps) + MoreText(cs)))
    ensures At(h, i, g) && At(h, i + |g|, ParamText(ps[0])) && Rest(h, i + |g| + |ParamText(ps[0])|, AfterParam(ps, cs))
  {
    ParamsSplit(ps, cs);
    RestConcat(h, i, g, ParamText(ps[0]) + AfterParam(ps, cs));
    RestConcat(h, i + |g|, ParamText(ps[0]), AfterParam(ps, cs));
  }

  /** `Next` at a parameter. */
  lemma ParamStart(h: string, i: nat, g: string, ps: Dict, cs: seq<Dict>, done: seq<Dict>, d: Dict)
    requires IsGap(g) && ps != [] && IsChallenge(d + ps) && Rest(h, i, g + (ParamsText(ps) + MoreText(cs)))
    ensures var end := i + |g| + |ParamText(ps[0])|;
      && Next(h, State(done + [d], true, i)) == State(done + [d + [ps[0]]], true, SkipComma(h, end))
      && Rest(h, end, AfterParam(ps, cs))
  {
    ParamRest(h, i, g, ps, cs);
    FirstIsNew(d, ps);
    MoreIsTail(h, i + |g| + |ParamText(ps[0])|, ps, cs);
    ParamTurn(h, i, g, ps[0], done, d);
  }

  /** Behind a comma and a space. */
  lemma CommaSkipped(h: string, i: nat, x: string)
    requires Rest(h, i, ", " + x)
    ensures i < |h| && h[i] == ',' && SkipComma(h, i) == i + 1 && Rest(h, i + 1, " " + x)
  {
    assert ", " + x == "," + (" " + x);
    RestConcat(h, i, ",", " " + x);
    assert h[i + 0] == ","[0];
  }

  lemma ParseTo(h: string, st: State, st': State)
    requires IsState(h, st) && st.position < |h| && Next(h, st) == st'
    ensures Parse(h, st) == Parse(h, st')
  {
  }

  /** No parameter is left: the challenge ends, or the next one follows behind a comma. */
  lemma NoParams(h: string, i: nat, cs: seq<Dict>, done: seq<Dict>)
    requires Rest(h, i, MoreText(cs)) && AreChallenges(cs) && done != []
    ensures Parse(h, State(done, true, i)) == done + cs
    decreases |cs|, 0, 0
  {
    if cs == [] {
      assert done + cs == done;
    } else {
      CommaSkipped(h, i, ChallengeText(cs[0]) + MoreText(cs[1..]));
      CommaTurn(h, State(done, true, i));
      ParseTo(h, State(done, true, i), State(done, false, i + 1));
      ChallengesParse(h, " ", cs, State(done, false, i + 1));
    }
  }

  lemma ParamPosition(h: string, i: nat, g: string, ps: Dict, cs: seq<Dict>)
    requires ps != [] && Rest(h, i, g + (ParamsText(ps) + MoreText(cs)))
    ensures i < |h|
  {
    ParamsSplit(ps, cs);
  }

  /** Reading the remaining parameters of the current challenge, then the remaining challenges. */
  lemma {:induction false} ParamsParse(h: string, i: nat, g: string, ps: Dict, cs: seq<Dict>, done: seq<Dict>, d: Dict)
    requires IsGap(g) && (ps == [] ==> g == "") && IsChallenge(d + ps) && AreChallenges(cs)
    requires Rest(h, i, g + (ParamsText(ps) + MoreText(cs)))
    ensures Parse(h, State(done + [d], true, i)) == done + [d + ps] + cs
    decreases |cs|, |ps|, 1
  {
    if ps == [] {
      assert g + (ParamsText(ps) + MoreText(cs)) == MoreText(cs) && d + ps == d;
      NoParams(h, i, cs, done + [d]);
    } else {
      var end := i + |g| + |ParamText(ps[0])|;
      var next := State(done + [d + [ps[0]]], true, SkipComma(h, end));
      ParamStart(h, i, g, ps, cs, done, d);
      FirstIsNew(d, ps);
      ParamPosition(h, i, g, ps, cs);
      ParseTo(h, State(done + [d], true, i), next);
      ParamsGoOn(h, end, ps, cs, done, d + [ps[0]]);
    }
  }

  /** Behind the first of the remaining parameters. */
  lemma ParamsGoOn(h: string, end: nat, ps: Dict, cs: seq<Dict>, done: seq<Dict>, d: Dict)
    requires ps != [] && IsChallenge(d + ps[1..]) && AreChallenges(cs) && Rest(h, end, AfterParam(ps, cs))
    ensures SkipComma(h, end) <= |h|
    ensures Parse(h, State(done + [d], true, SkipComma(h, end))) == done + [d + ps[1..]] + cs
    decreases |cs|, |ps|, 0
  {
    if |ps| > 1 {
      CommaSkipped(h, end, ParamsText(ps[1..]) + MoreText(cs));
      ParamsParse(h, end + 1, " ", ps[1..], cs, done, d);
    } else {
      assert d + ps[1..] == d;
      LastParam(h, end, cs, done + [d]);
    }
  }

  lemma LastParam(h: string, end: nat, cs: seq<Dict>, done: seq<Dict>)
    requires Rest(h, end, MoreText(cs)) && AreChallenges(cs) && done != []
    ensures SkipComma(h, end) <= |h| && Parse(h, State(done, true, SkipComma(h, end))) == done + cs
    decreases |cs|, 0
  {
    if cs == [] {
      assert done + cs == done;
    } else {
      CommaSkipped(h, end, ChallengeText(cs[0]) + MoreText(cs[1..]));
      ChallengesParse(h, " ", cs, State(done, true, end + 1));
    }
  }

  lemma FirstChallenge(done: seq<Dict>, cs: seq<Dict>)
    requires cs != [] && AreChallenges(cs)
    ensures IsChallenge([] + cs[0]) && AreChallenges(cs[1..])
    ensures var text := ParamsText(cs[0]) + MoreText(cs[1..]); "" + text == text
    ensures [] + cs[0] == cs[0] && done + [[] + cs[0]] + cs[1..] == done + cs
  {
    assert cs == [cs[0]] + cs[1..];
  }

  lemma {:induction false} ChallengesParse(h: string, g: string, cs: seq<Dict>, st: State)
    requires IsState(h, st) && IsGap(g) && cs != [] && AreChallenges(cs)
    requires Rest(h, st.position, g + (ChallengeText(cs[0]) + MoreText(cs[1..])))
    ensures Parse(h, st) == st.challenges + cs
    decreases |cs| - 1, |cs[0]| + 1
  {
    var next := st.position + |g| + 8;
    FirstChallenge(st.challenges, cs);
    ChallengeStart(h, g, cs, st);
    ParseTo(h, st, State(st.challenges + [[]], true, next));
    ParamsParse(h, next, "", cs[0], cs[1..], st.challenges, []);
  }

  /** `split_challenges` recovers any list of challenges from its printed header. */
  lemma SplitOfHeader(cs: seq<Dict>)
    requires AreChallenges(cs)
    ensures Parse(HeaderText(cs), START) == cs
  {
    if cs != [] {
      var h := HeaderText(cs);
      assert "" + h == h;
      ChallengesParse(h, "", cs, START);
    }
  }
}
