/**
 Auth-params (sections 11.2 and 5.6.4 of RFC 9110): the parser and printer of
 `conformance/scripts/pair_runner.py`. The regular expressions become functions of the header and
 the position they are matched at; none of them looks back.
 */
module AuthParams {
  import opened Wrappers
  import opened Text
  import opened TextLines
  import opened Dicts

  // ---------------------------------------------------------------- the expressions

  /** `\s*`: where it ends. */
  function Spaces(h: string, i: nat): (j: nat)
    requires i <= |h|
    ensures i <= j <= |h|
    decreases |h| - i
  {
    if i < |h| && IsSpace(h[i]) then Spaces(h, i + 1) else i
  }

  predicate IsKeyChar(c: char) {
    'A' <= c <= 'Z' || 'a' <= c <= 'z' || '0' <= c <= '9' || c == '_' || c == '.' || c == '-'
  }

  function KeyEnd(h: string, i: nat): (j: nat)
    requires i <= |h|
    ensures i <= j <= |h|
    decreases |h| - i
  {
    if i < |h| && IsKeyChar(h[i]) then KeyEnd(h, i + 1) else i
  }

  /** `[^\s,]*`. */
  function BareEnd(h: string, i: nat): (j: nat)
    requires i <= |h|
    ensures i <= j <= |h|
    decreases |h| - i
  {
    if i < |h| && !IsSpace(h[i]) && h[i] != ',' then BareEnd(h, i + 1) else i
  }

  /** `(?:[^"\\]|\\.)*"` after an opening quote. */
  function QuotedEnd(h: string, i: nat): (r: Option<nat>)
    requires i <= |h|
    ensures r.Some? ==> i < r.value <= |h|
    decreases |h| - i
  {
    if i == |h| then None
    else if h[i] == '"' then Some(i + 1)
    else if h[i] == '\\' then
      if i + 1 == |h| || h[i + 1] == '\n' then None else QuotedEnd(h, i + 2)
    else QuotedEnd(h, i + 1)
  }

  /** `"(...)"` if it is closed, else the bare form. */
  function ValueEnd(h: string, i: nat): (j: nat)
    requires i <= |h|
    ensures i <= j <= |h|
  {
    if i < |h| && h[i] == '"' && QuotedEnd(h, i + 1).Some? then QuotedEnd(h, i + 1).value else BareEnd(h, i)
  }

  datatype Key = Key(name: string, end: nat)

  /** `\s*([A-Za-z0-9_.-]+)\s*=`. */
  function MatchKey(h: string, i: nat): (r: Option<Key>)
    requires i <= |h|
    ensures r.Some? ==> i < r.value.end <= |h|
  {
    var start := Spaces(h, i);
    var end := KeyEnd(h, start);
    var eq := Spaces(h, end);
    if end == start || eq == |h| || h[eq] != '=' then None else Some(Key(h[start..end], eq + 1))
  }

  datatype Param = Param(key: string, raw: string, end: nat)

  /** `AUTH_PARAM.match`. */
  function MatchParam(h: string, i: nat): (r: Option<Param>)
    requires i <= |h|
    ensures r.Some? ==> i < r.value.end <= |h|
  {
    match MatchKey(h, i)
    case None => None
    case Some(k) =>
      var from := Spaces(h, k.end);
      var to := ValueEnd(h, from);
      Some(Param(k.name, h[from..to], Spaces(h, to)))
  }

  /** `SCHEME.match`: where it ends. */
  function MatchScheme(h: string, i: nat): (r: Option<nat>)
    requires i <= |h|
    ensures r.Some? ==> i < r.value <= |h|
  {
    var start := Spaces(h, i);
    if |h| < start + 7 || Lower(h[start..start + 7]) != "payment" then None
    else
      var end := Spaces(h, start + 7);
      if end > start + 7 || |h| == start + 7 then Some(end) else None
  }

  /** `re.sub(r"\\(.)", r"\1", s)`. */
  function Unescape(s: string): string {
    if s == "" then ""
    else if s[0] == '\\' && |s| > 1 && s[1] != '\n' then [s[1]] + Unescape(s[2..])
    else [s[0]] + Unescape(s[1..])
  }

  /** `value[1:-1]` unescaped for a value that starts with a quote, closed or not. */
  function ValueOf(raw: string): string {
    if raw != "" && raw[0] == '"' then Unescape(if |raw| == 1 then "" else raw[1..|raw| - 1]) else raw
  }

  function FindComma(h: string, i: nat): (j: nat)
    requires i <= |h|
    ensures i <= j <= |h| && (j < |h| ==> h[j] == ',')
    decreases |h| - i
  {
    if i == |h| || h[i] == ',' then i else FindComma(h, i + 1)
  }

  // ---------------------------------------------------------------- the parser

  /** The state of the loop: the challenges so far, whether the last one is current, and the position. */
  datatype State = State(challenges: seq<Dict>, current: bool, position: nat)

  ghost predicate IsState(h: string, st: State) {
    st.position <= |h| && (st.current ==> st.challenges != [])
  }

  function SkipComma(h: string, i: nat): nat {
    if i < |h| && h[i] == ',' then i + 1 else i
  }

  function Assign(challenges: seq<Dict>, p: Param): seq<Dict>
    requires challenges != []
  {
    var n := |challenges| - 1;
    challenges[n := Put(challenges[n], Lower(p.key), ValueOf(p.raw))]
  }

  /** One turn of the loop, given what the two expressions match at the position. */
  function Turn(h: string, st: State, scheme: Option<nat>, param: Option<Param>): (after: State)
    requires IsState(h, st) && st.position < |h|
    requires (scheme.Some? ==> st.position < scheme.value <= |h|)
      && (param.Some? ==> st.position < param.value.end <= |h|)
    ensures IsState(h, after) && st.position < after.position
  {
    match scheme
    case Some(end) => State(st.challenges + [[]], true, end)
    case None =>
      match param
      case Some(p) => State(if st.current then Assign(st.challenges, p) else st.challenges, st.current,
        SkipComma(h, p.end))
      case None => State(st.challenges, false, SkipComma(h, FindComma(h, st.position)))
  }

  function Next(h: string, st: State): (after: State)
    requires IsState(h, st) && st.position < |h|
    ensures IsState(h, after) && st.position < after.position
  {
    Turn(h, st, MatchScheme(h, st.position), MatchParam(h, st.position))
  }

  function Parse(h: string, st: State): seq<Dict>
    requires IsState(h, st)
    decreases |h| - st.position
  {
    if st.position == |h| then st.challenges else Parse(h, Next(h, st))
  }

  const START := State([], false, 0)

  /** `split_challenges`: every turn moves the position, so the loop ends on every header. */
  method SplitChallenges(header: string) returns (challenges: seq<Dict>)
    ensures challenges == Parse(header, START)
  {
    challenges := [];
    var current := false;
    var position := 0;
    while position < |header|
      invariant IsState(header, State(challenges, current, position))
      invariant Parse(header, State(challenges, current, position)) == Parse(header, START)
      decreases |header| - position
    {
      ghost var st := State(challenges, current, position);
      var scheme := MatchScheme(header, position);
      if scheme.Some? {
        challenges := challenges + [[]];
        current := true;
        position := scheme.value;
        assert State(challenges, current, position) == Next(header, st);
        continue;
      }
      var param := MatchParam(header, position);
      if param.Some? {
        if current {
          challenges := Assign(challenges, param.value);
        }
        position := param.value.end;
      } else {
        current := false;
        position := FindComma(header, position);
      }
      if position < |header| && header[position] == ',' {
        position := position + 1;
      }
      assert State(challenges, current, position) == Next(header, st);
    }
  }

  // ---------------------------------------------------------------- the printer

  function Replace(s: string, c: char, with: string): string {
    if s == "" then "" else (if s[0] == c then with else [s[0]]) + Replace(s[1..], c, with)
  }

  function Escaped(v: string): string {
    Replace(Replace(v, '\\', "\\\\"), '"', "\\\"")
  }

  /** `quote`. */
  function Quote(v: string): string {
    "\"" + Escaped(v) + "\""
  }

  function ParamText(p: (string, string)): string {
    p.0 + "=" + Quote(p.1)
  }

  function ParamsText(ps: Dict): string {
    if ps == [] then "" else if |ps| == 1 then ParamText(ps[0]) else ParamText(ps[0]) + (", " + ParamsText(ps[1..]))
  }

  function ChallengeText(ps: Dict): string {
    "Payment " + ParamsText(ps)
  }

  function HeaderText(cs: seq<Dict>): string {
    if cs == [] then "" else ChallengeText(cs[0]) + MoreText(cs[1..])
  }

  /** The challenges after the first, each behind a comma and a space. */
  function MoreText(cs: seq<Dict>): string {
    if cs == [] then "" else ", " + (ChallengeText(cs[0]) + MoreText(cs[1..]))
  }
}
