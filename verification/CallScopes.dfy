/**
 Call scopes in the two forms of `tempo-conformance/adapters/typescript/adapter.ts`: nested by target
 as the node gives them, and flat as the SDK takes them. Addresses and selectors are hex text.
 */
module CallScopes {
  import opened Wrappers
  import opened Text

  datatype Rule = Rule(selector: string, recipients: Option<seq<string>>)

  /** One allowed target. No rules: every selector. A rule without recipients: every recipient. */
  datatype CallScope = CallScope(target: string, rules: Option<seq<Rule>>)

  datatype Scope = Scope(address: string, selector: Option<string>, recipients: Option<seq<string>>)

  function OrEmpty<T>(o: Option<seq<T>>): seq<T> {
    if o.Some? then o.value else []
  }

  function LowerAll(xs: seq<string>): (r: seq<string>)
    ensures |r| == |xs| && forall i :: 0 <= i < |r| ==> r[i] == Lower(xs[i])
  {
    seq(|xs|, i requires 0 <= i < |xs| => Lower(xs[i]))
  }

  // ---------------------------------------------------------------- nested to flat

  function RuleScope(target: string, r: Rule): Scope {
    Scope(target, Some(r.selector), if OrEmpty(r.recipients) != [] then r.recipients else None)
  }

  function ScopesOf(c: CallScope): (r: seq<Scope>)
    ensures r != []
  {
    var rules := OrEmpty(c.rules);
    if rules == [] then [Scope(c.target, None, None)]
    else seq(|rules|, i requires 0 <= i < |rules| => RuleScope(c.target, rules[i]))
  }

  /** `toScopes`. */
  function ToScopes(calls: seq<CallScope>): seq<Scope> {
    if calls == [] then []
    else
      var n := |calls| - 1;
      ToScopes(calls[..n]) + ScopesOf(calls[n])
  }

  // ---------------------------------------------------------------- flat to nested

  datatype Building = Building(out: seq<CallScope>, wildcard: set<string>)

  function EntryAt(out: seq<CallScope>, target: string): (r: Option<nat>)
    ensures r.Some? ==> r.value < |out| && out[r.value].target == target
    ensures r.None? ==> forall i :: 0 <= i < |out| ==> out[i].target != target
  {
    if out == [] then None
    else if out[0].target == target then Some(0)
    else
      match EntryAt(out[1..], target)
      case None =>
        assert forall i :: 1 <= i < |out| ==> out[i] == out[1..][i - 1];
        None
      case Some(i) => Some(i + 1)
  }

  function LowerRule(s: Scope): Rule
    requires s.selector.Some?
  {
    Rule(Lower(s.selector.value), Some(LowerAll(OrEmpty(s.recipients))))
  }

  function AddRule(c: CallScope, r: Rule): CallScope {
    CallScope(c.target, Some(OrEmpty(c.rules) + [r]))
  }

  /** One turn of the loop of `fromScopes`. */
  function AddScope(b: Building, s: Scope): Building {
    var target := Lower(s.address);
    var found := EntryAt(b.out, target);
    var out := if found.Some? then b.out else b.out + [CallScope(target, Some([]))];
    var at := if found.Some? then found.value else |b.out|;
    if s.selector.None? then Building(out, b.wildcard + {target})
    else Building(out[at := AddRule(out[at], LowerRule(s))], b.wildcard)
  }

  function AddScopes(b: Building, scopes: seq<Scope>): Building {
    if scopes == [] then b
    else
      var n := |scopes| - 1;
      AddScope(AddScopes(b, scopes[..n]), scopes[n])
  }

  function Dominated(b: Building): (r: seq<CallScope>)
    ensures |r| == |b.out|
  {
    seq(|b.out|, i requires 0 <= i < |b.out| =>
      if b.out[i].target in b.wildcard then CallScope(b.out[i].target, Some([])) else b.out[i])
  }

  const EMPTY := Building([], {})

  function FromScopes(scopes: Option<seq<Scope>>): Option<seq<CallScope>> {
    if scopes.None? then None else Some(Dominated(AddScopes(EMPTY, scopes.value)))
  }

  method FromScopesLoop(scopes: Option<seq<Scope>>) returns (r: Option<seq<CallScope>>)
    ensures r == FromScopes(scopes)
  {
    if scopes.None? {
      return None;
    }
    var out: seq<CallScope> := [];
    var wildcard: set<string> := {};
    for i := 0 to |scopes.value|
      invariant Building(out, wildcard) == AddScopes(EMPTY, scopes.value[..i])
    {
      assert scopes.value[..i + 1][..i] == scopes.value[..i];
      var s := scopes.value[i];
      var target := Lower(s.address);
      var found := EntryAt(out, target);
      var at := if found.Some? then found.value else |out|;
      if found.None? {
        out := out + [CallScope(target, Some([]))];
      }
      if s.selector.None? {
        wildcard := wildcard + {target};
      } else {
        out := out[at := AddRule(out[at], LowerRule(s))];
      }
    }
    assert scopes.value[..|scopes.value|] == scopes.value;
    ghost var built := Building(out, wildcard);
    for i := 0 to |out|
      invariant |out| == |built.out|
      invariant forall k :: 0 <= k < i ==> out[k] == Dominated(built)[k]
      invariant forall k :: i <= k < |out| ==> out[k] == built.out[k]
    {
      if out[i].target in wildcard {
        out := out[i := CallScope(out[i].target, Some([]))];
      }
    }
    assert out == Dominated(built);
    return Some(out);
  }

  // ---------------------------------------------------------------- meaning

  predicate Includes(recipients: Option<seq<string>>, to: string) {
    OrEmpty(recipients) == [] || to in LowerAll(OrEmpty(recipients))
  }

  predicate RulePermits(r: Rule, selector: string, to: string) {
    Lower(r.selector) == selector && Includes(r.recipients, to)
  }

  predicate CallPermits(c: CallScope, target: string, selector: string, to: string) {
    && Lower(c.target) == target
    && (OrEmpty(c.rules) == [] ||
        exists i :: 0 <= i < |OrEmpty(c.rules)| && RulePermits(OrEmpty(c.rules)[i], selector, to))
  }

  /** Whether a lower-case (target, selector, recipient) may be called: absent scopes allow all, empty ones nothing. */
  predicate Permits(calls: Option<seq<CallScope>>, target: string, selector: string, to: string) {
    calls.None? || exists i :: 0 <= i < |calls.value| && CallPermits(calls.value[i], target, selector, to)
  }

  predicate ScopePermits(s: Scope, target: string, selector: string, to: string) {
    && Lower(s.address) == target
    && (s.selector.None? || (Lower(s.selector.value) == selector && Includes(s.recipients, to)))
  }

  predicate ScopesPermit(scopes: seq<Scope>, target: string, selector: string, to: string) {
    exists i :: 0 <= i < |scopes| && ScopePermits(scopes[i], target, selector, to)
  }

  lemma ScopesPermitConcat(a: seq<Scope>, b: seq<Scope>, target: string, selector: string, to: string)
    ensures ScopesPermit(a + b, target, selector, to) <==>
      ScopesPermit(a, target, selector, to) || ScopesPermit(b, target, selector, to)
  {
    if i :| 0 <= i < |a| && ScopePermits(a[i], target, selector, to) {
      assert (a + b)[i] == a[i];
    }
    if i :| 0 <= i < |b| && ScopePermits(b[i], target, selector, to) {
      assert (a + b)[|a| + i] == b[i];
    }
  }

  lemma ScopesOfPermit(c: CallScope, target: string, selector: string, to: string)
    ensures ScopesPermit(ScopesOf(c), target, selector, to) <==> CallPermits(c, target, selector, to)
  {
    var rules, scopes := OrEmpty(c.rules), ScopesOf(c);
    if rules == [] {
      assert scopes[0] == Scope(c.target, None, None);
    } else {
      forall i | 0 <= i < |rules|
        ensures ScopePermits(scopes[i], target, selector, to) <==>
          Lower(c.target) == target && RulePermits(rules[i], selector, to)
      {
        assert scopes[i] == RuleScope(c.target, rules[i]);
      }
    }
  }

  lemma PermitsLast(calls: seq<CallScope>, c: CallScope, target: string, selector: string, to: string)
    ensures Permits(Some(calls + [c]), target, selector, to) <==>
      Permits(Some(calls), target, selector, to) || CallPermits(c, target, selector, to)
  {
    var all := calls + [c];
    if i :| 0 <= i < |calls| && CallPermits(calls[i], target, selector, to) {
      assert all[i] == calls[i];
    }
    if CallPermits(c, target, selector, to) {
      assert all[|calls|] == c;
    }
    if i :| 0 <= i < |all| && CallPermits(all[i], target, selector, to) {
      assert i < |calls| ==> calls[i] == all[i];
    }
  }

  lemma {:induction false} ToScopesPermits(calls: seq<CallScope>, target: string, selector: string, to: string)
    ensures ScopesPermit(ToScopes(calls), target, selector, to) <==> Permits(Some(calls), target, selector, to)
    decreases |calls|
  {
    if calls != [] {
      var n := |calls| - 1;
      ToScopesPermits(calls[..n], target, selector, to);
      ScopesOfPermit(calls[n], target, selector, to);
      ScopesPermitConcat(ToScopes(calls[..n]), ScopesOf(calls[n]), target, selector, to);
      PermitsLast(calls[..n], calls[n], target, selector, to);
      assert calls == calls[..n] + [calls[n]];
    }
  }

  // ---------------------------------------------------------------- what the loop builds

  ghost predicate IsLowerRule(r: Rule) {
    && IsLower(r.selector) && r.recipients.Some?
    && forall i :: 0 <= i < |r.recipients.value| ==> IsLower(r.recipients.value[i])
  }

  ghost predicate IsLowerCall(c: CallScope) {
    && IsLower(c.target) && c.rules.Some?
    && forall i :: 0 <= i < |c.rules.value| ==> IsLowerRule(c.rules.value[i])
  }

  /** Lower case throughout, all fields present, one entry per target: the form the node gives. */
  ghost predicate IsNormal(calls: seq<CallScope>) {
    && (forall i :: 0 <= i < |calls| ==> IsLowerCall(calls[i]))
    && (forall i, j :: 0 <= i < j < |calls| ==> calls[i].target != calls[j].target)
  }

  /** An entry without rules is a wildcard, and every wildcard has an entry. */
  ghost predicate BuildingOk(b: Building) {
    && IsNormal(b.out)
    && (forall i :: 0 <= i < |b.out| && b.out[i].rules == Some([]) ==> b.out[i].target in b.wildcard)
    && (forall t :: t in b.wildcard ==> EntryAt(b.out, t).Some?)
  }

  predicate EntryAllows(b: Building, c: CallScope, target: string, selector: string, to: string) {
    && c.target == target
    && (target in b.wildcard ||
        exists j :: 0 <= j < |OrEmpty(c.rules)| && RulePermits(OrEmpty(c.rules)[j], selector, to))
  }

  predicate Allows(b: Building, target: string, selector: string, to: string) {
    exists i :: 0 <= i < |b.out| && EntryAllows(b, b.out[i], target, selector, to)
  }

  lemma LowerRuleFacts(s: Scope, selector: string, to: string)
    requires s.selector.Some?
    ensures IsLowerRule(LowerRule(s))
    ensures RulePermits(LowerRule(s), selector, to) <==>
      Lower(s.selector.value) == selector && Includes(s.recipients, to)
  {
    LowerFixed(s.selector.value);
    LowerFixed(Lower(s.selector.value));
    var xs := OrEmpty(s.recipients);
    forall i | 0 <= i < |xs| ensures IsLower(LowerAll(xs)[i]) && Lower(LowerAll(xs)[i]) == LowerAll(xs)[i] {
      LowerFixed(xs[i]);
      LowerFixed(Lower(xs[i]));
    }
    assert LowerAll(LowerAll(xs)) == LowerAll(xs);
  }

  lemma AddRuleFacts(c: CallScope, r: Rule)
    requires IsLowerCall(c) && IsLowerRule(r)
    ensures IsLowerCall(AddRule(c, r)) && AddRule(c, r).target == c.target && AddRule(c, r).rules != Some([])
  {
  }

  lemma EntryAtFirst(out: seq<CallScope>, i: nat)
    requires i < |out|
    ensures EntryAt(out, out[i].target).Some?
  {
    var r := EntryAt(out, out[i].target);
  }

  lemma NewEntryIsNormal(out: seq<CallScope>, target: string)
    requires IsNormal(out) && EntryAt(out, target).None? && IsLower(target)
    ensures IsNormal(out + [CallScope(target, Some([]))])
  {
    var out' := out + [CallScope(target, Some([]))];
    assert forall i :: 0 <= i < |out| ==> out'[i] == out[i];
    assert IsLowerCall(out'[|out|]);
  }

  lemma MoreRulesAreNormal(out: seq<CallScope>, at: nat, r: Rule)
    requires IsNormal(out) && at < |out| && IsLowerRule(r)
    ensures IsNormal(out[at := AddRule(out[at], r)])
  {
    AddRuleFacts(out[at], r);
  }

  lemma SameTargets(out: seq<CallScope>, out': seq<CallScope>, t: string)
    requires |out| <= |out'| && forall i :: 0 <= i < |out| ==> out'[i].target == out[i].target
    requires EntryAt(out, t).Some?
    ensures EntryAt(out', t).Some?
  {
    EntryAtFirst(out', EntryAt(out, t).value);
  }

  lemma AddScopeKeepsOk(b: Building, s: Scope)
    requires BuildingOk(b)
    ensures BuildingOk(AddScope(b, s))
  {
    var target := Lower(s.address);
    LowerFixed(s.address);
    var found := EntryAt(b.out, target);
    var out := if found.Some? then b.out else b.out + [CallScope(target, Some([]))];
    var at := if found.Some? then found.value else |b.out|;
    if found.None? {
      NewEntryIsNormal(b.out, target);
    }
    if s.selector.Some? {
      LowerRuleFacts(s, "", "");
      MoreRulesAreNormal(out, at, LowerRule(s));
    }
    AddScopeWildcards(b, s, out, at, target);
  }

  lemma AddScopeWildcards(b: Building, s: Scope, out: seq<CallScope>, at: nat, target: string)
    requires BuildingOk(b) && at < |out| && out[at].target == target
    requires out == b.out || (out == b.out + [CallScope(target, Some([]))] && at == |b.out|)
    requires AddScope(b, s) == if s.selector.None? then Building(out, b.wildcard + {target})
                               else Building(out[at := AddRule(out[at], LowerRule(s))], b.wildcard)
    ensures var b' := AddScope(b, s);
      && (forall i :: 0 <= i < |b'.out| && b'.out[i].rules == Some([]) ==> b'.out[i].target in b'.wildcard)
      && (forall t :: t in b'.wildcard ==> EntryAt(b'.out, t).Some?)
  {
    var b' := AddScope(b, s);
    forall t | t in b'.wildcard ensures EntryAt(b'.out, t).Some? {
      if t in b.wildcard {
        SameTargets(b.out, b'.out, t);
      } else {
        EntryAtFirst(b'.out, at);
      }
    }
  }

  /** Adding a scope adds exactly what it permits. */
  lemma AddScopeAllows(b: Building, s: Scope, target: string, selector: string, to: string)
    requires BuildingOk(b)
    ensures Allows(AddScope(b, s), target, selector, to) <==>
      Allows(b, target, selector, to) || ScopePermits(s, target, selector, to)
  {
    var t := Lower(s.address);
    var b' := AddScope(b, s);
    var found := EntryAt(b.out, t);
    var at := if found.Some? then found.value else |b.out|;
    assert b'.out[at].target == t;
    forall i | 0 <= i < |b.out| && i != at ensures b'.out[i] == b.out[i] {
    }
    if s.selector.None? {
      WildcardAllows(b, b', at, t, target, selector, to);
    } else {
      LowerRuleFacts(s, selector, to);
      RuleAllows(b, b', at, LowerRule(s), target, selector, to);
    }
  }

  lemma WildcardAllows(b: Building, b': Building, at: nat, t: string, target: string, selector: string, to: string)
    requires b'.wildcard == b.wildcard + {t} && at < |b'.out| && b'.out[at].target == t
    requires |b.out| <= |b'.out| <= |b.out| + 1 && at <= |b.out| && (|b'.out| > |b.out| ==> at == |b.out|)
    requires forall i :: 0 <= i < |b.out| ==> b'.out[i] == b.out[i]
    ensures Allows(b', target, selector, to) <==> Allows(b, target, selector, to) || t == target
  {
    if i :| 0 <= i < |b.out| && EntryAllows(b, b.out[i], target, selector, to) {
      assert EntryAllows(b', b'.out[i], target, selector, to);
    }
    if t == target {
      assert EntryAllows(b', b'.out[at], target, selector, to);
    }
    if i :| 0 <= i < |b'.out| && EntryAllows(b', b'.out[i], target, selector, to) && t != target {
      assert i < |b.out| && EntryAllows(b, b.out[i], target, selector, to);
    }
  }

  lemma RuleAllows(b: Building, b': Building, at: nat, r: Rule, target: string, selector: string, to: string)
    requires b'.wildcard == b.wildcard && at < |b'.out| && at <= |b.out|
    requires |b'.out| == if at < |b.out| then |b.out| else |b.out| + 1
    requires forall i :: 0 <= i < |b.out| && i != at ==> b'.out[i] == b.out[i]
    requires BuildingOk(b) && (at == |b.out| ==> b'.out[at].target !in b.wildcard)
    requires b'.out[at] == AddRule(if at < |b.out| then b.out[at] else CallScope(b'.out[at].target, Some([])), r)
    ensures Allows(b', target, selector, to) <==>
      Allows(b, target, selector, to) || (b'.out[at].target == target && RulePermits(r, selector, to))
  {
    var was := if at < |b.out| then b.out[at] else CallScope(b'.out[at].target, Some([]));
    var rules := OrEmpty(was.rules);
    assert OrEmpty(b'.out[at].rules) == rules + [r];
    assert EntryAllows(b', b'.out[at], target, selector, to) <==>
           EntryAllows(b, was, target, selector, to) || (was.target == target && RulePermits(r, selector, to)) by {
      assert (rules + [r])[|rules|] == r;
      assert forall j :: 0 <= j < |rules| ==> (rules + [r])[j] == rules[j];
    }
    if i :| 0 <= i < |b.out| && EntryAllows(b, b.out[i], target, selector, to) {
      assert EntryAllows(b', b'.out[i], target, selector, to);
    }
    if EntryAllows(b', b'.out[at], target, selector, to) {
      assert Allows(b', target, selector, to);
    }
    if i :| 0 <= i < |b'.out| && EntryAllows(b', b'.out[i], target, selector, to) {
      assert i != at ==> EntryAllows(b, b.out[i], target, selector, to);
    }
  }

  lemma {:induction false} AddScopesAllow(scopes: seq<Scope>, target: string, selector: string, to: string)
    ensures BuildingOk(AddScopes(EMPTY, scopes))
    ensures Allows(AddScopes(EMPTY, scopes), target, selector, to) <==> ScopesPermit(scopes, target, selector, to)
  {
    if scopes != [] {
      var n := |scopes| - 1;
      AddScopesAllow(scopes[..n], target, selector, to);
      AddScopeKeepsOk(AddScopes(EMPTY, scopes[..n]), scopes[n]);
      AddScopeAllows(AddScopes(EMPTY, scopes[..n]), scopes[n], target, selector, to);
      assert forall i :: 0 <= i < n ==> scopes[..n][i] == scopes[i];
    }
  }

  lemma DominatedPermits(b: Building, target: string, selector: string, to: string)
    requires BuildingOk(b)
    ensures Permits(Some(Dominated(b)), target, selector, to) <==> Allows(b, target, selector, to)
    ensures IsNormal(Dominated(b))
  {
    var out := Dominated(b);
    forall i | 0 <= i < |b.out|
      ensures IsLowerCall(out[i]) && out[i].target == b.out[i].target
      ensures CallPermits(out[i], target, selector, to) <==> EntryAllows(b, b.out[i], target, selector, to)
    {
      LowerFixed(b.out[i].target);
      assert IsLowerCall(b.out[i]);
    }
  }

  /** Both translations together permit exactly what the scopes permitted, with one lower-case entry per target. */
  lemma TranslationPermitsTheSame(calls: seq<CallScope>, target: string, selector: string, to: string)
    ensures Permits(FromScopes(Some(ToScopes(calls))), target, selector, to) <==>
      Permits(Some(calls), target, selector, to)
    ensures IsNormal(FromScopes(Some(ToScopes(calls))).value)
  {
    AddScopesAllow(ToScopes(calls), target, selector, to);
    DominatedPermits(AddScopes(EMPTY, ToScopes(calls)), target, selector, to);
    ToScopesPermits(calls, target, selector, to);
  }

  // ---------------------------------------------------------------- when nothing changes

  lemma AddScopesLast(b: Building, scopes: seq<Scope>, s: Scope)
    ensures AddScopes(b, scopes + [s]) == AddScope(AddScopes(b, scopes), s)
  {
    assert (scopes + [s])[..|scopes|] == scopes;
  }

  lemma {:induction false} AddScopesConcat(b: Building, x: seq<Scope>, y: seq<Scope>)
    ensures AddScopes(b, x + y) == AddScopes(AddScopes(b, x), y)
    decreases |y|
  {
    if y == [] {
      assert x + y == x;
    } else {
      var n := |y| - 1;
      assert x + y == (x + y[..n]) + [y[n]] && y == y[..n] + [y[n]];
      AddScopesConcat(b, x, y[..n]);
      AddScopesLast(b, x + y[..n], y[n]);
      AddScopesLast(AddScopes(b, x), y[..n], y[n]);
    }
  }

  function Wildcards(calls: seq<CallScope>): set<string> {
    set i | 0 <= i < |calls| && calls[i].rules == Some([]) :: calls[i].target
  }

  lemma LowerAllFixed(xs: seq<string>)
    requires forall i :: 0 <= i < |xs| ==> IsLower(xs[i])
    ensures LowerAll(xs) == xs
  {
    forall i | 0 <= i < |xs| ensures LowerAll(xs)[i] == xs[i] {
      LowerFixed(xs[i]);
    }
  }

  lemma RuleSurvives(target: string, r: Rule)
    requires IsLowerRule(r)
    ensures LowerRule(RuleScope(target, r)) == r
  {
    LowerFixed(r.selector);
    LowerAllFixed(r.recipients.value);
  }

  lemma {:induction false} EntryAtLast(out: seq<CallScope>, c: CallScope)
    requires forall i :: 0 <= i < |out| ==> out[i].target != c.target
    ensures EntryAt(out, c.target) == None && EntryAt(out + [c], c.target) == Some(|out|)
  {
    if out != [] {
      assert (out + [c])[1..] == out[1..] + [c];
      EntryAtLast(out[1..], c);
    }
  }

  /** One more rule of a target whose entry is the last one. */
  lemma RuleRebuilds(out: seq<CallScope>, w: set<string>, target: string, rules: seq<Rule>, r: Rule)
    requires IsLower(target) && IsLowerRule(r) && forall i :: 0 <= i < |out| ==> out[i].target != target
    ensures AddScope(Building(out + [CallScope(target, Some(rules))], w), RuleScope(target, r))
         == Building(out + [CallScope(target, Some(rules + [r]))], w)
  {
    LowerFixed(target);
    RuleSurvives(target, r);
    var c := CallScope(target, Some(rules));
    EntryAtLast(out, c);
    assert (out + [c])[|out| := AddRule(c, r)] == out + [AddRule(c, r)];
  }

  lemma FirstRuleRebuilds(out: seq<CallScope>, w: set<string>, target: string, r: Rule)
    requires IsLower(target) && IsLowerRule(r) && forall i :: 0 <= i < |out| ==> out[i].target != target
    ensures AddScope(Building(out, w), RuleScope(target, r)) == Building(out + [CallScope(target, Some([r]))], w)
  {
    LowerFixed(target);
    RuleSurvives(target, r);
    var c := CallScope(target, Some([]));
    EntryAtLast(out, c);
    assert [] + [r] == [r];
    assert (out + [c])[|out| := AddRule(c, r)] == out + [AddRule(c, r)];
  }

  /** The scopes of one new target rebuild its entry rule by rule. */
  lemma {:induction false} RulesRebuild(out: seq<CallScope>, w: set<string>, target: string, scopes: seq<Scope>,
    rules: seq<Rule>)
    requires IsLower(target) && forall i :: 0 <= i < |out| ==> out[i].target != target
    requires |scopes| == |rules| > 0
    requires forall i :: 0 <= i < |rules| ==> IsLowerRule(rules[i]) && scopes[i] == RuleScope(target, rules[i])
    ensures AddScopes(Building(out, w), scopes) == Building(out + [CallScope(target, Some(rules))], w)
    decreases |rules|
  {
    var n := |rules| - 1;
    assert scopes == scopes[..n] + [scopes[n]] && rules == rules[..n] + [rules[n]];
    AddScopesLast(Building(out, w), scopes[..n], scopes[n]);
    if n == 0 {
      FirstRuleRebuilds(out, w, target, rules[0]);
    } else {
      RulesRebuild(out, w, target, scopes[..n], rules[..n]);
      RuleRebuilds(out, w, target, rules[..n], rules[n]);
    }
  }

  lemma CallRebuilds(out: seq<CallScope>, w: set<string>, c: CallScope)
    requires IsLowerCall(c) && forall i :: 0 <= i < |out| ==> out[i].target != c.target
    ensures AddScopes(Building(out, w), ScopesOf(c)) ==
      Building(out + [c], if c.rules == Some([]) then w + {c.target} else w)
  {
    LowerFixed(c.target);
    if c.rules == Some([]) {
      var s := Scope(c.target, None, None);
      EntryAtLast(out, c);
      assert ScopesOf(c) == [s] && [s][..0] == [];
      assert AddScopes(Building(out, w), [s]) == AddScope(Building(out, w), s);
    } else {
      RulesRebuild(out, w, c.target, ScopesOf(c), c.rules.value);
    }
  }

  lemma WildcardsLast(calls: seq<CallScope>, c: CallScope)
    ensures Wildcards(calls + [c]) == Wildcards(calls) + if c.rules == Some([]) then {c.target} else {}
  {
    var all := calls + [c];
    forall x | x in Wildcards(calls) ensures x in Wildcards(all) {
      var i :| 0 <= i < |calls| && calls[i].rules == Some([]) && calls[i].target == x;
      assert all[i] == calls[i];
    }
    if c.rules == Some([]) {
      assert all[|calls|] == c;
      assert c.target in Wildcards(all);
    }
  }

  lemma NormalLast(calls: seq<CallScope>)
    requires IsNormal(calls) && calls != []
    ensures var n := |calls| - 1;
      && IsNormal(calls[..n]) && IsLowerCall(calls[n]) && calls == calls[..n] + [calls[n]]
      && forall i :: 0 <= i < |calls[..n]| ==> calls[..n][i].target != calls[n].target
  {
  }

  lemma ToScopesLast(calls: seq<CallScope>)
    requires calls != []
    ensures var n := |calls| - 1;
      AddScopes(EMPTY, ToScopes(calls)) == AddScopes(AddScopes(EMPTY, ToScopes(calls[..n])), ScopesOf(calls[n]))
  {
    var n := |calls| - 1;
    AddScopesConcat(EMPTY, ToScopes(calls[..n]), ScopesOf(calls[n]));
  }

  lemma {:induction false} NormalRebuilds(calls: seq<CallScope>)
    requires IsNormal(calls)
    ensures AddScopes(EMPTY, ToScopes(calls)) == Building(calls, Wildcards(calls))
  {
    if calls == [] {
      assert AddScopes(EMPTY, []) == EMPTY && Wildcards([]) == {};
    } else {
      var n := |calls| - 1;
      NormalLast(calls);
      NormalRebuilds(calls[..n]);
      ToScopesLast(calls);
      CallRebuilds(calls[..n], Wildcards(calls[..n]), calls[n]);
      WildcardsLast(calls[..n], calls[n]);
    }
  }

  /** The translation gives back its input exactly when the input has the normal form. */
  lemma TranslationIsIdentityExactlyWhen(calls: seq<CallScope>)
    ensures FromScopes(Some(ToScopes(calls))) == Some(calls) <==> IsNormal(calls)
  {
    if IsNormal(calls) {
      NormalRebuilds(calls);
      var out := Dominated(AddScopes(EMPTY, ToScopes(calls)));
      forall i | 0 <= i < |calls| ensures out[i] == calls[i] {
        if calls[i].target in Wildcards(calls) {
          var j :| 0 <= j < |calls| && calls[j].rules == Some([]) && calls[j].target == calls[i].target;
          assert i == j;
        }
      }
      assert out == calls;
    } else {
      TranslationPermitsTheSame(calls, "", "", "");
    }
  }

  /** For instance, a target that is not in lower case does not come back, and neither does one given twice. */
  lemma SomeDoNotComeBack(c: CallScope)
    ensures Lower(c.target) != c.target ==> FromScopes(Some(ToScopes([c]))) != Some([c])
    ensures FromScopes(Some(ToScopes([c, c]))) != Some([c, c])
  {
    TranslationIsIdentityExactlyWhen([c]);
    TranslationIsIdentityExactlyWhen([c, c]);
    NotNormal(c);
  }

  lemma NotNormal(c: CallScope)
    ensures Lower(c.target) != c.target ==> !IsNormal([c])
    ensures !IsNormal([c, c])
  {
    if IsLower(c.target) {
      LowerFixed(c.target);
    }
    assert IsNormal([c]) ==> IsLowerCall([c][0]);
    assert [c, c][0].target == [c, c][1].target;
  }

  // ---------------------------------------------------------------- absent and empty

  /** What `toAuth` and the answer make of optional scopes: absent ones are not translated. */
  function Translated(calls: Option<seq<CallScope>>): Option<seq<CallScope>> {
    FromScopes(if calls.None? then None else Some(ToScopes(calls.value)))
  }

  /** Every authorization keeps its meaning; absent scopes stay absent and empty ones empty. */
  lemma TranslatedPermitsTheSame(calls: Option<seq<CallScope>>, target: string, selector: string, to: string)
    ensures Permits(Translated(calls), target, selector, to) <==> Permits(calls, target, selector, to)
    ensures Translated(calls).None? <==> calls.None?
    ensures Translated(calls) == Some([]) <==> calls == Some([])
  {
    if calls.Some? {
      TranslationPermitsTheSame(calls.value, target, selector, to);
      if calls.value == [] {
        assert ToScopes([]) == [];
      } else {
        var c := calls.value[0];
        ToScopesPermits(calls.value, Lower(c.target), "", "");
        NonEmptyStays(calls.value);
      }
    }
  }

  lemma {:induction false} TargetsStay(b: Building, scopes: seq<Scope>)
    ensures |AddScopes(b, scopes).out| >= |b.out|
    ensures scopes != [] ==> AddScopes(b, scopes).out != []
  {
    if scopes != [] {
      TargetsStay(b, scopes[..|scopes| - 1]);
    }
  }

  lemma NonEmptyStays(calls: seq<CallScope>)
    requires calls != []
    ensures FromScopes(Some(ToScopes(calls))) != Some([])
  {
    TargetsStay(EMPTY, ToScopes(calls));
  }
}
