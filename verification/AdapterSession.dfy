/**
 Request and response pairing of a long-lived adapter process: `AdapterSession` of
 `conformance/scripts/harness.py` and `Adapter` of `tempo-conformance/scripts/run.py`. Every process
 has its own queue, filled by its own reader; what the adapters and readers do between two steps
 of a call is an arbitrary schedule.
 */
module AdapterSession {
  import opened Wrappers

  /** The harness starts a process when a call needs one; the runner restarts it at once after a failure. */
  datatype Version = Harness | Runner

  /** A line in a queue: the answer to a call, or the end of the output. */
  datatype Line = Reply(call: nat) | Eof

  /** `inbox`: requests written and not read; `out`: answers written and not picked up by the reader. */
  datatype Proc = Proc(inbox: seq<nat>, out: seq<nat>, queue: seq<Line>, alive: bool, eof: bool)

  /** What happens around a call: process `g` takes a request (and maybe answers), dies, is read from, or is closed. */
  datatype Event = Answer(g: nat, written: bool) | Crash(g: nat) | Pump(g: nat) | Close(g: nat)

  datatype Sys = Sys(procs: seq<Proc>, current: Option<nat>)

  datatype Outcome = Got(call: nat) | TimedOut | Exited | PipeBroken

  /** The schedule of one call: before it, before its write, before it reads its queue; and whether the write fails. */
  datatype Script = Script(before: seq<Event>, midway: seq<Event>, during: seq<Event>, fails: bool)

  const FRESH := Proc([], [], [], true, false)

  // ---------------------------------------------------------------- steps

  /** An adapter writes at most one line per request it takes. */
  function Happens(p: Proc, e: Event): Proc {
    match e
    case Answer(_, written) =>
      if !p.alive || p.inbox == [] then p
      else p.(inbox := p.inbox[1..], out := if written && !p.eof then p.out + [p.inbox[0]] else p.out)
    case Crash(_) => p.(alive := false)
    case Pump(_) => if p.out == [] then p else p.(out := p.out[1..], queue := p.queue + [Reply(p.out[0])])
    case Close(_) => if p.eof then p else p.(out := [], queue := p.queue + [Eof], eof := true)
  }

  function Step(s: Sys, e: Event): Sys {
    if e.g < |s.procs| then s.(procs := s.procs[e.g := Happens(s.procs[e.g], e)]) else s
  }

  function Steps(s: Sys, es: seq<Event>): Sys
    decreases |es|
  {
    if es == [] then s else Steps(Step(s, es[0]), es[1..])
  }

  function Start(s: Sys): Sys {
    Sys(s.procs + [FRESH], Some(|s.procs|))
  }

  function Kill(s: Sys): Sys {
    match s.current
    case None => s
    case Some(g) => if g < |s.procs| then Sys(s.procs[g := s.procs[g].(alive := false)], None) else s
  }

  /** `_stop`, or `restart`. */
  function Stop(v: Version, s: Sys): Sys {
    if v == Harness then Kill(s) else Start(Kill(s))
  }

  /** The process a call uses: the harness replaces a process it finds dead. */
  function Ready(v: Version, s: Sys): Sys {
    if v == Runner || (s.current.Some? && s.current.value < |s.procs|
      && s.procs[s.current.value].alive) then s else Start(s)
  }

  /** Current process of a state that has one. */
  ghost predicate HasCurrent(s: Sys) {
    s.current.Some? && s.current.value < |s.procs|
  }

  function Write(s: Sys, call: nat): Sys
    requires HasCurrent(s)
  {
    var g := s.current.value;
    s.(procs := s.procs[g := s.procs[g].(inbox := s.procs[g].inbox + [call])])
  }

  /** Reading the queue of the current process: a line, or nothing until the timeout. */
  function Take(v: Version, s: Sys): (Sys, Outcome)
    requires HasCurrent(s)
  {
    var g := s.current.value;
    var p := s.procs[g];
    if p.queue == [] then (Stop(v, s), TimedOut)
    else if p.queue[0].Eof? then (Stop(v, s), Exited)
    else (s.(procs := s.procs[g := p.(queue := p.queue[1..])]), Got(p.queue[0].call))
  }

  /** The state in which a call writes its request. */
  function Reached(v: Version, s: Sys, x: Script): (r: Sys)
    requires Inv(v, s)
    ensures Inv(v, r) && HasCurrent(r)
  {
    StepsKeepInv(v, s, x.before);
    ReadyKeepsInv(v, Steps(s, x.before));
    var ready := Ready(v, Steps(s, x.before));
    StepsKeepInv(v, ready, x.midway);
    Steps(ready, x.midway)
  }

  predicate PipeFails(s: Sys, x: Script)
    requires HasCurrent(s)
  {
    x.fails && !s.procs[s.current.value].alive
  }

  function Exchange(v: Version, s: Sys, call: nat, x: Script): (Sys, Outcome)
    requires Inv(v, s)
  {
    var s' := Reached(v, s, x);
    if PipeFails(s', x) then (Stop(v, s'), PipeBroken)
    else
      WriteExpects(v, s', call);
      StepsKeepExpecting(v, Write(s', call), x.during, call);
      Take(v, Steps(Write(s', call), x.during))
  }

  // ---------------------------------------------------------------- invariant

  /** The calls whose answers are still on their way. */
  function Replies(queue: seq<Line>): seq<nat> {
    if queue == [] then [] else (if queue[0].Reply? then [queue[0].call] else []) + Replies(queue[1..])
  }

  function Pending(p: Proc): seq<nat> {
    Replies(p.queue) + p.out + p.inbox
  }

  /** Only the current process may be alive. */
  ghost predicate OthersDead(s: Sys) {
    forall g :: 0 <= g < |s.procs| && s.current != Some(g) ==> !s.procs[g].alive
  }

  /** Between calls nothing is on its way. */
  ghost predicate Inv(v: Version, s: Sys) {
    && OthersDead(s)
    && (s.current.Some? ==> HasCurrent(s) && Pending(s.procs[s.current.value]) == [])
    && (v == Runner ==> s.current.Some?)
  }

  /** During a call at most its own answer is. */
  ghost predicate Expecting(s: Sys, call: nat) {
    && OthersDead(s) && HasCurrent(s)
    && (Pending(s.procs[s.current.value]) == [] || Pending(s.procs[s.current.value]) == [call])
  }

  lemma {:induction false} RepliesConcat(a: seq<Line>, b: seq<Line>)
    ensures Replies(a + b) == Replies(a) + Replies(b)
    decreases |a|
  {
    if a == [] {
      assert a + b == b;
    } else {
      var first := if a[0].Reply? then [a[0].call] else [];
      assert (a + b)[1..] == a[1..] + b;
      RepliesConcat(a[1..], b);
      assert Replies(a + b) == first + (Replies(a[1..]) + Replies(b));
      assert Replies(a) == first + Replies(a[1..]);
      RepliesRegroup(first, Replies(a[1..]), Replies(b));
    }
  }

  lemma RepliesRegroup(a: seq<nat>, b: seq<nat>, c: seq<nat>)
    ensures a + (b + c) == a + b + c
  {
  }

  /** Nothing is added, duplicated or reordered on the way; it can only get lost. */
  lemma HappensLoses(p: Proc, e: Event, call: nat)
    requires Pending(p) == [] || Pending(p) == [call]
    ensures Pending(Happens(p, e)) == [] || Pending(Happens(p, e)) == [call]
    ensures Pending(p) == [] ==> Pending(Happens(p, e)) == []
    ensures !p.alive ==> !Happens(p, e).alive
  {
    var p' := Happens(p, e);
    match e
    case Answer(_, written) =>
      if p.alive && p.inbox != [] {
        PendingOne(p, call);
      }
    case Crash(_) =>
    case Pump(_) =>
      if p.out != [] {
        RepliesConcat(p.queue, [Reply(p.out[0])]);
        assert p'.out == p.out[1..];
        assert Replies([Reply(p.out[0])]) == [p.out[0]] by { assert [Reply(p.out[0])][1..] == []; }
        assert Replies(p.queue) + [p.out[0]] + p.out[1..] + p.inbox == Pending(p);
      }
    case Close(_) =>
      if !p.eof {
        RepliesConcat(p.queue, [Eof]);
        assert Replies([Eof]) == [] by { assert [Eof][1..] == []; }
        CloseLoses(Replies(p.queue), p.out, p.inbox, call);
      }
  }

  lemma PendingOne(p: Proc, call: nat)
    requires p.inbox != [] && (Pending(p) == [] || Pending(p) == [call])
    ensures Replies(p.queue) == [] && p.out == [] && p.inbox == [call]
  {
    assert |Pending(p)| == |Replies(p.queue)| + |p.out| + |p.inbox|;
    assert Pending(p)[|Pending(p)| - 1] == p.inbox[|p.inbox| - 1];
  }

  lemma CloseLoses(a: seq<nat>, b: seq<nat>, c: seq<nat>, call: nat)
    requires a + b + c == [] || a + b + c == [call]
    ensures a + [] + c == [] || a + [] + c == [call]
    ensures a + b + c == [] ==> a + [] + c == []
  {
    assert |a + b + c| == |a| + |b| + |c|;
    if |b| == 0 {
      assert a + [] + c == a + b + c;
    } else {
      assert a == [] && c == [];
    }
  }

  lemma {:induction false} StepsKeepInv(v: Version, s: Sys, es: seq<Event>)
    requires Inv(v, s)
    ensures Inv(v, Steps(s, es)) && Steps(s, es).current == s.current && |Steps(s, es).procs| == |s.procs|
    decreases |es|
  {
    if es != [] {
      var e := es[0];
      if e.g < |s.procs| {
        if s.current == Some(e.g) {
          HappensLoses(s.procs[e.g], e, 0);
        }
        assert !s.procs[e.g].alive ==> !Happens(s.procs[e.g], e).alive;
      }
      StepsKeepInv(v, Step(s, e), es[1..]);
    }
  }

  lemma {:induction false} StepsKeepExpecting(v: Version, s: Sys, es: seq<Event>, call: nat)
    requires Expecting(s, call)
    ensures Expecting(Steps(s, es), call) && Steps(s, es).current == s.current
    decreases |es|
  {
    if es != [] {
      var e := es[0];
      if e.g < |s.procs| {
        if s.current == Some(e.g) {
          HappensLoses(s.procs[e.g], e, call);
        }
        assert !s.procs[e.g].alive ==> !Happens(s.procs[e.g], e).alive;
      }
      StepsKeepExpecting(v, Step(s, e), es[1..], call);
    }
  }

  lemma ReadyKeepsInv(v: Version, s: Sys)
    requires Inv(v, s)
    ensures Inv(v, Ready(v, s)) && Ready(v, s).current.Some?
  {
  }

  lemma WriteExpects(v: Version, s: Sys, call: nat)
    requires Inv(v, s) && s.current.Some?
    ensures Expecting(Write(s, call), call)
  {
    var g := s.current.value;
    var p := s.procs[g];
    assert |Pending(p)| == |Replies(p.queue)| + |p.out| + |p.inbox|;
    assert Pending(Write(s, call).procs[g]) == [call];
  }

  lemma StopKeepsInv(v: Version, s: Sys)
    requires OthersDead(s) && HasCurrent(s)
    ensures Inv(v, Stop(v, s))
  {
  }

  /** Whatever happens around it, a call gets its own answer or an error, and nothing is left for the next one. */
  lemma ExchangeIsPaired(v: Version, s: Sys, call: nat, x: Script)
    requires Inv(v, s)
    ensures var (s', r) := Exchange(v, s, call, x); Inv(v, s') && (r.Got? ==> r.call == call)
  {
    var t := Reached(v, s, x);
    if PipeFails(t, x) {
      StopKeepsInv(v, t);
    } else {
      WriteExpects(v, t, call);
      StepsKeepExpecting(v, Write(t, call), x.during, call);
      TakeIsPaired(v, Steps(Write(t, call), x.during), call);
    }
  }

  lemma TakeIsPaired(v: Version, s: Sys, call: nat)
    requires Expecting(s, call)
    ensures var (s', r) := Take(v, s); Inv(v, s') && (r.Got? ==> r.call == call)
  {
    var g := s.current.value;
    var p := s.procs[g];
    if p.queue == [] || p.queue[0].Eof? {
      StopKeepsInv(v, s);
    } else {
      assert Pending(p)[0] == p.queue[0].call;
      assert |Pending(p)| == 1 + |Replies(p.queue[1..])| + |p.out| + |p.inbox|;
    }
  }

  // ---------------------------------------------------------------- all runs

  ghost function InitialState(v: Version): (s: Sys)
    ensures Inv(v, s)
  {
    if v == Harness then Sys([], None) else Start(Sys([], None))
  }

  /** The outcomes of the calls `first`, `first + 1`, ... under the given schedules. */
  function Outcomes(v: Version, s: Sys, first: nat, scripts: seq<Script>): (r: seq<Outcome>)
    requires Inv(v, s)
    ensures |r| == |scripts|
    decreases |scripts|
  {
    if scripts == [] then []
    else
      ExchangeIsPaired(v, s, first, scripts[0]);
      var (s', r) := Exchange(v, s, first, scripts[0]);
      [r] + Outcomes(v, s', first + 1, scripts[1..])
  }

  lemma OutcomesStep(v: Version, s: Sys, first: nat, scripts: seq<Script>) returns (next: Sys, r: Outcome)
    requires Inv(v, s) && scripts != []
    ensures Inv(v, next) && (r.Got? ==> r.call == first)
    ensures Outcomes(v, s, first, scripts) == [r] + Outcomes(v, next, first + 1, scripts[1..])
  {
    ExchangeIsPaired(v, s, first, scripts[0]);
    next, r := Exchange(v, s, first, scripts[0]).0, Exchange(v, s, first, scripts[0]).1;
  }

  /** Over any run of calls, under any interleaving, no call gets another call's answer. */
  lemma {:induction false} NoAnswerStrays(v: Version, s: Sys, first: nat, scripts: seq<Script>, i: nat)
    requires Inv(v, s) && i < |scripts|
    ensures var r := Outcomes(v, s, first, scripts)[i]; r.Got? ==> r.call == first + i
    decreases |scripts|
  {
    var s', r := OutcomesStep(v, s, first, scripts);
    if i > 0 {
      NoAnswerStrays(v, s', first + 1, scripts[1..], i - 1);
    }
  }

  /** An adapter that answers in time is heard: the pairing is not bought with errors. */
  lemma PromptAnswerIsReturned(v: Version, s: Sys, call: nat)
    requires Inv(v, s) && s.current.Some? && s.procs[s.current.value].alive
    requires s.procs[s.current.value].queue == [] && !s.procs[s.current.value].eof
    ensures var g := s.current.value;
      Exchange(v, s, call, Script([], [], [Answer(g, true), Pump(g)], false)).1 == Got(call)
  {
    var g := s.current.value;
    var p := s.procs[g];
    assert |Pending(p)| == |Replies(p.queue)| + |p.out| + |p.inbox|;
    var es := [Answer(g, true), Pump(g)];
    assert es[1..] == [Pump(g)] && es[1..][1..] == [];
    var w := Write(s, call);
    assert w.procs[g] == Proc([call], [], [], true, false);
    var a := Step(w, es[0]);
    assert a.procs[g] == Proc([], [call], [], true, false);
    var b := Step(a, es[1]);
    assert b.procs[g].queue == [Reply(call)];
    assert Steps(w, es) == Steps(a, es[1..]) == Steps(b, []) == b;
    assert Steps(s, []) == s && Ready(v, s) == s;
  }

  // ---------------------------------------------------------------- in place

  /** The session object. `Elapse` stands for what the other parties do between two of its statements. */
  class Session {
    const version: Version
    var procs: seq<Proc>
    var current: Option<nat>
    var calls: nat

    ghost predicate Valid()
      reads this
    {
      Inv(version, State())
    }

    function State(): Sys
      reads this
    {
      Sys(procs, current)
    }

    constructor (v: Version)
      ensures version == v && Valid() && calls == 0
    {
      version := v;
      procs := if v == Runner then [FRESH] else [];
      current := if v == Runner then Some(0) else None;
      calls := 0;
    }

    method Elapse(es: seq<Event>)
      modifies this`procs
      ensures State() == Steps(old(State()), es)
    {
      for i := 0 to |es|
        invariant Steps(State(), es[i..]) == Steps(old(State()), es)
        invariant current == old(current)
      {
        assert es[i..][0] == es[i] && es[i..][1..] == es[i + 1..];
        if es[i].g < |procs| {
          procs := procs[es[i].g := Happens(procs[es[i].g], es[i])];
        }
      }
    }

    method StartProcess()
      modifies this`procs, this`current
      ensures State() == Start(old(State()))
    {
      procs := procs + [FRESH];
      current := Some(|procs| - 1);
    }

    method StopProcess()
      modifies this`procs, this`current
      ensures State() == Stop(version, old(State()))
    {
      if current.Some? && current.value < |procs| {
        procs := procs[current.value := procs[current.value].(alive := false)];
        current := None;
      }
      if version == Runner {
        StartProcess();
      }
    }

    /** A process for the call, and time until its write. */
    method Prepare(x: Script)
      requires Valid()
      modifies this`procs, this`current
      ensures Valid() && State() == Reached(version, old(State()), x)
    {
      StepsKeepInv(version, State(), x.before);
      Elapse(x.before);
      ReadyKeepsInv(version, State());
      if version == Harness && !(current.Some? && current.value < |procs| && procs[current.value].alive) {
        StartProcess();
      }
      StepsKeepInv(version, State(), x.midway);
      Elapse(x.midway);
    }

    method WriteRequest(call: nat)
      requires HasCurrent(State())
      modifies this`procs
      ensures State() == Write(old(State()), call)
    {
      var g := current.value;
      procs := procs[g := procs[g].(inbox := procs[g].inbox + [call])];
    }

    /** The next line of the queue, within the timeout. */
    method Receive() returns (r: Outcome)
      requires HasCurrent(State())
      modifies this`procs, this`current
      ensures (State(), r) == Take(version, old(State()))
    {
      var g := current.value;
      if procs[g].queue == [] {
        StopProcess();
        return TimedOut;
      }
      var line := procs[g].queue[0];
      if line.Eof? {
        StopProcess();
        return Exited;
      }
      procs := procs[g := procs[g].(queue := procs[g].queue[1..])];
      return Got(line.call);
    }

    /** The session stays valid, and what a call returns is its own answer or an error. */
    method Call(x: Script) returns (r: Outcome)
      requires Valid()
      modifies this
      ensures Valid() && calls == old(calls) + 1
      ensures (State(), r) == Exchange(version, old(State()), old(calls), x)
      ensures r.Got? ==> r.call == old(calls)
    {
      var call := calls;
      ExchangeIsPaired(version, State(), call, x);
      calls := calls + 1;
      Prepare(x);
      if x.fails && !procs[current.value].alive {
        StopProcess();
        return PipeBroken;
      }
      WriteExpects(version, State(), call);
      StepsKeepExpecting(version, Write(State(), call), x.during, call);
      WriteRequest(call);
      Elapse(x.during);
      r := Receive();
    }
  }
}
