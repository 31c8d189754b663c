/**
 `DecisionLedger` of `agricola/ledger.py`: one file per change, decisions appended under
 idempotency keys. The functions say what each operation computes; the class does it in place.
 */
module Ledger {
  import opened Wrappers
  import opened Text
  import opened Models

  function PathFor(repo: string, pr: nat): string {
    DashRepo(repo) + "-" + Decimal(pr) + ".json"
  }

  function NewEntry(c: Change, labels: Option<seq<string>>): (e: LedgerEntry)
    ensures ValidEntry(e)
  {
    LedgerEntry(SourceId(c.repo, c.number), ChangeSource(c),
                SortUnique(if labels.None? then c.labels else labels.value), [])
  }

  function Read(st: LedgerState, repo: string, pr: nat): Option<LedgerEntry> {
    var path := PathFor(repo, pr);
    if path in st.entries then Some(st.entries[path]) else None
  }

  function Write(st: LedgerState, path: string, e: LedgerEntry): LedgerState {
    st.(entries := st.entries[path := e])
  }

  /** The first decision that already uses `key`. */
  function FindKey(decisions: seq<Decision>, key: string): (r: Option<Decision>)
    ensures r.Some? ==> r.value in decisions && r.value.key == key
    ensures r.None? <==> key !in Keys(decisions)
  {
    if decisions == [] then None
    else if decisions[0].key == key then
      assert Keys(decisions)[0] == key;
      Some(decisions[0])
    else FindKey(decisions[1..], key)
  }

  /** `_append`: nothing for an identical decision, an error for a reused key. */
  function AppendAt(st: LedgerState, path: string, e: LedgerEntry, d: Decision): Result<(LedgerState, bool)> {
    match FindKey(e.decisions, d.key)
    case Some(existing) =>
      if existing == d then Success((st, false)) else Failure("idempotency key reused with different data")
    case None => Success((Write(st, path, e.(decisions := e.decisions + [d])), true))
  }

  function AppendSource(st: LedgerState, source: Source, d: Decision): Result<(LedgerState, bool)> {
    match Read(st, source.repo, source.pr)
    case None => Failure("cannot append decision before source snapshot")
    case Some(e) =>
      if e.source != source then Failure("source metadata conflict")
      else AppendAt(st, PathFor(source.repo, source.pr), e, d)
  }

  predicate SameSource(e: LedgerEntry, c: Change) {
    e.id == SourceId(c.repo, c.number) && e.source == ChangeSource(c)
  }

  function Append(st: LedgerState, c: Change, d: Decision): Result<(LedgerState, bool)> {
    var found := Read(st, c.repo, c.number);
    var e := if found.Some? then found.value else NewEntry(c, None);
    if !SameSource(e, c) then Failure("source metadata conflict")
    else AppendAt(st, PathFor(c.repo, c.number), e, d)
  }

  function Ensure(st: LedgerState, c: Change, labels: Option<seq<string>>): Result<(LedgerState, bool)> {
    var path := PathFor(c.repo, c.number);
    match Read(st, c.repo, c.number)
    case None => Success((Write(st, path, NewEntry(c, labels)), true))
    case Some(e) =>
      if !SameSource(e, c) then Failure("source metadata conflict")
      else if labels.None? then Success((st, false))
      else
        var resolved := SortUnique(labels.value);
        if e.labels == resolved then Success((st, false))
        else if e.labels == [] && e.decisions == [] then Success((Write(st, path, e.(labels := resolved)), true))
        else Failure("merge-time label conflict")
  }

  // ---------------------------------------------------------------- properties

  ghost predicate ValidEntries(st: LedgerState) {
    forall path :: path in st.entries ==> ValidEntry(st.entries[path])
  }

  /** The recorded history of `e` is kept: same identity, decisions only appended. */
  ghost predicate EntryExtends(e: LedgerEntry, e': LedgerEntry) {
    && e'.id == e.id && e'.source == e.source && e.decisions <= e'.decisions
    && (e.labels != [] || e.decisions != [] ==> e'.labels == e.labels)
  }

  ghost predicate Extends(st: LedgerState, st': LedgerState) {
    forall path :: path in st.entries ==>
      path in st'.entries && EntryExtends(st.entries[path], st'.entries[path])
  }

  lemma ExtendsTransitive(a: LedgerState, b: LedgerState, c: LedgerState)
    requires Extends(a, b) && Extends(b, c)
    ensures Extends(a, c)
  {
    forall path | path in a.entries
      ensures path in c.entries && EntryExtends(a.entries[path], c.entries[path])
    {
      assert path in b.entries && EntryExtends(b.entries[path], c.entries[path]);
    }
  }

  /** The entry of `source` holds `d`. */
  ghost predicate Has(st: LedgerState, source: Source, d: Decision) {
    var path := PathFor(source.repo, source.pr);
    path in st.entries && st.entries[path].source == source && d in st.entries[path].decisions
  }

  function Occurrences(decisions: seq<Decision>, key: string): nat {
    if decisions == [] then 0
    else (if decisions[0].key == key then 1 else 0) + Occurrences(decisions[1..], key)
  }

  /** `d` is recorded for `source`, and its key is used once. */
  ghost predicate RecordedOnce(st: LedgerState, source: Source, d: Decision) {
    && Has(st, source, d)
    && Occurrences(st.entries[PathFor(source.repo, source.pr)].decisions, d.key) == 1
  }

  lemma {:induction false} NoOccurrence(decisions: seq<Decision>, key: string)
    ensures Occurrences(decisions, key) == 0 <==> key !in Keys(decisions)
  {
    if decisions != [] {
      NoOccurrence(decisions[1..], key);
      assert Keys(decisions) == [decisions[0].key] + Keys(decisions[1..]);
    }
  }

  lemma {:induction false} DistinctOccursOnce(decisions: seq<Decision>, d: Decision)
    requires Distinct(Keys(decisions)) && d in decisions
    ensures Occurrences(decisions, d.key) == 1
  {
    var keys := Keys(decisions);
    assert Keys(decisions[1..]) == keys[1..];
    if decisions[0].key == d.key {
      assert d.key !in keys[1..];
      NoOccurrence(decisions[1..], d.key);
    } else {
      DistinctOccursOnce(decisions[1..], d);
    }
  }

  lemma HasOnce(st: LedgerState, source: Source, d: Decision)
    requires ValidEntries(st) && Has(st, source, d)
    ensures RecordedOnce(st, source, d)
  {
    DistinctOccursOnce(st.entries[PathFor(source.repo, source.pr)].decisions, d);
  }

  lemma HasExtends(st: LedgerState, st': LedgerState, source: Source, d: Decision)
    requires Has(st, source, d) && Extends(st, st')
    ensures Has(st', source, d)
  {
  }

  lemma {:induction false} KeysAppend(xs: seq<Decision>, d: Decision)
    ensures Keys(xs + [d]) == Keys(xs) + [d.key]
  {
    if xs == [] {
      assert xs + [d] == [d];
    } else {
      assert (xs + [d])[1..] == xs[1..] + [d];
      KeysAppend(xs[1..], d);
    }
  }

  /** The search finds the only decision with the key. */
  lemma FoundOnly(decisions: seq<Decision>, key: string, x: Decision)
    requires Distinct(Keys(decisions)) && x in decisions && x.key == key
    ensures FindKey(decisions, key) == Some(x)
  {
    var i :| 0 <= i < |decisions| && decisions[i] == x;
    assert Keys(decisions)[i] == key;
    SameKeySame(decisions, x, FindKey(decisions, key).value);
  }

  /** Writing an entry with one more decision under a new key keeps validity and history. */
  lemma AppendedKeeps(st: LedgerState, path: string, e: LedgerEntry, d: Decision)
    requires ValidEntries(st) && ValidEntry(e) && d.key !in Keys(e.decisions)
    requires path in st.entries ==> st.entries[path] == e
    ensures var st' := Write(st, path, e.(decisions := e.decisions + [d])); ValidEntries(st') && Extends(st, st')
  {
    KeysAppend(e.decisions, d);
    var keys := Keys(e.decisions);
    assert forall i :: 0 <= i < |keys| ==> (keys + [d.key])[i] == keys[i] != d.key;
  }

  /** What `_append` promises: history kept, validity kept, the decision there afterwards. */
  lemma AppendAtCorrect(st: LedgerState, path: string, e: LedgerEntry, d: Decision)
    requires ValidEntries(st) && ValidEntry(e)
    requires path in st.entries ==> st.entries[path] == e
    ensures var r := AppendAt(st, path, e, d);
      && (r.Failure? <==> exists x :: x in e.decisions && x.key == d.key && x != d)
      && (r.Success? ==>
        && ValidEntries(r.value.0) && Extends(st, r.value.0)
        && (r.value.1 <==> d !in e.decisions)
        && (r.value.1 ==> r.value.0 == Write(st, path, e.(decisions := e.decisions + [d])))
        && (!r.value.1 ==> r.value.0 == st))
  {
    forall x | x in e.decisions && x.key == d.key ensures FindKey(e.decisions, d.key) == Some(x) {
      FoundOnly(e.decisions, d.key, x);
    }
    if FindKey(e.decisions, d.key).None? {
      AppendedKeeps(st, path, e, d);
    }
  }

  lemma SameKeySame(decisions: seq<Decision>, x: Decision, y: Decision)
    requires Distinct(Keys(decisions)) && x in decisions && y in decisions && x.key == y.key
    ensures x == y
  {
    var i :| 0 <= i < |decisions| && decisions[i] == x;
    var j :| 0 <= j < |decisions| && decisions[j] == y;
    assert Keys(decisions)[i] == Keys(decisions)[j];
  }

  /**
   `append_source`: it fails exactly when the entry is missing, belongs to another source, or
   uses the key for other data; otherwise the decision is recorded exactly once and nothing
   recorded before is lost.
   */
  lemma AppendSourceCorrect(st: LedgerState, source: Source, d: Decision)
    requires ValidEntries(st)
    ensures var r := AppendSource(st, source, d);
            var found := Read(st, source.repo, source.pr);
      && (r.Success? <==>
        && found.Some? && found.value.source == source
        && forall x :: x in found.value.decisions && x.key == d.key ==> x == d)
      && (r.Success? ==>
        && ValidEntries(r.value.0) && Extends(st, r.value.0) && RecordedOnce(r.value.0, source, d)
        && (r.value.1 <==> !Has(st, source, d)))
  {
    var found := Read(st, source.repo, source.pr);
    if found.Some? && found.value.source == source {
      AppendAtCorrect(st, PathFor(source.repo, source.pr), found.value, d);
      var r := AppendSource(st, source, d);
      if r.Success? {
        HasOnce(r.value.0, source, d);
      }
    }
  }

  /** `append`, which may also open the entry. */
  lemma AppendCorrect(st: LedgerState, c: Change, d: Decision)
    requires ValidEntries(st)
    ensures var r := Append(st, c, d);
      r.Success? ==>
        && ValidEntries(r.value.0) && Extends(st, r.value.0)
        && RecordedOnce(r.value.0, ChangeSource(c), d)
        && (r.value.1 <==> !Has(st, ChangeSource(c), d))
  {
    var found := Read(st, c.repo, c.number);
    var e := if found.Some? then found.value else NewEntry(c, None);
    if SameSource(e, c) {
      AppendAtCorrect(st, PathFor(c.repo, c.number), e, d);
      var r := Append(st, c, d);
      if r.Success? {
        HasOnce(r.value.0, ChangeSource(c), d);
      }
    }
  }

  /** `ensure` keeps every recorded decision and every recorded non-empty label snapshot. */
  lemma EnsureKeepsHistory(st: LedgerState, c: Change, labels: Option<seq<string>>)
    requires ValidEntries(st) && Ensure(st, c, labels).Success?
    ensures ValidEntries(Ensure(st, c, labels).value.0) && Extends(st, Ensure(st, c, labels).value.0)
  {
    var st' := Ensure(st, c, labels).value.0;
    var path := PathFor(c.repo, c.number);
    if st' != st {
      assert st'.entries == st.entries[path := st'.entries[path]];
      assert path in st.entries ==> EntryExtends(st.entries[path], st'.entries[path]);
      assert ValidEntry(st'.entries[path]);
    }
  }

  /** The merge-time snapshot is there afterwards, and a second call changes nothing. */
  lemma EnsureOnce(st: LedgerState, c: Change, labels: Option<seq<string>>)
    requires Ensure(st, c, labels).Success?
    ensures var st' := Ensure(st, c, labels).value.0;
            var e := Read(st', c.repo, c.number);
      && e.Some? && SameSource(e.value, c)
      && (labels.Some? ==> e.value.labels == SortUnique(labels.value))
      && Ensure(st', c, labels) == Success((st', false))
  {
    var st' := Ensure(st, c, labels).value.0;
    var path := PathFor(c.repo, c.number);
    if path !in st.entries {
      assert st'.entries[path] == NewEntry(c, labels);
    } else if st' != st {
      assert st'.entries[path] == st.entries[path].(labels := SortUnique(labels.value));
    }
  }

  // ---------------------------------------------------------------- the store

  /** The directory of entry files, rewritten in place. */
  class DecisionLedger {
    var state: LedgerState

    constructor (initial: LedgerState)
      ensures state == initial
    {
      state := initial;
    }

    method WriteAppended(path: string, entry: LedgerEntry, decision: Decision) returns (r: Result<bool>)
      modifies this
      ensures var spec := AppendAt(old(state), path, entry, decision);
        && r.Success? == spec.Success?
        && (spec.Success? ==> state == spec.value.0 && r.value == spec.value.1)
        && (spec.Failure? ==> state == old(state))
    {
      for i := 0 to |entry.decisions|
        invariant state == old(state)
        invariant FindKey(entry.decisions, decision.key) == FindKey(entry.decisions[i..], decision.key)
      {
        var existing := entry.decisions[i];
        assert entry.decisions[i..][1..] == entry.decisions[i + 1..];
        if existing.key == decision.key {
          if existing == decision {
            return Success(false);
          }
          return Failure("idempotency key reused with different data");
        }
      }
      var updated := entry.(decisions := entry.decisions + [decision]);
      state := Write(state, path, updated);
      return Success(true);
    }

    method AppendForSource(source: Source, decision: Decision) returns (r: Result<bool>)
      modifies this
      ensures var spec := AppendSource(old(state), source, decision);
        && r.Success? == spec.Success?
        && (spec.Success? ==> state == spec.value.0 && r.value == spec.value.1)
        && (spec.Failure? ==> state == old(state))
    {
      var entry := Read(state, source.repo, source.pr);
      if entry.None? {
        return Failure("cannot append decision before source snapshot");
      }
      if entry.value.source != source {
        return Failure("source metadata conflict");
      }
      r := WriteAppended(PathFor(source.repo, source.pr), entry.value, decision);
    }

    method AppendForChange(change: Change, decision: Decision) returns (r: Result<bool>)
      modifies this
      ensures var spec := Append(old(state), change, decision);
        && r.Success? == spec.Success?
        && (spec.Success? ==> state == spec.value.0 && r.value == spec.value.1)
        && (spec.Failure? ==> state == old(state))
    {
      var found := Read(state, change.repo, change.number);
      var entry := if found.Some? then found.value else NewEntry(change, None);
      if !SameSource(entry, change) {
        return Failure("source metadata conflict");
      }
      r := WriteAppended(PathFor(change.repo, change.number), entry, decision);
    }

    method EnsureSnapshot(change: Change, labels: Option<seq<string>>) returns (r: Result<bool>)
      modifies this
      ensures var spec := Ensure(old(state), change, labels);
        && r.Success? == spec.Success?
        && (spec.Success? ==> state == spec.value.0 && r.value == spec.value.1)
        && (spec.Failure? ==> state == old(state))
    {
      var path := PathFor(change.repo, change.number);
      var found := Read(state, change.repo, change.number);
      if found.None? {
        state := Write(state, path, NewEntry(change, labels));
        return Success(true);
      }
      var entry := found.value;
      if !SameSource(entry, change) {
        return Failure("source metadata conflict");
      }
      if labels.None? {
        return Success(false);
      }
      var resolved := SortUnique(labels.value);
      if entry.labels == resolved {
        return Success(false);
      }
      if entry.labels == [] && entry.decisions == [] {
        state := Write(state, path, entry.(labels := resolved));
        return Success(true);
      }
      return Failure("merge-time label conflict");
    }
  }
}
