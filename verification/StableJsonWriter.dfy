/**
 The writer behind `stable_json` fills a buffer step by step; the challenge id is computed over a
 preimage that contains its text.
 */
module StableJsonWriter {
  import opened Text
  import opened CanonicalJson
  import opened StableJson

  /** Sorting looks at keys only, so it may come before or after canonizing the values. */
  lemma {:induction false} SortCommutes(es: seq<Entry>)
    ensures SortEntries(CanonEntries(es)) == CanonEntries(SortEntries(es))
  {
    if es != [] {
      SortCommutes(es[1..]);
      InsertCommutes(es[0], SortEntries(es[1..]));
      assert CanonEntries(es)[1..] == CanonEntries(es[1..]);
    }
  }

  lemma {:induction false} InsertCommutes(e: Entry, es: seq<Entry>)
    ensures InsertEntry(Entry(e.key, Canon(e.value)), CanonEntries(es)) == CanonEntries(InsertEntry(e, es))
  {
    if es != [] {
      assert CanonEntries(es)[1..] == CanonEntries(es[1..]);
      if Less(es[0].key, e.key) {
        InsertCommutes(e, es[1..]);
        assert InsertEntry(e, es)[1..] == InsertEntry(e, es[1..]);
      } else {
        assert ([e] + es)[1..] == es;
      }
    } else {
      assert InsertEntry(e, es)[1..] == [];
    }
  }

  /** The items still to be printed after the first `i`, with their separators and the bracket. */
  function RestOfItems(items: seq<Json>, i: nat): string
    requires i <= |items|
  {
    if i == 0 && items != [] then Print(items[0]) + PrintItems(items[1..]) else PrintItems(items[i..])
  }

  function RestOfEntries(es: seq<Entry>, i: nat): string
    requires i <= |es|
  {
    if i == 0 && es != [] then PrintEntry(es[0]) + PrintEntries(es[1..]) else PrintEntries(es[i..])
  }

  lemma ItemStep(items: seq<Json>, i: nat)
    requires i < |items|
    ensures RestOfItems(items, i) == (if i > 0 then "," else "") + (Print(items[i]) + RestOfItems(items, i + 1))
  {
    assert items[i..][1..] == items[i + 1..];
  }

  lemma EntryStep(es: seq<Entry>, i: nat)
    requires i < |es|
    ensures RestOfEntries(es, i) == (if i > 0 then "," else "") + (PrintEntry(es[i]) + RestOfEntries(es, i + 1))
  {
    assert es[i..][1..] == es[i + 1..];
  }

  lemma {:induction false} CanonEntryAt(es: seq<Entry>, i: nat)
    requires i < |es|
    ensures CanonEntries(es)[i] == Entry(es[i].key, Canon(es[i].value))
  {
    if i > 0 {
      CanonEntryAt(es[1..], i - 1);
    }
  }

  lemma {:induction false} CanonItemAt(items: seq<Json>, i: nat)
    requires i < |items|
    ensures CanonItems(items)[i] == Canon(items[i])
  {
    if i > 0 {
      CanonItemAt(items[1..], i - 1);
    }
  }

  lemma PrintItemsFrom(items: seq<Json>)
    ensures Print(JArr(items)) == "[" + RestOfItems(items, 0) && RestOfItems(items, |items|) == "]"
  {
    assert items[|items|..] == [];
  }

  lemma PrintEntriesFrom(es: seq<Entry>)
    ensures Print(JObj(es)) == "{" + RestOfEntries(es, 0) && RestOfEntries(es, |es|) == "}"
  {
    assert es[|es|..] == [];
  }

  lemma CanonOfArray(items: seq<Json>)
    ensures Canon(JArr(items)) == JArr(CanonItems(items))
  {
  }

  lemma CanonOfObject(es: seq<Entry>)
    ensures Canon(JObj(es)) == JObj(CanonEntries(SortEntries(es)))
  {
    SortCommutes(es);
  }

  lemma ObjectText(start: string, es: seq<Entry>)
    ensures var canon := CanonEntries(SortEntries(es));
      && start + "{" + RestOfEntries(canon, 0) == start + StableText(JObj(es))
      && RestOfEntries(canon, |canon|) == "}"
  {
    CanonOfObject(es);
    PrintEntriesFrom(CanonEntries(SortEntries(es)));
  }

  lemma SortedEntryIsSmaller(es: seq<Entry>, i: nat)
    requires i < |es|
    ensures SortEntries(es)[i].value < JObj(es)
  {
    assert SortEntries(es)[i] in SortEntries(es);
    var j :| 0 <= j < |es| && es[j] == SortEntries(es)[i];
    assert es[j].value < es[j] < JObj(es);
  }

  function Separator(i: nat): string {
    if i > 0 then "," else ""
  }

  /** One turn of a writing loop keeps the text that will result. */
  lemma ItemWritten(text: string, canon: seq<Json>, i: nat)
    requires i < |canon|
    ensures text + Separator(i) + Print(canon[i]) + RestOfItems(canon, i + 1) == text + RestOfItems(canon, i)
  {
    ItemStep(canon, i);
    AppendRegroup(text, Separator(i), Print(canon[i]), RestOfItems(canon, i + 1));
  }

  lemma EntryWritten(text: string, canon: seq<Entry>, i: nat)
    requires i < |canon|
    ensures text + Separator(i) + PrintEntry(canon[i]) + RestOfEntries(canon, i + 1) == text + RestOfEntries(canon, i)
  {
    EntryStep(canon, i);
    AppendRegroup(text, Separator(i), PrintEntry(canon[i]), RestOfEntries(canon, i + 1));
  }

  lemma CharWritten(text: string, value: string, i: nat)
    requires i < |value|
    ensures text + EscapeChar(value[i]) + EscapeAll(value[i + 1..]) == text + EscapeAll(value[i..])
  {
    assert value[i..][1..] == value[i + 1..];
    AppendRegroup(text, "", EscapeChar(value[i]), EscapeAll(value[i + 1..]));
  }

  lemma AppendRegroup(t: string, a: string, b: string, rest: string)
    ensures t + (a + (b + rest)) == t + a + b + rest
  {
  }

  lemma Quoted(text: string, value: string)
    ensures text + "\"" + EscapeAll(value) + "\"" == text + PrintString(value)
  {
  }

  class Output {
    var text: string

    constructor ()
      ensures text == ""
    {
      text := "";
    }

    method Push(s: string)
      modifies this
      ensures text == old(text) + s
    {
      text := text + s;
    }

    /** `write_json_string`. */
    method WriteString(value: string)
      modifies this
      ensures text == old(text) + PrintString(value)
    {
      Push("\"");
      ghost var total := text + EscapeAll(value);
      assert value[0..] == value;
      for i := 0 to |value|
        invariant text + EscapeAll(value[i..]) == total
      {
        CharWritten(text, value, i);
        Push(EscapeChar(value[i]));
      }
      assert EscapeAll(value[|value|..]) == "";
      Push("\"");
      Quoted(old(text), value);
    }

    /** `write_stable_json`. */
    method WriteStableJson(value: Json)
      modifies this
      ensures text == old(text) + StableText(value)
      decreases value, 1
    {
      match value {
        case JNull => Push("null");
        case JBool(b) =>
          if b {
            Push("true");
          } else {
            Push("false");
          }
        case JNum(n) => Push(PrintNum(n));
        case JStr(s) => WriteString(s);
        case JArr(items) => WriteItems(value, items);
        case JObj(es) => WriteEntries(value, es);
      }
    }

    method WriteItems(value: Json, items: seq<Json>)
      requires value == JArr(items)
      modifies this
      ensures text == old(text) + StableText(value)
      decreases value, 0
    {
      Push("[");
      ghost var canon := CanonItems(items);
      ghost var total := text + RestOfItems(canon, 0);
      for index := 0 to |items|
        invariant text + RestOfItems(canon, index) == total
      {
        CanonItemAt(items, index);
        ItemWritten(text, canon, index);
        if index > 0 {
          Push(",");
        }
        WriteStableJson(items[index]);
      }
      Push("]");
      CanonOfArray(items);
      PrintItemsFrom(canon);
    }

    method WriteEntries(value: Json, es: seq<Entry>)
      requires value == JObj(es)
      modifies this
      ensures text == old(text) + StableText(value)
      decreases value, 0
    {
      var entries := SortEntries(es);
      Push("{");
      ghost var canon := CanonEntries(entries);
      ghost var total := text + RestOfEntries(canon, 0);
      for index := 0 to |entries|
        invariant text + RestOfEntries(canon, index) == total
      {
        var e := entries[index];
        SortedEntryIsSmaller(es, index);
        CanonEntryAt(entries, index);
        EntryWritten(text, canon, index);
        if index > 0 {
          Push(",");
        }
        WriteEntry(e);
      }
      Push("}");
      ObjectText(old(text), es);
    }

    method WriteEntry(e: Entry)
      modifies this
      ensures text == old(text) + PrintEntry(Entry(e.key, Canon(e.value)))
      decreases e.value, 2
    {
      WriteString(e.key);
      Push(":");
      WriteStableJson(e.value);
    }
  }

  method StableJsonText(value: Json) returns (text: string)
    ensures text == StableText(value)
  {
    var output := new Output();
    output.WriteStableJson(value);
    text := output.text;
  }
}
