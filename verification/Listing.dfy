/** `GitHubClient.merged_changes` of `agricola/github.py`: a paginated listing left early. */
module Listing {
  import opened Models

  const PAGE_SIZE: nat := 100

  /** One closed pull request; `change.mergedAt` is meaningful when `merged` holds. */
  datatype Item = Item(change: Change, merged: bool, updatedAt: int)

  /** What the remote promises: newest update first, and nothing is merged after its last update. */
  ghost predicate ByUpdate(listing: seq<Item>) {
    && (forall i, j :: 0 <= i < j < |listing| ==> listing[j].updatedAt <= listing[i].updatedAt)
    && (forall i :: 0 <= i < |listing| && listing[i].merged ==> listing[i].change.mergedAt <= listing[i].updatedAt)
  }

  predicate Within(item: Item, cutoff: int) {
    item.merged && item.change.mergedAt >= cutoff
  }

  /** The merged items at or after the cutoff, over the whole listing. */
  function Window(listing: seq<Item>, cutoff: int): seq<Change> {
    if listing == [] then []
    else
      var rest := Window(listing[..|listing| - 1], cutoff);
      var last := listing[|listing| - 1];
      if Within(last, cutoff) then rest + [last.change] else rest
  }

  lemma {:induction false} WindowMembers(listing: seq<Item>, cutoff: int, c: Change)
    ensures c in Window(listing, cutoff) <==>
      exists i :: 0 <= i < |listing| && listing[i].change == c && Within(listing[i], cutoff)
  {
    if listing != [] {
      var n := |listing| - 1;
      WindowMembers(listing[..n], cutoff, c);
      if i :| 0 <= i < n && listing[..n][i].change == c && Within(listing[..n][i], cutoff) {
        assert listing[i] == listing[..n][i];
      }
      if i :| 0 <= i < |listing| && listing[i].change == c && Within(listing[i], cutoff) && i < n {
        assert listing[..n][i] == listing[i];
      }
    }
  }

  predicate NotAfter(a: Change, b: Change) {
    a.mergedAt < b.mergedAt || (a.mergedAt == b.mergedAt && a.number <= b.number)
  }

  ghost predicate InOrder(s: seq<Change>) {
    forall i, j :: 0 <= i < j < |s| ==> NotAfter(s[i], s[j])
  }

  function InsertChange(s: seq<Change>, c: Change): seq<Change> {
    if s == [] then [c]
    else
      var last := s[|s| - 1];
      if NotAfter(last, c) then s + [c] else InsertChange(s[..|s| - 1], c) + [last]
  }

  /** `sorted(changes, key=(merged_at, number))`. */
  function SortChanges(changes: seq<Change>): seq<Change> {
    if changes == [] then []
    else InsertChange(SortChanges(changes[..|changes| - 1]), changes[|changes| - 1])
  }

  lemma {:induction false} InsertPermutes(s: seq<Change>, c: Change)
    ensures multiset(InsertChange(s, c)) == multiset(s) + multiset{c}
  {
    if s != [] {
      var n := |s| - 1;
      assert s == s[..n] + [s[n]];
      InsertPermutes(s[..n], c);
    }
  }

  lemma {:induction false} InsertOrders(s: seq<Change>, c: Change)
    requires InOrder(s)
    ensures InOrder(InsertChange(s, c))
  {
    if s != [] && !NotAfter(s[|s| - 1], c) {
      var n := |s| - 1;
      var rest := InsertChange(s[..n], c);
      InsertOrders(s[..n], c);
      InsertPermutes(s[..n], c);
      forall i | 0 <= i < |rest| ensures NotAfter(rest[i], s[n]) {
        assert rest[i] in multiset(rest);
        assert rest[i] in s[..n] || rest[i] == c;
      }
    }
  }

  lemma {:induction false} SortCorrect(changes: seq<Change>)
    ensures InOrder(SortChanges(changes)) && multiset(SortChanges(changes)) == multiset(changes)
  {
    if changes != [] {
      var n := |changes| - 1;
      assert changes == changes[..n] + [changes[n]];
      SortCorrect(changes[..n]);
      InsertOrders(SortChanges(changes[..n]), changes[n]);
      InsertPermutes(SortChanges(changes[..n]), changes[n]);
    }
  }

  lemma SortMembers(changes: seq<Change>, c: Change)
    ensures c in SortChanges(changes) <==> c in changes
  {
    SortCorrect(changes);
    assert c in changes <==> c in multiset(changes);
    assert c in SortChanges(changes) <==> c in multiset(SortChanges(changes));
  }

  function Page(listing: seq<Item>, page: nat): seq<Item>
    requires page >= 1
  {
    var from := (page - 1) * PAGE_SIZE;
    if from >= |listing| then []
    else if from + PAGE_SIZE <= |listing| then listing[from..from + PAGE_SIZE]
    else listing[from..]
  }

  /** Beyond an item last updated before the cutoff there is nothing in the window. */
  lemma {:induction false} NothingBeyond(listing: seq<Item>, cutoff: int, n: nat)
    requires ByUpdate(listing) && n <= |listing|
    requires n == |listing| || (n > 0 && listing[n - 1].updatedAt < cutoff)
    ensures Window(listing, cutoff) == Window(listing[..n], cutoff)
  {
    if n < |listing| {
      var shorter := listing[..|listing| - 1];
      assert shorter[..n] == listing[..n];
      NothingBeyond(shorter, cutoff, n);
    } else {
      assert listing[..n] == listing;
    }
  }

  /** The items of one page, filtered. */
  method CollectPage(items: seq<Item>, cutoff: int) returns (changes: seq<Change>)
    ensures changes == Window(items, cutoff)
  {
    changes := [];
    for k := 0 to |items|
      invariant changes == Window(items[..k], cutoff)
    {
      assert items[..k + 1][..k] == items[..k];
      if !items[k].merged {
        continue;
      }
      if items[k].change.mergedAt < cutoff {
        continue;
      }
      changes := changes + [items[k].change];
    }
    assert items[..|items|] == items;
  }

  lemma {:induction false} WindowAppend(xs: seq<Item>, ys: seq<Item>, cutoff: int)
    ensures Window(xs + ys, cutoff) == Window(xs, cutoff) + Window(ys, cutoff)
  {
    if ys == [] {
      assert xs + ys == xs;
    } else {
      assert (xs + ys)[..|xs + ys| - 1] == xs + ys[..|ys| - 1];
      WindowAppend(xs, ys[..|ys| - 1], cutoff);
    }
  }

  /** The first page of what is left of the listing. */
  function First(rest: seq<Item>): seq<Item> {
    if |rest| <= PAGE_SIZE then rest else rest[..PAGE_SIZE]
  }

  /** A short page, or one that ends before the cutoff, is the last one the loop asks for. */
  predicate IsLast(items: seq<Item>, cutoff: int) {
    |items| < PAGE_SIZE || items[|items| - 1].updatedAt < cutoff
  }

  /** What the loop collects from the rest of the listing. */
  function Collected(rest: seq<Item>, cutoff: int): seq<Change>
    decreases |rest|
  {
    if IsLast(First(rest), cutoff) then Window(First(rest), cutoff)
    else Window(First(rest), cutoff) + Collected(rest[PAGE_SIZE..], cutoff)
  }

  /** Leaving early equals filtering all of it. */
  lemma {:induction false} CollectedIsWindow(rest: seq<Item>, cutoff: int)
    requires ByUpdate(rest)
    ensures Collected(rest, cutoff) == Window(rest, cutoff)
    decreases |rest|
  {
    var items := First(rest);
    assert rest[..|items|] == items;
    if IsLast(items, cutoff) {
      NothingBeyond(rest, cutoff, |items|);
    } else {
      CollectedIsWindow(rest[PAGE_SIZE..], cutoff);
      WindowAppend(items, rest[PAGE_SIZE..], cutoff);
      assert rest == items + rest[PAGE_SIZE..];
    }
  }

  lemma PageIsFirst(listing: seq<Item>, page: nat)
    requires page >= 1 && (page - 1) * PAGE_SIZE <= |listing|
    ensures Page(listing, page) == First(listing[(page - 1) * PAGE_SIZE..])
  {
  }

  /** If the remote keeps its promise, the loop that leaves early equals filtering and sorting the whole listing. */
  method MergedChanges(listing: seq<Item>, cutoff: int) returns (changes: seq<Change>)
    ensures changes == SortChanges(Collected(listing, cutoff))
    ensures ByUpdate(listing) ==> changes == SortChanges(Window(listing, cutoff))
  {
    changes := [];
    var page := 1;
    ghost var rest := listing;
    while true
      invariant page >= 1 && (page - 1) * PAGE_SIZE <= |listing| && rest == listing[(page - 1) * PAGE_SIZE..]
      invariant changes + Collected(rest, cutoff) == Collected(listing, cutoff)
      decreases |rest|
    {
      var items := Page(listing, page);
      PageIsFirst(listing, page);
      var found := CollectPage(items, cutoff);
      changes := changes + found;
      if |items| < PAGE_SIZE || items[|items| - 1].updatedAt < cutoff {
        break;
      }
      rest := rest[PAGE_SIZE..];
      page := page + 1;
    }
    if ByUpdate(listing) {
      CollectedIsWindow(listing, cutoff);
    }
    changes := SortChanges(changes);
  }

  lemma {:induction false} NoneWithin(items: seq<Item>, cutoff: int)
    requires forall i :: 0 <= i < |items| ==> !Within(items[i], cutoff)
    ensures Window(items, cutoff) == []
  {
    if items != [] {
      NoneWithin(items[..|items| - 1], cutoff);
    }
  }

  /**
   The promise about update times is needed: with an item merged after its recorded update, the
   loop leaves early and misses it. This listing has a first page updated at 0 and a merge at 9.
   */
  lemma EarlyExitNeedsTheOrder(filler: Item, late: Item)
    requires !filler.merged && filler.updatedAt == 0 && late.merged && late.change.mergedAt == 9 && late.updatedAt == 0
    ensures var listing := seq(PAGE_SIZE, i => filler) + [late];
      Collected(listing, 5) == [] && late.change in Window(listing, 5)
  {
    var listing := seq(PAGE_SIZE, i => filler) + [late];
    assert listing[PAGE_SIZE] == late;
    WindowMembers(listing, 5, late.change);
    NoneWithin(First(listing), 5);
  }
}
