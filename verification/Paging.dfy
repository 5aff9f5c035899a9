/** Cursor paging on the hub (serving/paginate.go) and the proxy's merged pages
    (serving/proxy.go, mergeLocalIntoUpstream). */
module Paging {
  import opened Decimal
  import opened Order

  /** One entry of a list: its sort key and its data. */
  datatype Listing = Listing(key: Key, data: nat)

  type Cursor = Option<Key>

  // ---- Limits ----

  const DEFAULT_LIMIT := 50
  const MAX_LIMIT := 200

  function ParseLimit(s: string): (n: nat)
    ensures 1 <= n <= MAX_LIMIT
  {
    var parsed := Atoi(s);
    if s == "" || parsed.None? || parsed.value < 1 then DEFAULT_LIMIT
    else if parsed.value > MAX_LIMIT then MAX_LIMIT
    else parsed.value
  }

  /** Every limit the hub honours can be asked for, and larger ones are cut to the maximum. */
  lemma LimitsAreHonoured(n: nat)
    requires 1 <= n <= MAX_INT
    ensures ParseLimit(Itoa(n)) == if n <= MAX_LIMIT then n else MAX_LIMIT
  {
    AtoiOfItoa(n);
  }

  /** Whatever is not a positive number asks for the default. */
  lemma OtherwiseDefault(s: string)
    requires s == "" || Atoi(s) == None || Atoi(s).value <= 0
    ensures ParseLimit(s) == 50
  {
  }

  // ---- One page ----

  /** What is left of a list after the leading entries that are not past the cursor. */
  function After(list: seq<Listing>, cursor: Cursor): seq<Listing> {
    if cursor.None? || list == [] || Before(cursor.value, list[0].key) then list else After(list[1..], cursor)
  }

  function Take(list: seq<Listing>, n: nat): seq<Listing> {
    if |list| <= n then list else list[..n]
  }

  datatype Page = Page(entries: seq<Listing>, next: Cursor, hasMore: bool)

  function PageOf(list: seq<Listing>, cursor: Cursor, limit: nat): Page {
    var rest := After(list, cursor);
    var entries := Take(rest, limit);
    var more := |rest| > limit;
    Page(entries, if more && entries != [] then Some(entries[|entries| - 1].key) else None, more)
  }

  /** The skip loop both list routes run over their sorted entries. */
  method SkipPast(list: seq<Listing>, cursor: Cursor) returns (rest: seq<Listing>)
    ensures rest == After(list, cursor)
  {
    if cursor.None? { return list; }
    var idx := 0;
    while idx < |list| && !Before(cursor.value, list[idx].key)
      invariant 0 <= idx <= |list|
      invariant After(list, cursor) == After(list[idx..], cursor)
    {
      assert list[idx..][1..] == list[idx + 1..];
      idx := idx + 1;
    }
    return list[idx..];
  }

  /** The skip loop, the truncation and the cursor; unreadable objects are left out of the items
      but still move the cursor. */
  method PaginateAndLoad(metas: seq<Listing>, live: map<string, nat>, cursor: Cursor, limit: nat)
    returns (items: seq<nat>, next: Cursor, hasMore: bool)
    ensures var page := PageOf(metas, cursor, limit);
            next == page.next && hasMore == page.hasMore && items == Loaded(page.entries, live)
  {
    var rest := SkipPast(metas, cursor);
    hasMore := |rest| > limit;
    if hasMore {
      rest := rest[..limit];
    }
    items := [];
    for i := 0 to |rest|
      invariant items == Loaded(rest[..i], live)
    {
      assert rest[..i + 1][..i] == rest[..i];
      if rest[i].key.ref in live {
        items := items + [live[rest[i].key.ref]];
      }
    }
    assert rest[..|rest|] == rest;
    next := if hasMore && |rest| > 0 then Some(rest[|rest| - 1].key) else None;
  }

  function Loaded(entries: seq<Listing>, live: map<string, nat>): seq<nat> {
    if entries == [] then []
    else
      var last := entries[|entries| - 1];
      Loaded(entries[..|entries| - 1], live) + (if last.key.ref in live then [live[last.key.ref]] else [])
  }

  // ---- The items of a page ----

  /** Where the readable entries stand. */
  function Positions(entries: seq<Listing>, live: map<string, nat>): seq<nat> {
    if entries == [] then []
    else
      var n := |entries| - 1;
      Positions(entries[..n], live) + (if entries[n].key.ref in live then [n] else [])
  }

  predicate Ascending(ps: seq<nat>) {
    forall i, j | 0 <= i < j < |ps| :: ps[i] < ps[j]
  }

  predicate IsReadable(entries: seq<Listing>, p: int, live: map<string, nat>) {
    0 <= p < |entries| && entries[p].key.ref in live
  }

  /** The items are the objects of the entries at these positions. */
  predicate AreObjectsAt(items: seq<nat>, ps: seq<nat>, entries: seq<Listing>, live: map<string, nat>) {
    |items| == |ps|
    && forall i | 0 <= i < |ps| :: IsReadable(entries, ps[i], live) && items[i] == live[entries[ps[i]].key.ref]
  }

  lemma ReadableExtends(entries: seq<Listing>, live: map<string, nat>)
    requires entries != []
    requires var before := entries[..|entries| - 1];
             && AreObjectsAt(Loaded(before, live), Positions(before, live), before, live)
             && forall p :: p in Positions(before, live) <==> IsReadable(before, p, live)
    ensures AreObjectsAt(Loaded(entries, live), Positions(entries, live), entries, live)
    ensures forall p :: p in Positions(entries, live) <==> IsReadable(entries, p, live)
  {
    var n := |entries| - 1;
    var before, ps := entries[..n], Positions(entries[..n], live);
    assert forall p | 0 <= p < n :: before[p] == entries[p];
    assert forall p | p != n :: IsReadable(entries, p, live) <==> IsReadable(before, p, live);
  }

  /** The items are the objects of the readable entries, each once and in the order of the list. */
  lemma {:induction false} ItemsAreTheReadable(entries: seq<Listing>, live: map<string, nat>)
    ensures var ps, items := Positions(entries, live), Loaded(entries, live);
            && Ascending(ps) && (forall p :: p in ps <==> IsReadable(entries, p, live))
            && AreObjectsAt(items, ps, entries, live)
  {
    if entries != [] {
      var n := |entries| - 1;
      ItemsAreTheReadable(entries[..n], live);
      ReadableExtends(entries, live);
    }
  }

  /** When every object can be read the items are the entries' objects, one for one. */
  lemma {:induction false} AllItemsWhenAllReadable(entries: seq<Listing>, live: map<string, nat>)
    requires forall i | 0 <= i < |entries| :: entries[i].key.ref in live
    ensures var items := Loaded(entries, live);
            |items| == |entries| && forall i | 0 <= i < |entries| :: items[i] == live[entries[i].key.ref]
  {
    if entries != [] {
      AllItemsWhenAllReadable(entries[..|entries| - 1], live);
    }
  }

  lemma {:induction false} LoadedSplits(a: seq<Listing>, b: seq<Listing>, live: map<string, nat>)
    ensures Loaded(a + b, live) == Loaded(a, live) + Loaded(b, live)
  {
    if b == [] {
      assert a + b == a;
    } else {
      var n := |b| - 1;
      assert (a + b)[..|a| + n] == a + b[..n];
      LoadedSplits(a, b[..n], live);
    }
  }

  /** The items of all pages, one page after the other. */
  function ItemsOf(pages: seq<seq<Listing>>, live: map<string, nat>): seq<nat> {
    if pages == [] then [] else Loaded(pages[0], live) + ItemsOf(pages[1..], live)
  }

  lemma {:induction false} ItemsOfConcat(pages: seq<seq<Listing>>, live: map<string, nat>)
    ensures ItemsOf(pages, live) == Loaded(Concat(pages), live)
  {
    if pages != [] {
      ItemsOfConcat(pages[1..], live);
      LoadedSplits(pages[0], Concat(pages[1..]), live);
    }
  }

  // ---- Following cursors ----

  predicate StrictlySorted(list: seq<Listing>) {
    forall i, j | 0 <= i < j < |list| :: Before(list[i].key, list[j].key)
  }

  /** Entries may repeat a key, as inbound lists do; repeats are adjacent. */
  predicate Sorted(list: seq<Listing>) {
    forall i, j | 0 <= i < j < |list| :: Before(list[i].key, list[j].key) || list[i].key == list[j].key
  }

  lemma {:induction false} AfterIsSuffix(list: seq<Listing>, cursor: Cursor)
    ensures |After(list, cursor)| <= |list| && After(list, cursor) == list[|list| - |After(list, cursor)|..]
  {
    if cursor.Some? && list != [] && !Before(cursor.value, list[0].key) {
      AfterIsSuffix(list[1..], cursor);
    }
  }

  /** In a sorted list, After drops exactly the entries not past the cursor. */
  lemma {:induction false} AfterKeepsTheRest(list: seq<Listing>, cursor: Key, i: nat)
    requires Sorted(list) && i < |list|
    ensures var dropped := |list| - |After(list, Some(cursor))|;
            0 <= dropped && (i < dropped <==> !Before(cursor, list[i].key))
  {
    AfterIsSuffix(list, Some(cursor));
    if Before(cursor, list[0].key) {
      if i > 0 && Before(list[0].key, list[i].key) {
        BeforeTransitive(cursor, list[0].key, list[i].key);
      }
    } else if i > 0 {
      AfterKeepsTheRest(list[1..], cursor, i - 1);
    } else {
      AfterIsSuffix(list[1..], Some(cursor));
    }
  }

  /** The next page starts after the last entry of this one, so the walk ends. */
  lemma CursorAdvances(list: seq<Listing>, cursor: Cursor, limit: nat)
    requires Sorted(list) && limit >= 1 && PageOf(list, cursor, limit).hasMore
    ensures var next := PageOf(list, cursor, limit).next;
            && |After(list, next)| <= |After(list, cursor)| - limit
            && (StrictlySorted(list) ==> |After(list, next)| == |After(list, cursor)| - limit)
  {
    var rest := After(list, cursor);
    AfterIsSuffix(list, cursor);
    var last := |list| - |rest| + limit - 1;
    assert PageOf(list, cursor, limit).next == Some(list[last].key);
    BeforeTotal(list[last].key, list[last].key);
    AfterKeepsTheRest(list, list[last].key, last);
    if last + 1 < |list| {
      AfterKeepsTheRest(list, list[last].key, last + 1);
    }
  }

  /** The pages a client sees when it follows cursors until there are no more. */
  function Walk(list: seq<Listing>, cursor: Cursor, limit: nat): seq<seq<Listing>>
    requires Sorted(list) && limit >= 1
    decreases |After(list, cursor)|
  {
    var page := PageOf(list, cursor, limit);
    if !page.hasMore then [page.entries]
    else
      CursorAdvances(list, cursor, limit);
      [page.entries] + Walk(list, page.next, limit)
  }

  function Concat(pages: seq<seq<Listing>>): seq<Listing> {
    if pages == [] then [] else pages[0] + Concat(pages[1..])
  }

  lemma LastOfPage(list: seq<Listing>, cursor: Cursor, limit: nat)
    requires limit >= 1 && PageOf(list, cursor, limit).hasMore
    ensures var page, rest := PageOf(list, cursor, limit), After(list, cursor);
            |rest| > limit && page.entries == rest[..limit] && page.next == Some(rest[limit - 1].key)
  {
  }

  lemma SuffixOfSuffix(list: seq<Listing>, a: nat, b: nat)
    requires a <= |list| && b <= |list| - a
    ensures list[a..] == list[a..][..b] + list[a + b..]
  {
  }

  lemma PageThenSuffix(list: seq<Listing>, cursor: Cursor, limit: nat)
    requires limit >= 1 && PageOf(list, cursor, limit).hasMore
    requires |After(list, PageOf(list, cursor, limit).next)| == |After(list, cursor)| - limit
    ensures var page := PageOf(list, cursor, limit);
            After(list, cursor) == page.entries + After(list, page.next) && |page.entries| == limit
  {
    var n := |list| - |After(list, cursor)|;
    AfterIsSuffix(list, cursor);
    AfterIsSuffix(list, PageOf(list, cursor, limit).next);
    LastOfPage(list, cursor, limit);
    SuffixOfSuffix(list, n, limit);
  }

  /** One page and what is left after its cursor are what was left before it. */
  lemma PageThenRest(list: seq<Listing>, cursor: Cursor, limit: nat)
    requires StrictlySorted(list) && limit >= 1 && PageOf(list, cursor, limit).hasMore
    ensures var page := PageOf(list, cursor, limit);
            After(list, cursor) == page.entries + After(list, page.next) && |page.entries| == limit
  {
    CursorAdvances(list, cursor, limit);
    PageThenSuffix(list, cursor, limit);
  }

  /** Of a strictly sorted list the walk returns everything once and in order. */
  lemma {:induction false} WalkReturnsTheList(list: seq<Listing>, cursor: Cursor, limit: nat)
    requires StrictlySorted(list) && limit >= 1
    ensures Sorted(list) && Concat(Walk(list, cursor, limit)) == After(list, cursor)
    decreases |After(list, cursor)|
  {
    var page := PageOf(list, cursor, limit);
    var pages := Walk(list, cursor, limit);
    if page.hasMore {
      CursorAdvances(list, cursor, limit);
      WalkReturnsTheList(list, page.next, limit);
      PageThenRest(list, cursor, limit);
      assert pages[0] == page.entries && pages[1..] == Walk(list, page.next, limit);
    } else {
      assert pages[1..] == [];
    }
  }

  /** Every page but the last is full, and the last is not empty unless everything is. */
  lemma {:induction false} WalkFillsPages(list: seq<Listing>, cursor: Cursor, limit: nat)
    requires StrictlySorted(list) && limit >= 1
    ensures Sorted(list)
    ensures var pages, n := Walk(list, cursor, limit), |After(list, cursor)|;
            && (n > 0 ==> (|pages| - 1) * limit < n <= |pages| * limit)
            && (forall i | 0 <= i < |pages| - 1 :: |pages[i]| == limit)
    decreases |After(list, cursor)|
  {
    var page := PageOf(list, cursor, limit);
    if page.hasMore {
      CursorAdvances(list, cursor, limit);
      var rest := Walk(list, page.next, limit);
      WalkFillsPages(list, page.next, limit);
      PageThenRest(list, cursor, limit);
      assert Walk(list, cursor, limit) == [page.entries] + rest;
      assert (|rest| + 1) * limit == |rest| * limit + limit;
      assert |rest| * limit == (|rest| - 1) * limit + limit;
    }
  }

  /** ceil(n / limit) pages from the start, and their concatenation is the list. */
  lemma HubPaging(list: seq<Listing>, limit: nat)
    requires StrictlySorted(list) && list != [] && limit >= 1
    ensures Sorted(list) && Concat(Walk(list, None, limit)) == list
    ensures |Walk(list, None, limit)| == (|list| + limit - 1) / limit
  {
    WalkReturnsTheList(list, None, limit);
    WalkFillsPages(list, None, limit);
    CeilingIs(|list|, limit, |Walk(list, None, limit)|);
  }

  /** A client that follows the cursors to the end has been sent the readable objects of the list, in
      the order of the list. */
  lemma HubItems(list: seq<Listing>, limit: nat, live: map<string, nat>)
    requires StrictlySorted(list) && limit >= 1
    ensures Sorted(list)
    ensures var items, ps := ItemsOf(Walk(list, None, limit), live), Positions(list, live);
            && Ascending(ps) && (forall p :: p in ps <==> IsReadable(list, p, live))
            && AreObjectsAt(items, ps, list, live)
  {
    WalkReturnsTheList(list, None, limit);
    ItemsOfConcat(Walk(list, None, limit), live);
    ItemsAreTheReadable(list, live);
  }

  lemma MultipleAtLeast(a: int, d: int)
    requires d >= 1
    ensures a >= 1 ==> a * d >= d
    ensures a <= -1 ==> a * d <= -d
  {
    assert a * d == d + (a - 1) * d == (a + 1) * d - d;
  }

  lemma CeilingIs(n: nat, limit: nat, k: nat)
    requires limit >= 1 && (k - 1) * limit < n <= k * limit
    ensures k == (n + limit - 1) / limit
  {
    var q, r := (n + limit - 1) / limit, (n + limit - 1) % limit;
    assert q * limit + r == n + limit - 1;
    assert (k - q) * limit == k * limit - q * limit;
    assert (k - 1) * limit == k * limit - limit;
    MultipleAtLeast(k - q, limit);
  }

  lemma {:induction false} HeadsStayInConcat(pages: seq<seq<Listing>>, x: Listing)
    requires pages != []
    ensures x in pages[0] || x in Concat(pages[1..]) ==> x in Concat(pages)
  {
  }

  /** What is past this page's last key is past the next cursor. */
  lemma LaterEntries(list: seq<Listing>, cursor: Cursor, key: Key, i: nat)
    requires Sorted(list) && i < |After(list, cursor)| && Before(key, After(list, cursor)[i].key)
    ensures After(list, cursor)[i] in After(list, Some(key))
  {
    var rest, later := After(list, cursor), After(list, Some(key));
    AfterIsSuffix(list, cursor);
    var at := |list| - |rest| + i;
    AfterKeepsTheRest(list, key, at);
    AfterIsSuffix(list, Some(key));
    assert rest[i] == list[at] == later[at - (|list| - |later|)];
  }

  lemma RestIsSorted(list: seq<Listing>, cursor: Cursor, i: nat, j: nat)
    requires Sorted(list) && i < j < |After(list, cursor)|
    ensures var rest := After(list, cursor); Before(rest[i].key, rest[j].key) || rest[i].key == rest[j].key
  {
    AfterIsSuffix(list, cursor);
    var start := |list| - |After(list, cursor)|;
    assert After(list, cursor)[i] == list[start + i] && After(list, cursor)[j] == list[start + j];
  }

  /** An entry past this page's last key is on a later page; the others are on this one, by key. */
  lemma LaterOrHere(list: seq<Listing>, cursor: Cursor, limit: nat, e: Listing)
    requires Sorted(list) && limit >= 1 && PageOf(list, cursor, limit).hasMore && e in After(list, cursor)
    ensures var page := PageOf(list, cursor, limit);
            || (exists x :: x in page.entries && x.key == e.key)
            || e in After(list, page.next)
  {
    var page, rest := PageOf(list, cursor, limit), After(list, cursor);
    var i :| 0 <= i < |rest| && rest[i] == e;
    LastOfPage(list, cursor, limit);
    if i < limit {
      assert page.entries[i] == e;
    } else {
      RestIsSorted(list, cursor, limit - 1, i);
      if Before(rest[limit - 1].key, e.key) {
        LaterEntries(list, cursor, rest[limit - 1].key, i);
      } else {
        assert page.entries[limit - 1] in page.entries;
      }
    }
  }

  /** Even when entries repeat, every key of the list is returned by the walk. */
  lemma {:induction false} WalkReturnsEveryKey(list: seq<Listing>, cursor: Cursor, limit: nat, e: Listing)
    requires Sorted(list) && limit >= 1 && e in After(list, cursor)
    ensures exists x :: x in Concat(Walk(list, cursor, limit)) && x.key == e.key
    decreases |After(list, cursor)|
  {
    var page := PageOf(list, cursor, limit);
    var pages := Walk(list, cursor, limit);
    if !page.hasMore {
      HeadsStayInConcat(pages, e);
    } else {
      LaterOrHere(list, cursor, limit, e);
      assert pages[0] == page.entries && pages[1..] == Walk(list, page.next, limit);
      if x :| x in page.entries && x.key == e.key {
        HeadsStayInConcat(pages, x);
      } else {
        CursorAdvances(list, cursor, limit);
        WalkReturnsEveryKey(list, page.next, limit, e);
        var y :| y in Concat(pages[1..]) && y.key == e.key;
        HeadsStayInConcat(pages, y);
      }
    }
  }

  // ---- The proxy's merge ----

  function Merge(u: seq<Listing>, l: seq<Listing>): seq<Listing> {
    if u == [] then l
    else if l == [] then u
    else if Before(l[0].key, u[0].key) then [l[0]] + Merge(u, l[1..])
    else [u[0]] + Merge(u[1..], l)
  }

  lemma MergeTakesHead(u: seq<Listing>, l: seq<Listing>, ui: nat, li: nat)
    requires ui < |u| && li < |l|
    ensures Merge(u[ui..], l[li..]) ==
            if Before(l[li].key, u[ui].key) then [l[li]] + Merge(u[ui..], l[li + 1..])
                else [u[ui]] + Merge(u[ui + 1..], l[li..])
  {
    assert u[ui..][1..] == u[ui + 1..] && l[li..][1..] == l[li + 1..];
  }

  /** While both lists have entries: take the one that comes first. */
  method MergeBoth(u: seq<Listing>, l: seq<Listing>) returns (merged: seq<Listing>, ui: nat, li: nat)
    ensures ui <= |u| && li <= |l| && (ui == |u| || li == |l|)
    ensures merged + (u[ui..] + l[li..]) == Merge(u, l)
  {
    merged, ui, li := [], 0, 0;
    while ui < |u| && li < |l|
      invariant ui <= |u| && li <= |l|
      invariant merged + Merge(u[ui..], l[li..]) == Merge(u, l)
    {
      var a, b := u[ui], l[li];
      MergeTakesHead(u, l, ui, li);
      if a.key.time > b.key.time || (a.key.time == b.key.time && !Less(a.key.ref, b.key.ref)) {
        Regroup(merged, a, Merge(u[ui + 1..], l[li..]));
        merged := merged + [a];
        ui := ui + 1;
      } else {
        Regroup(merged, b, Merge(u[ui..], l[li + 1..]));
        merged := merged + [b];
        li := li + 1;
      }
    }
    MergeWithNothing(u[ui..], l[li..]);
  }

  lemma Regroup(s: seq<Listing>, x: Listing, rest: seq<Listing>)
    ensures s + ([x] + rest) == (s + [x]) + rest
  {
  }

  lemma MergeWithNothing(u: seq<Listing>, l: seq<Listing>)
    requires u == [] || l == []
    ensures Merge(u, l) == u + l
  {
  }

  method AppendRest(merged: seq<Listing>, s: seq<Listing>, from: nat) returns (r: seq<Listing>)
    requires from <= |s|
    ensures r == merged + s[from..]
  {
    r := merged;
    for i := from to |s|
      invariant r == merged + s[from..i]
    {
      r := r + [s[i]];
    }
  }

  method MergeLoop(u: seq<Listing>, l: seq<Listing>) returns (merged: seq<Listing>)
    ensures merged == Merge(u, l)
  {
    var ui, li;
    merged, ui, li := MergeBoth(u, l);
    ghost var both := merged;
    merged := AppendRest(merged, u, ui);
    merged := AppendRest(merged, l, li);
    assert merged == both + (u[ui..] + l[li..]);
  }

  /** mergeLocalIntoUpstream: one upstream page, and all local-only entries past the cursor. */
  function MergedPage(upstream: Page, local: seq<Listing>, cursor: Cursor, limit: nat): Page {
    if local == [] then upstream
    else
      var merged := Merge(upstream.entries, After(local, cursor));
      var more := upstream.hasMore || |merged| > limit;
      var entries := Take(merged, limit);
      Page(entries, if more && entries != [] then Some(entries[|entries| - 1].key) else None, more)
  }

  method MergeLocalIntoUpstream(upstream: Page, local: seq<Listing>, cursor: Cursor, limit: nat) returns (page: Page)
    ensures page == MergedPage(upstream, local, cursor, limit)
  {
    if |local| == 0 { return upstream; }
    var rest := SkipPast(local, cursor);
    var merged := MergeLoop(upstream.entries, rest);
    var hasMore := upstream.hasMore || |merged| > limit;
    if |merged| > limit {
      merged := merged[..limit];
    }
    var next := if hasMore && |merged| > 0 then Some(merged[|merged| - 1].key) else None;
    return Page(merged, next, hasMore);
  }

  lemma {:induction false} MergeLength(u: seq<Listing>, l: seq<Listing>)
    ensures |Merge(u, l)| == |u| + |l|
    decreases |u| + |l|
  {
    if u != [] && l != [] {
      if Before(l[0].key, u[0].key) { MergeLength(u, l[1..]); } else { MergeLength(u[1..], l); }
    }
  }

  /** The first n of a merge need only the first n of the upstream side. */
  lemma {:induction false} TakeOfMerge(u: seq<Listing>, l: seq<Listing>, n: nat)
    ensures Take(Merge(Take(u, n), l), n) == Take(Merge(u, l), n)
    decreases n, |l|, 1
  {
    MergeLength(u, l);
    MergeLength(Take(u, n), l);
    if n > 0 && u != [] && l != [] {
      if Before(l[0].key, u[0].key) {
        MergeFirst(u, l, n);
      } else {
        TakeOfMerge(u[1..], l, n - 1);
        assert Take(u, n)[1..] == Take(u[1..], n - 1);
        var a, b := Merge(Take(u[1..], n - 1), l), Merge(u[1..], l);
        TakeCons(u[0], a, n);
        TakeCons(u[0], b, n);
      }
    }
  }

  lemma TakeCons(x: Listing, s: seq<Listing>, n: nat)
    requires n > 0
    ensures Take([x] + s, n) == [x] + Take(s, n - 1)
  {
  }

  /** A page cut to n - 1 is a prefix of the page cut to n. */
  lemma {:induction false} MergeFirst(u: seq<Listing>, l: seq<Listing>, n: nat)
    requires n > 0 && u != [] && l != [] && Before(l[0].key, u[0].key)
    ensures Take(Merge(Take(u, n), l), n) == Take(Merge(u, l), n)
    decreases n, |l|, 0
  {
    var rest := l[1..];
    TakeCons(l[0], Merge(Take(u, n), rest), n);
    TakeCons(l[0], Merge(u, rest), n);
    TakeShorter(u, rest, n);
  }

  lemma {:induction false} TakeShorter(u: seq<Listing>, l: seq<Listing>, n: nat)
    requires n > 0
    ensures Take(Merge(Take(u, n), l), n - 1) == Take(Merge(u, l), n - 1)
    decreases n, |l|, 2
  {
    TakeOfMerge(u, l, n);
    var a, b := Merge(Take(u, n), l), Merge(u, l);
    assert Take(a, n - 1) == Take(Take(a, n), n - 1);
    assert Take(b, n - 1) == Take(Take(b, n), n - 1);
  }

  /** Skipping to the cursor commutes with merging. */
  lemma {:induction false} AfterOfMerge(u: seq<Listing>, l: seq<Listing>, cursor: Cursor)
    ensures After(Merge(u, l), cursor) == Merge(After(u, cursor), After(l, cursor))
    decreases |u| + |l|
  {
    if cursor.Some? && u != [] && l != [] {
      var c := cursor.value;
      BeforeTotal(u[0].key, l[0].key);
      if Before(l[0].key, u[0].key) {
        assert Merge(u, l)[1..] == Merge(u, l[1..]);
        if Before(c, l[0].key) {
          BeforeTransitive(c, l[0].key, u[0].key);
        } else {
          AfterOfMerge(u, l[1..], cursor);
        }
      } else {
        assert Merge(u, l)[1..] == Merge(u[1..], l);
        if Before(c, u[0].key) {
          if u[0].key != l[0].key { BeforeTransitive(c, u[0].key, l[0].key); }
        } else {
          AfterOfMerge(u[1..], l, cursor);
        }
      }
    }
  }

  /** Every merged page is the hub's page of the merge of the two complete streams: the same
      entries, the same cursor, and has_more exactly when entries remain. */
  lemma MergedPageIsExact(up: seq<Listing>, local: seq<Listing>, cursor: Cursor, limit: nat)
    ensures MergedPage(PageOf(up, cursor, limit), local, cursor, limit) == PageOf(Merge(up, local), cursor, limit)
  {
    AfterOfMerge(up, local, cursor);
    var u, l := After(up, cursor), After(local, cursor);
    if local == [] {
      assert Merge(up, local) == up;
    } else {
      TakeOfMerge(u, l, limit);
      MergeLength(u, l);
      MergeLength(Take(u, limit), l);
    }
  }

  predicate DisjointKeys(u: seq<Listing>, l: seq<Listing>) {
    forall i, j | 0 <= i < |u| && 0 <= j < |l| :: u[i].key != l[j].key
  }

  lemma {:induction false} MergeMembers(u: seq<Listing>, l: seq<Listing>, x: Listing)
    ensures x in Merge(u, l) <==> x in u || x in l
    decreases |u| + |l|
  {
    if u != [] && l != [] {
      if Before(l[0].key, u[0].key) {
        MergeMembers(u, l[1..], x);
        assert l == [l[0]] + l[1..];
      } else {
        MergeMembers(u[1..], l, x);
        assert u == [u[0]] + u[1..];
      }
    }
  }

  predicate NotAfter(k: Key, y: Listing) {
    Before(k, y.key) || k == y.key
  }

  lemma ConsSorted(x: Listing, rest: seq<Listing>)
    requires Sorted(rest) && forall y | y in rest :: NotAfter(x.key, y)
    ensures Sorted([x] + rest)
  {
    forall j | 0 <= j < |rest| ensures NotAfter(x.key, rest[j]) {
      assert rest[j] in rest;
    }
  }

  lemma HeadIsFirst(k: Key, s: seq<Listing>, y: Listing)
    requires Sorted(s) && s != [] && NotAfter(k, s[0])
    ensures y in s ==> NotAfter(k, y)
  {
    if i :| 0 <= i < |s| && s[i] == y {
      if i > 0 && s[0].key != y.key && k != s[0].key { BeforeTransitive(k, s[0].key, y.key); }
    }
  }

  lemma HeadOfMerge(k: Key, u: seq<Listing>, l: seq<Listing>, y: Listing)
    requires Sorted(u) && Sorted(l) && y in Merge(u, l)
    requires (u != [] ==> NotAfter(k, u[0])) && (l != [] ==> NotAfter(k, l[0]))
    ensures NotAfter(k, y)
  {
    MergeMembers(u, l, y);
    if u != [] { HeadIsFirst(k, u, y); }
    if l != [] { HeadIsFirst(k, l, y); }
  }

  lemma TailSorted(s: seq<Listing>)
    requires Sorted(s) && s != []
    ensures Sorted(s[1..]) && (s[1..] != [] ==> NotAfter(s[0].key, s[1..][0]))
  {
  }

  /** Merging keeps the order, repeated keys included. */
  lemma {:induction false} MergeIsSorted(u: seq<Listing>, l: seq<Listing>)
    requires Sorted(u) && Sorted(l)
    ensures Sorted(Merge(u, l))
    decreases |u| + |l|
  {
    if u != [] && l != [] {
      BeforeTotal(u[0].key, l[0].key);
      if Before(l[0].key, u[0].key) {
        TailSorted(l);
        MergeIsSorted(u, l[1..]);
        forall y | y in Merge(u, l[1..]) ensures NotAfter(l[0].key, y) { HeadOfMerge(l[0].key, u, l[1..], y); }
        ConsSorted(l[0], Merge(u, l[1..]));
      } else {
        TailSorted(u);
        MergeIsSorted(u[1..], l);
        forall y | y in Merge(u[1..], l) ensures NotAfter(u[0].key, y) { HeadOfMerge(u[0].key, u[1..], l, y); }
        ConsSorted(u[0], Merge(u[1..], l));
      }
    }
  }

  lemma ConsStrict(x: Listing, rest: seq<Listing>)
    requires StrictlySorted(rest) && forall y | y in rest :: Before(x.key, y.key)
    ensures StrictlySorted([x] + rest)
  {
  }

  lemma StrictIsSorted(s: seq<Listing>)
    requires StrictlySorted(s)
    ensures Sorted(s) && (s != [] ==> StrictlySorted(s[1..]) && forall y | y in s[1..] :: Before(s[0].key, y.key))
  {
  }

  /** Before everything in a merge, when before both heads. */
  lemma StrictlyFirst(k: Key, u: seq<Listing>, l: seq<Listing>, y: Listing)
    requires (forall x | x in u :: Before(k, x.key)) && (l != [] ==> Before(k, l[0].key)) && StrictlySorted(l)
    ensures y in Merge(u, l) || y in Merge(l, u) ==> Before(k, y.key)
  {
    MergeMembers(u, l, y);
    MergeMembers(l, u, y);
    if i :| 0 <= i < |l| && l[i] == y {
      if i > 0 { BeforeTransitive(k, l[0].key, y.key); }
    }
  }

  /** Strictly sorted lists without a common key merge into a strictly sorted one. */
  lemma {:induction false} MergeIsStrict(u: seq<Listing>, l: seq<Listing>)
    requires StrictlySorted(u) && StrictlySorted(l) && DisjointKeys(u, l)
    ensures StrictlySorted(Merge(u, l))
    decreases |u| + |l|
  {
    StrictIsSorted(u);
    StrictIsSorted(l);
    if u != [] && l != [] {
      BeforeTotal(u[0].key, l[0].key);
      if Before(l[0].key, u[0].key) {
        MergeIsStrict(u, l[1..]);
        forall y | y in Merge(u, l[1..]) ensures Before(l[0].key, y.key) { StrictlyFirst(l[0].key, l[1..], u, y); }
        ConsStrict(l[0], Merge(u, l[1..]));
      } else {
        MergeIsStrict(u[1..], l);
        forall y | y in Merge(u[1..], l) ensures Before(u[0].key, y.key) { StrictlyFirst(u[0].key, u[1..], l, y); }
        ConsStrict(u[0], Merge(u[1..], l));
      }
    }
  }

  /** Where lists repeat objects, as the inbound route's do, following the proxy's cursors still ends,
      returns nothing foreign, and returns every object of both streams. */
  lemma MergedWalkWithRepeats(up: seq<Listing>, local: seq<Listing>, limit: nat)
    requires Sorted(up) && Sorted(local) && limit >= 1
    ensures Sorted(Merge(up, local))
    ensures ProxyWalk(up, local, None, limit) == Walk(Merge(up, local), None, limit)
    ensures forall x :: x in Concat(ProxyWalk(up, local, None, limit)) ==> x in up || x in local
    ensures forall e | e in up || e in local :: exists x :: x in Concat(ProxyWalk(up, local, None, limit))
                                                 && x.key == e.key
  {
    MergeIsSorted(up, local);
    ProxyWalkIsWalk(up, local, None, limit);
    var merged := Merge(up, local);
    forall x ensures x in merged <==> x in up || x in local { MergeMembers(up, local, x); }
    forall x | x in Concat(Walk(merged, None, limit))
        ensures x in merged { WalkStaysInTheList(merged, None, limit, x); }
    forall e | e in up || e in local ensures exists x :: x in Concat(ProxyWalk(up, local, None, limit))
                                              && x.key == e.key {
      WalkReturnsEveryKey(merged, None, limit, e);
    }
  }

  lemma {:induction false} WalkStaysInTheList(list: seq<Listing>, cursor: Cursor, limit: nat, x: Listing)
    requires Sorted(list) && limit >= 1 && x in Concat(Walk(list, cursor, limit))
    ensures x in list
    decreases |After(list, cursor)|
  {
    var page := PageOf(list, cursor, limit);
    AfterIsSuffix(list, cursor);
    assert forall y | y in page.entries :: y in After(list, cursor);
    assert forall y | y in After(list, cursor) :: y in list;
    var pages := Walk(list, cursor, limit);
    assert pages[0] == page.entries;
    if page.hasMore {
      CursorAdvances(list, cursor, limit);
      assert pages[1..] == Walk(list, page.next, limit);
      if x !in page.entries {
        WalkStaysInTheList(list, page.next, limit, x);
      }
    } else {
      assert pages[1..] == [];
    }
  }

  /** Following the proxy's cursors yields every entry of both streams exactly once, in order. */
  lemma MergedWalk(up: seq<Listing>, local: seq<Listing>, limit: nat)
    requires StrictlySorted(up) && StrictlySorted(local) && DisjointKeys(up, local) && limit >= 1
    ensures StrictlySorted(Merge(up, local)) && Sorted(Merge(up, local))
    ensures ProxyWalk(up, local, None, limit) == Walk(Merge(up, local), None, limit)
    ensures Concat(ProxyWalk(up, local, None, limit)) == Merge(up, local)
    ensures forall x :: x in Merge(up, local) <==> x in up || x in local
  {
    MergeIsStrict(up, local);
    ProxyWalkIsWalk(up, local, None, limit);
    WalkReturnsTheList(Merge(up, local), None, limit);
    forall x ensures x in Merge(up, local) <==> x in up || x in local { MergeMembers(up, local, x); }
  }

  /** A client following the proxy's cursors; the proxy passes each cursor on to the upstream. */
  function ProxyWalk(up: seq<Listing>, local: seq<Listing>, cursor: Cursor, limit: nat): seq<seq<Listing>>
    requires Sorted(Merge(up, local)) && limit >= 1
    decreases |After(Merge(up, local), cursor)|
  {
    var page := MergedPage(PageOf(up, cursor, limit), local, cursor, limit);
    if !page.hasMore then [page.entries]
    else
      MergedPageIsExact(up, local, cursor, limit);
      CursorAdvances(Merge(up, local), cursor, limit);
      [page.entries] + ProxyWalk(up, local, page.next, limit)
  }

  lemma {:induction false} ProxyWalkIsWalk(up: seq<Listing>, local: seq<Listing>, cursor: Cursor, limit: nat)
    requires Sorted(Merge(up, local)) && limit >= 1
    ensures ProxyWalk(up, local, cursor, limit) == Walk(Merge(up, local), cursor, limit)
    decreases |After(Merge(up, local), cursor)|
  {
    MergedPageIsExact(up, local, cursor, limit);
    var page := PageOf(Merge(up, local), cursor, limit);
    if page.hasMore {
      CursorAdvances(Merge(up, local), cursor, limit);
      ProxyWalkIsWalk(up, local, page.next, limit);
    }
  }
}
