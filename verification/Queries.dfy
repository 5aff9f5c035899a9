/** The list queries over the index (storage/index.go): visibility, filters, and the one order. */
module Queries {
  import opened Decimal
  import opened Objects
  import opened RealmGraph
  import opened Resolver
  import opened ObjectIndex
  import Order

  function KeyOf(m: ObjectMeta): Order.Key {
    Order.Key(m.updatedAt, m.ref)
  }

  /** No element should have come before one to its left. */
  predicate Sorted(s: seq<ObjectMeta>) {
    forall i, j | 0 <= i < j < |s| :: !Order.Before(KeyOf(s[j]), KeyOf(s[i]))
  }

  lemma NotBeforeTransitive(a: Order.Key, b: Order.Key, c: Order.Key)
    requires !Order.Before(b, a) && !Order.Before(c, b)
    ensures !Order.Before(c, a)
  {
    Order.BeforeTotal(a, b);
    Order.BeforeTotal(b, c);
    if a != b && b != c {
      Order.BeforeTransitive(a, b, c);
    }
    Order.BeforeTotal(a, c);
  }

  /** sortMetaDesc; any sorting algorithm meets this contract, and the queries rely on nothing else. */
  method SortMetaDesc(metas: seq<ObjectMeta>) returns (r: seq<ObjectMeta>)
    ensures Sorted(r) && multiset(r) == multiset(metas)
  {
    r := [];
    for n := 0 to |metas|
      invariant Sorted(r) && multiset(r) == multiset(metas[..n])
    {
      assert metas[..n + 1] == metas[..n] + [metas[n]];
      r := InsertSorted(r, metas[n]);
    }
    assert metas[..|metas|] == metas;
  }

  lemma NotBeforeTheRest(s: seq<ObjectMeta>, m: ObjectMeta, i: nat, j: nat)
    requires Sorted(s) && i <= j < |s| && Order.Before(KeyOf(m), KeyOf(s[i]))
    ensures !Order.Before(KeyOf(s[j]), KeyOf(m))
  {
    Order.BeforeTotal(KeyOf(m), KeyOf(s[i]));
    if j > i {
      NotBeforeTransitive(KeyOf(m), KeyOf(s[i]), KeyOf(s[j]));
    }
  }

  function Inserted(s: seq<ObjectMeta>, m: ObjectMeta, i: nat): (r: seq<ObjectMeta>)
    requires i <= |s|
    ensures |r| == |s| + 1 && forall k | 0 <= k < |r| :: r[k] == if k < i then s[k] else if k == i then m else s[k - 1]
  {
    s[..i] + [m] + s[i..]
  }

  lemma InsertedIsPermuted(s: seq<ObjectMeta>, m: ObjectMeta, i: nat)
    requires i <= |s|
    ensures multiset(Inserted(s, m, i)) == multiset(s) + multiset{m}
  {
    assert s == s[..i] + s[i..];
  }

  /** Putting m before the first element it comes before keeps the order. */
  lemma InsertedIsSorted(s: seq<ObjectMeta>, m: ObjectMeta, i: nat)
    requires Sorted(s) && i <= |s|
    requires forall j | 0 <= j < i :: !Order.Before(KeyOf(m), KeyOf(s[j]))
    requires i < |s| ==> Order.Before(KeyOf(m), KeyOf(s[i]))
    ensures Sorted(Inserted(s, m, i))
  {
    var r := Inserted(s, m, i);
    forall a, b | 0 <= a < b < |r| ensures !Order.Before(KeyOf(r[b]), KeyOf(r[a])) {
      if a == i {
        NotBeforeTheRest(s, m, i, b - 1);
      }
    }
  }

  method InsertSorted(s: seq<ObjectMeta>, m: ObjectMeta) returns (r: seq<ObjectMeta>)
    requires Sorted(s)
    ensures Sorted(r) && multiset(r) == multiset(s) + multiset{m}
  {
    var i := 0;
    while i < |s| && !Order.Before(KeyOf(m), KeyOf(s[i]))
      invariant 0 <= i <= |s|
      invariant forall j | 0 <= j < i :: !Order.Before(KeyOf(m), KeyOf(s[j]))
    {
      i := i + 1;
    }
    InsertedIsSorted(s, m, i);
    InsertedIsPermuted(s, m, i);
    r := Inserted(s, m, i);
  }

  /** Equal keys mean equal elements. */
  ghost predicate KeysIdentify(s: seq<ObjectMeta>) {
    forall i, j | 0 <= i < |s| && 0 <= j < |s| && KeyOf(s[i]) == KeyOf(s[j]) :: s[i] == s[j]
  }

  lemma SameFirst(a: seq<ObjectMeta>, b: seq<ObjectMeta>)
    requires a != [] && b != [] && Sorted(a) && Sorted(b) && multiset(a) == multiset(b) && KeysIdentify(a)
    ensures a[0] == b[0]
  {
    assert a[0] in multiset(b) && b[0] in multiset(a);
    var i :| 0 <= i < |b| && b[i] == a[0];
    var j :| 0 <= j < |a| && a[j] == b[0];
    Order.BeforeTotal(KeyOf(a[0]), KeyOf(b[0]));
    assert KeyOf(a[0]) == KeyOf(a[j]);
  }

  lemma TailMultiset(s: seq<ObjectMeta>)
    requires s != []
    ensures multiset(s[1..]) == multiset(s) - multiset{s[0]}
  {
    assert s == [s[0]] + s[1..];
  }

  /** A multiset of identified elements has one sorted arrangement. */
  lemma {:induction false} OneSortedArrangement(a: seq<ObjectMeta>, b: seq<ObjectMeta>)
    requires Sorted(a) && Sorted(b) && multiset(a) == multiset(b) && KeysIdentify(a)
    ensures a == b
    decreases |a|
  {
    assert |a| == |multiset(a)| == |multiset(b)| == |b|;
    if a != [] {
      SameFirst(a, b);
      TailMultiset(a);
      TailMultiset(b);
      OneSortedArrangement(a[1..], b[1..]);
      assert a == [a[0]] + a[1..] && b == [b[0]] + b[1..];
    }
  }

  // ---- Visibility and filters ----

  /** Public objects pass; others must be outside every shared realm, or signed by a member of one. */
  predicate PassesMembersOnly(m: ObjectMeta, resolver: Option<Membership>) {
    || m.isPublic
    || resolver.None?
    || (forall i | 0 <= i < |m.realms| :: !resolver.value.IsSharedRealm(m.realms[i]))
    || (exists i :: 0 <= i < |m.realms| && resolver.value.IsSharedRealm(m.realms[i])
         && resolver.value.IsMember(m.realms[i], m.pubkey))
  }

  method PassesMembersOnlyFilter(m: ObjectMeta, resolver: Option<Membership>) returns (pass: bool)
    ensures pass == PassesMembersOnly(m, resolver)
  {
    if m.isPublic || resolver.None? { return true; }
    var hasSharedRealm := false;
    for i := 0 to |m.realms|
      invariant hasSharedRealm == exists j :: 0 <= j < i && resolver.value.IsSharedRealm(m.realms[j])
      invariant forall j | 0 <= j < i
                && resolver.value.IsSharedRealm(m.realms[j]) :: !resolver.value.IsMember(m.realms[j], m.pubkey)
    {
      if resolver.value.IsSharedRealm(m.realms[i]) {
        hasSharedRealm := true;
        if resolver.value.IsMember(m.realms[i], m.pubkey) { return true; }
      }
    }
    return !hasSharedRealm;
  }

  /** Who asks, and whether non-member contributions are hidden. */
  datatype Reader = Reader(authPubkey: string, membersOnly: bool, resolver: Option<Membership>)

  predicate Visible(m: ObjectMeta, reader: Reader) {
    CanRead(m.realms, reader.authPubkey, reader.resolver)
        && (reader.membersOnly ==> PassesMembersOnly(m, reader.resolver))
  }

  datatype Filter = Filter(relation: string, from: string, kind: string)

  /** The filters on the object itself; an empty string filters nothing. */
  predicate Matches(m: ObjectMeta, f: Filter) {
    (f.from != "" ==> m.pubkey == f.from) && (f.kind != "" ==> m.kind == f.kind)
  }

  predicate Indexed(meta: map<string, ObjectMeta>, m: ObjectMeta) {
    m.ref in meta && meta[m.ref] == m
  }

  /** What a naive scan of everything indexed would list. */
  predicate Wanted(meta: map<string, ObjectMeta>, m: ObjectMeta, reader: Reader, f: Filter) {
    Indexed(meta, m) && Visible(m, reader) && Matches(m, f)
  }

  /** The sorted list of exactly the wanted entries, once each. */
  ghost predicate IsScan(meta: map<string, ObjectMeta>, reader: Reader, f: Filter, result: seq<ObjectMeta>) {
    Sorted(result) && forall m :: multiset(result)[m] == if Wanted(meta, m, reader, f) then 1 else 0
  }

  /** The matching inbound entries of one source. */
  function EntriesFrom(entries: seq<RelationEntry>, relation: string, source: string): nat {
    if entries == [] then 0
    else
      var e := entries[|entries| - 1];
      EntriesFrom(entries[..|entries| - 1], relation, source)
      + (if e.source == source && (relation != "" ==> e.relation == relation) then 1 else 0)
  }

  /** As IsScan, but an object is listed once for each matching relation it has to the target. */
  ghost predicate IsInboundScan(meta: map<string, ObjectMeta>, entries: seq<RelationEntry>, reader: Reader, f: Filter,
                                result: seq<ObjectMeta>) {
    Sorted(result) && forall m :: multiset(result)[m] ==
                         if Wanted(meta, m, reader, f) then EntriesFrom(entries, f.relation, m.ref) else 0
  }

  ghost predicate OwnKeys(meta: map<string, ObjectMeta>) {
    forall r | r in meta :: meta[r].ref == r
  }

  lemma IndexKeysAreRefs(idx: Index)
    requires idx.Valid()
    ensures OwnKeys(idx.meta)
  {
  }

  // ---- The query loops ----

  method Keep(m: ObjectMeta, reader: Reader, f: Filter) returns (keep: bool)
    ensures keep == (Visible(m, reader) && Matches(m, f))
  {
    if !CanRead(m.realms, reader.authPubkey, reader.resolver) { return false; }
    if reader.membersOnly {
      var pass := PassesMembersOnlyFilter(m, reader.resolver);
      if !pass { return false; }
    }
    if f.from != "" && m.pubkey != f.from { return false; }
    if f.kind != "" && m.kind != f.kind { return false; }
    return true;
  }

  method GetInbound(idx: Index, target: string, f: Filter, reader: Reader) returns (result: seq<ObjectMeta>)
    requires idx.Valid()
    ensures IsInboundScan(idx.meta, InboundOf(idx.inbound, target), reader, f, result)
  {
    IndexKeysAreRefs(idx);
    var entries := InboundOf(idx.inbound, target);
    result := [];
    for i := 0 to |entries|
      invariant forall m :: multiset(result)[m] ==
                  if Wanted(idx.meta, m, reader, f) then EntriesFrom(entries[..i], f.relation, m.ref) else 0
    {
      assert entries[..i + 1][..i] == entries[..i];
      var e := entries[i];
      if f.relation != "" && e.relation != f.relation { continue; }
      if e.source !in idx.meta { continue; }
      var keep := Keep(idx.meta[e.source], reader, f);
      if keep {
        result := result + [idx.meta[e.source]];
      }
    }
    assert entries[..|entries|] == entries;
    result := SortMetaDesc(result);
  }

  /** The sorted list of exactly the wanted entries of one signer, once each. */
  ghost predicate IsOwnScan(meta: map<string, ObjectMeta>, reader: Reader, f: Filter, pubkey: string,
                            result: seq<ObjectMeta>) {
    Sorted(result) && forall m :: multiset(result)[m] == if Wanted(meta, m, reader, f)
        && m.pubkey == pubkey then 1 else 0
  }

  method GetByPubkey(idx: Index, pubkey: string, kind: string, reader: Reader) returns (result: seq<ObjectMeta>)
    requires idx.Valid()
    ensures IsOwnScan(idx.meta, reader, Filter("", "", kind), pubkey, result)
  {
    IndexKeysAreRefs(idx);
    var refs := RefsOf(idx.byPubkey, pubkey);
    var f := Filter("", "", kind);
    result := [];
    for i := 0 to |refs|
      invariant forall m :: multiset(result)[m] == if Wanted(idx.meta, m, reader, f) && m.ref in refs[..i] then 1 else 0
    {
      assert refs[..i + 1] == refs[..i] + [refs[i]];
      assert refs[i] !in refs[..i];
      if refs[i] !in idx.meta { continue; }
      var keep := Keep(idx.meta[refs[i]], reader, f);
      assert OwnedBy(idx.objects, refs[i], pubkey);
      if keep {
        result := result + [idx.meta[refs[i]]];
      }
    }
    assert refs[..|refs|] == refs;
    forall m | Wanted(idx.meta, m, reader, f) ensures m.ref in refs <==> m.pubkey == pubkey {
      assert m.ref in refs <==> OwnedBy(idx.objects, m.ref, pubkey);
    }
    result := SortMetaDesc(result);
  }

  method GetAll(idx: Index, pubkey: string, kind: string, reader: Reader) returns (result: seq<ObjectMeta>)
    requires idx.Valid()
    ensures IsScan(idx.meta, reader, Filter("", pubkey, kind), result)
  {
    if pubkey != "" {
      result := GetByPubkey(idx, pubkey, kind, reader);
      return;
    }
    IndexKeysAreRefs(idx);
    var f := Filter("", "", kind);
    result := [];
    var todo := idx.meta.Keys;
    while todo != {}
      invariant todo <= idx.meta.Keys
      invariant forall m :: multiset(result)[m] == if Wanted(idx.meta, m, reader, f) && m.ref !in todo then 1 else 0
      decreases todo
    {
      var ref :| ref in todo;
      var keep := Keep(idx.meta[ref], reader, f);
      if keep {
        result := result + [idx.meta[ref]];
      }
      todo := todo - {ref};
    }
    result := SortMetaDesc(result);
  }

  // ---- Inbound entries are the relations of the objects ----

  lemma {:induction false} EntriesOfRelation(entries: seq<RelationEntry>, relation: string, source: string)
    requires relation != ""
    ensures EntriesFrom(entries, relation, source) == multiset(entries)[RelationEntry(source, relation)]
  {
    if entries != [] {
      var n := |entries| - 1;
      EntriesOfRelation(entries[..n], relation, source);
      assert entries == entries[..n] + [entries[n]];
    }
  }

  /** The source's entries whose relation is one of the names. */
  function EntriesAmong(entries: seq<RelationEntry>, names: seq<string>, source: string): nat {
    if entries == [] then 0
    else
      var e := entries[|entries| - 1];
      EntriesAmong(entries[..|entries| - 1], names, source)
          + (if e.source == source && e.relation in names then 1 else 0)
  }

  lemma {:induction false} OneMoreName(entries: seq<RelationEntry>, names: seq<string>, last: string, source: string)
    requires last !in names
    ensures EntriesAmong(entries, names + [last], source) ==
            EntriesAmong(entries, names, source) + multiset(entries)[RelationEntry(source, last)]
  {
    if entries != [] {
      var n := |entries| - 1;
      OneMoreName(entries[..n], names, last, source);
      assert entries == entries[..n] + [entries[n]];
    }
  }

  /** All edges from an item to a target, over the relation names given. */
  function EdgesOver(item: Item, names: seq<string>, target: string): nat {
    if names == [] then 0
    else EdgesOver(item, names[..|names| - 1], target) + Edges(item, names[|names| - 1], target)
  }

  lemma {:induction false} AmongAreEdges(objs: Objs, entries: seq<RelationEntry>, names: seq<string>, source: string,
                                         target: string)
    requires source in objs && NoDuplicates(names)
    requires forall e :: multiset(entries)[e] == Arrows(objs, target, e)
    ensures EntriesAmong(entries, names, source) == EdgesOver(objs[source].item, names, target)
  {
    if names == [] {
      NoneAmong(entries, source);
    } else {
      var n := |names| - 1;
      assert names == names[..n] + [names[n]] && names[n] !in names[..n];
      AmongAreEdges(objs, entries, names[..n], source, target);
      OneMoreName(entries, names[..n], names[n], source);
    }
  }

  lemma {:induction false} NoneAmong(entries: seq<RelationEntry>, source: string)
    ensures EntriesAmong(entries, [], source) == 0
  {
    if entries != [] {
      NoneAmong(entries[..|entries| - 1], source);
    }
  }

  lemma {:induction false} AllAmong(entries: seq<RelationEntry>, names: seq<string>, source: string)
    requires forall e | e in entries && e.source == source :: e.relation in names
    ensures EntriesAmong(entries, names, source) == EntriesFrom(entries, "", source)
  {
    if entries != [] {
      AllAmong(entries[..|entries| - 1], names, source);
    }
  }

  lemma TargetEntries(idx: Index, target: string)
    requires idx.Valid()
    ensures forall e :: multiset(InboundOf(idx.inbound, target))[e] == Arrows(idx.objects, target, e)
  {
  }

  /** An object is listed as inbound exactly as often as its own item points at the target: through
      the relation asked for, or through all its relations together when none was. */
  lemma InboundEntriesAreEdges(idx: Index, target: string, relation: string, source: string, names: seq<string>)
    requires idx.Valid() && source in idx.objects
    requires NoDuplicates(names) && forall r :: r in names <==> r in idx.objects[source].item.relations
    ensures EntriesFrom(InboundOf(idx.inbound, target), relation, source) ==
            if relation != "" then Edges(idx.objects[source].item, relation, target)
            else EdgesOver(idx.objects[source].item, names, target)
  {
    var entries := InboundOf(idx.inbound, target);
    TargetEntries(idx, target);
    if relation != "" {
      EntriesOfRelation(entries, relation, source);
      assert multiset(entries)[RelationEntry(source, relation)] ==
          Arrows(idx.objects, target, RelationEntry(source, relation));
    } else {
      forall e | e in entries && e.source == source ensures e.relation in names {
        assert multiset(entries)[e] > 0;
      }
      AllAmong(entries, names, source);
      AmongAreEdges(idx.objects, entries, names, source, target);
    }
  }

  // ---- What the answers have in common ----

  lemma ListedAreIndexed(meta: map<string, ObjectMeta>, s: seq<ObjectMeta>)
    requires forall m | m in s :: Indexed(meta, m)
    ensures KeysIdentify(s)
  {
    forall i, j | 0 <= i < |s| && 0 <= j < |s| && KeyOf(s[i]) == KeyOf(s[j]) ensures s[i] == s[j] {
      assert s[i] in s && s[j] in s;
    }
  }

  /** An answer does not depend on the order in which the maps were walked. */
  lemma ScanIsUnique(meta: map<string, ObjectMeta>, reader: Reader, f: Filter, a: seq<ObjectMeta>, b: seq<ObjectMeta>)
    requires IsScan(meta, reader, f, a) && IsScan(meta, reader, f, b)
    ensures a == b
  {
    forall m | m in a ensures Indexed(meta, m) {
      assert multiset(a)[m] > 0;
    }
    ListedAreIndexed(meta, a);
    assert multiset(a) == multiset(b);
    OneSortedArrangement(a, b);
  }

  lemma InboundScanIsUnique(meta: map<string, ObjectMeta>, entries: seq<RelationEntry>, reader: Reader, f: Filter,
                            a: seq<ObjectMeta>, b: seq<ObjectMeta>)
    requires IsInboundScan(meta, entries, reader, f, a) && IsInboundScan(meta, entries, reader, f, b)
    ensures a == b
  {
    forall m | m in a ensures Indexed(meta, m) {
      assert multiset(a)[m] > 0;
    }
    ListedAreIndexed(meta, a);
    assert multiset(a) == multiset(b);
    OneSortedArrangement(a, b);
  }

  function OwnedOnly(s: seq<ObjectMeta>, pubkey: string): seq<ObjectMeta> {
    if s == [] then []
    else OwnedOnly(s[..|s| - 1], pubkey) + (if s[|s| - 1].pubkey == pubkey then [s[|s| - 1]] else [])
  }

  lemma {:induction false} OwnedOnlyKeepsOrder(s: seq<ObjectMeta>, pubkey: string)
    requires Sorted(s)
    ensures Sorted(OwnedOnly(s, pubkey))
    ensures forall m :: multiset(OwnedOnly(s, pubkey))[m] == if m.pubkey == pubkey then multiset(s)[m] else 0
  {
    if s != [] {
      var n := |s| - 1;
      var before := OwnedOnly(s[..n], pubkey);
      OwnedOnlyKeepsOrder(s[..n], pubkey);
      assert s == s[..n] + [s[n]];
      forall i | 0 <= i < |before| ensures !Order.Before(KeyOf(s[n]), KeyOf(before[i])) {
        assert before[i] in multiset(before);
        assert before[i] in multiset(s[..n]);
        var k :| 0 <= k < n && s[..n][k] == before[i];
      }
    }
  }

  /** GetAll for a pubkey, which walks another map, is GetAll for everyone filtered by that pubkey. */
  lemma ByPubkeyIsFiltered(meta: map<string, ObjectMeta>, reader: Reader, pubkey: string, kind: string,
                           all: seq<ObjectMeta>, own: seq<ObjectMeta>)
    requires pubkey != ""
    requires IsScan(meta, reader, Filter("", "", kind), all) && IsScan(meta, reader, Filter("", pubkey, kind), own)
    ensures own == OwnedOnly(all, pubkey)
  {
    OwnedOnlyKeepsOrder(all, pubkey);
    ScanIsUnique(meta, reader, Filter("", pubkey, kind), own, OwnedOnly(all, pubkey));
  }

  /** A private object is listed only for its owner-realms' keys and the members of its shared realms. */
  lemma PrivateStaysPrivate(meta: map<string, ObjectMeta>, reader: Reader, f: Filter, result: seq<ObjectMeta>,
                            m: ObjectMeta)
    requires IsScan(meta, reader, f, result) && m in result && !IsPublicRead(m.realms)
    ensures reader.authPubkey != ""
    ensures reader.authPubkey in m.realms ||
            (reader.resolver.Some? && exists r :: r in m.realms && reader.resolver.value.IsMember(r, reader.authPubkey))
  {
    assert multiset(result)[m] > 0;
  }

  /** Nothing readable is withheld: with non-member contributions shown, an indexed object is listed
      exactly when it matches and is public, names the reader's own key, or is in a realm the reader is
      a member of. */
  lemma ReadersSeeTheirObjects(meta: map<string, ObjectMeta>, reader: Reader, f: Filter, result: seq<ObjectMeta>,
                               m: ObjectMeta)
    requires IsScan(meta, reader, f, result) && Indexed(meta, m) && !reader.membersOnly
    ensures m in result <==>
            && (f.from != "" ==> m.pubkey == f.from) && (f.kind != "" ==> m.kind == f.kind)
            && (|| "dataverse001" in m.realms || "server-public" in m.realms
                || (reader.authPubkey != "" && reader.authPubkey in m.realms)
                || (reader.authPubkey != "" && reader.resolver.Some?
                    && exists r :: r in m.realms && reader.resolver.value.IsMember(r, reader.authPubkey)))
  {
    ReadersExactly(m.realms, reader.authPubkey, reader.resolver);
    assert m in result <==> multiset(result)[m] > 0;
  }

  /** In some shared realm, by an author who is a member of none of the shared realms it is in. */
  predicate Outsider(m: ObjectMeta, resolver: Membership) {
    && (exists r :: r in m.realms && resolver.IsSharedRealm(r))
    && (forall r | r in m.realms && resolver.IsSharedRealm(r) :: !resolver.IsMember(r, m.pubkey))
  }

  /** Members-only hides exactly the private objects that are in shared realms and whose author is a
      member of none of those. */
  lemma MembersOnlyHidesExactly(meta: map<string, ObjectMeta>, reader: Reader, f: Filter, all: seq<ObjectMeta>,
                                shown: seq<ObjectMeta>, m: ObjectMeta)
    requires IsScan(meta, reader.(membersOnly := false), f, all) && IsScan(meta, reader.(membersOnly := true), f, shown)
    ensures m in shown <==> m in all && !(!m.isPublic && reader.resolver.Some? && Outsider(m, reader.resolver.value))
  {
    assert m in shown <==> multiset(shown)[m] > 0;
    assert m in all <==> multiset(all)[m] > 0;
    forall i | 0 <= i < |m.realms| ensures m.realms[i] in m.realms {
    }
  }

  /** Every list runs from the newest object to the oldest, with refs descending among equals. */
  lemma ListsRunFromTheNewest(result: seq<ObjectMeta>, i: nat, j: nat)
    requires Sorted(result) && i < j < |result|
    ensures result[i].updatedAt >= result[j].updatedAt
    ensures result[i].updatedAt == result[j].updatedAt ==> !Order.Less(result[i].ref, result[j].ref)
  {
    Order.NewestFirst(KeyOf(result[i]), KeyOf(result[j]));
    Order.NewestFirst(KeyOf(result[j]), KeyOf(result[i]));
  }

  // ---- Counting ----

  function CountRelation(entries: seq<RelationEntry>, relation: string): nat {
    if entries == [] then 0
    else
      var last := entries[|entries| - 1];
      CountRelation(entries[..|entries| - 1], relation) + (if last.relation == relation then 1 else 0)
  }

  function RelationsOf(entries: seq<RelationEntry>): seq<string> {
    seq(|entries|, i requires 0 <= i < |entries| => entries[i].relation)
  }

  /** The count of a relation is the number of entries that have it. */
  lemma {:induction false} CountsAreMultiplicities(entries: seq<RelationEntry>, relation: string)
    ensures CountRelation(entries, relation) == multiset(RelationsOf(entries))[relation]
  {
    if entries != [] {
      var n := |entries| - 1;
      CountsAreMultiplicities(entries[..n], relation);
      assert RelationsOf(entries) == RelationsOf(entries[..n]) + [entries[n].relation];
    }
  }

  method GetInboundCounts(idx: Index, target: string) returns (counts: map<string, nat>)
    ensures forall r :: r in counts <==> CountRelation(InboundOf(idx.inbound, target), r) > 0
    ensures forall r | r in counts :: counts[r] == CountRelation(InboundOf(idx.inbound, target), r)
  {
    var entries := InboundOf(idx.inbound, target);
    counts := map[];
    for i := 0 to |entries|
      invariant forall r :: r in counts <==> CountRelation(entries[..i], r) > 0
      invariant forall r | r in counts :: counts[r] == CountRelation(entries[..i], r)
    {
      assert entries[..i + 1][..i] == entries[..i];
      var r := entries[i].relation;
      counts := counts[r := (if r in counts then counts[r] else 0) + 1];
    }
    assert entries[..|entries|] == entries;
  }
}
