/** The in-memory index, maintained in place (storage/index.go): metadata by ref, refs by pubkey,
    inbound relations by target, and the shared-realm graph. */
module ObjectIndex {
  import opened Decimal
  import opened Objects
  import opened RealmAddress
  import opened RealmGraph
  import Resolver

  datatype ObjectMeta = ObjectMeta(
    ref: string,
    pubkey: string,
    kind: string,
    revision: int,
    pageRef: string,
    mimeType: string,
    isPublic: bool,
    realms: seq<string>,
    updatedAt: int
  )

  datatype RelationEntry = RelationEntry(source: string, relation: string)

  /** An indexed object: the item, its timestamp, and its resolved realms. */
  datatype Stored = Stored(item: Item, time: int, realms: seq<string>)

  type Objs = map<string, Stored>
  type Inbound = map<string, seq<RelationEntry>>
  type ByPubkey = map<string, seq<string>>

  const PAGE_RELATION := "page"
  const BLOB := "BLOB"

  function PageRef(item: Item): string {
    if PAGE_RELATION in item.relations && item.relations[PAGE_RELATION] != [] && item.relations[PAGE_RELATION][0].Some?
    then item.relations[PAGE_RELATION][0].value else ""
  }

  function MetaOf(ref: string, s: Stored): ObjectMeta {
    var realms := if s.realms != [] then s.realms else s.item.realms;
    ObjectMeta(ref, s.item.pubkey, s.item.kind, s.item.revision, PageRef(s.item),
               if s.item.kind == BLOB && s.item.content.Fields? then s.item.content.mimeType else "",
               Resolver.IsPublicRead(realms), realms, s.time)
  }

  // ---- What the index is a view of ----

  function CountTarget(entries: seq<Option<string>>, target: string): nat {
    if entries == [] then 0
    else
      var last := entries[|entries| - 1];
      CountTarget(entries[..|entries| - 1], target) + (if target != "" && last == Some(target) then 1 else 0)
  }

  /** How many of the item's relations of this name point at the target. */
  function Edges(item: Item, relation: string, target: string): nat {
    if relation in item.relations then CountTarget(item.relations[relation], target) else 0
  }

  /** The relations of this name that name the target, each as often as it is listed; nothing points at
      the empty ref. */
  lemma {:induction false} TargetsAreMultiplicities(entries: seq<Option<string>>, target: string)
    ensures CountTarget(entries, target) == if target == "" then 0 else multiset(entries)[Some(target)]
  {
    if entries != [] {
      var n := |entries| - 1;
      TargetsAreMultiplicities(entries[..n], target);
      assert entries == entries[..n] + [entries[n]];
    }
  }

  lemma EdgesExactly(item: Item, relation: string, target: string)
    ensures Edges(item, relation, target) ==
            if relation in item.relations && target != "" then multiset(item.relations[relation])[Some(target)] else 0
  {
    if relation in item.relations { TargetsAreMultiplicities(item.relations[relation], target); }
  }

  function Arrows(objs: Objs, target: string, e: RelationEntry): nat {
    if e.source in objs then Edges(objs[e.source].item, e.relation, target) else 0
  }

  function InboundOf(inbound: Inbound, target: string): seq<RelationEntry> {
    if target in inbound then inbound[target] else []
  }

  function RefsOf(byPubkey: ByPubkey, pk: string): seq<string> {
    if pk in byPubkey then byPubkey[pk] else []
  }

  ghost predicate MetaMatches(meta: map<string, ObjectMeta>, objs: Objs) {
    meta.Keys == objs.Keys && forall r | r in objs :: meta[r] == MetaOf(r, objs[r])
  }

  predicate OwnedBy(objs: Objs, r: string, pk: string) {
    r in objs && objs[r].item.pubkey == pk
  }

  ghost predicate PubkeysMatch(byPubkey: ByPubkey, objs: Objs) {
    && (forall pk :: NoDuplicates(RefsOf(byPubkey, pk)))
    && (forall pk, r :: r in RefsOf(byPubkey, pk) <==> OwnedBy(objs, r, pk))
  }

  ghost predicate InboundMatches(inbound: Inbound, objs: Objs) {
    NoEmptyTarget(inbound) && forall t, e :: multiset(InboundOf(inbound, t))[e] == Arrows(objs, t, e)
  }

  predicate NoEmptyTarget(inbound: Inbound) {
    forall t | t in inbound :: inbound[t] != []
  }

  ghost predicate GraphMatches(sha1: Sha1, realms: Realms, objs: Objs) {
    && (forall name | name in realms :: realms[name].ref in objs && Names(sha1, objs[realms[name].ref].item, name))
    && (forall r | r in objs :: Ingested(sha1, realms, objs[r].item))
  }

  /** A well-formed realm object has its entry. */
  predicate Ingested(sha1: Sha1, realms: Realms, item: Item) {
    var parsed := ParseSharedRealm(sha1, item);
    parsed.Some? ==> parsed.value.0 in realms && realms[parsed.value.0] == EntryOf(item, parsed.value.1)
  }

  ghost predicate OwnRefs(objs: Objs) {
    forall r | r in objs :: objs[r].item.Ref() == r
  }

  // ---- Small facts about the edits ----

  function WithoutSource(entries: seq<RelationEntry>, ref: string): seq<RelationEntry> {
    if entries == [] then []
    else WithoutSource(entries[..|entries| - 1], ref)
         + (if entries[|entries| - 1].source != ref then [entries[|entries| - 1]] else [])
  }

  lemma {:induction false} WithoutSourceCounts(entries: seq<RelationEntry>, ref: string)
    ensures forall e :: multiset(WithoutSource(entries, ref))[e] == if e.source == ref then 0 else multiset(entries)[e]
  {
    if entries != [] {
      var n := |entries| - 1;
      WithoutSourceCounts(entries[..n], ref);
      assert entries == entries[..n] + [entries[n]];
    }
  }

  /** One relation name's entries have been added under their targets. */
  predicate Linked(before: Inbound, after: Inbound, ref: string, relation: string, entries: seq<Option<string>>,
                   t: string, e: RelationEntry) {
    multiset(InboundOf(after, t))[e] ==
    multiset(InboundOf(before, t))[e] + (if e == RelationEntry(ref, relation) then CountTarget(entries, t) else 0)
  }

  lemma LinkOne(before: Inbound, was: Inbound, now: Inbound, ref: string, relation: string,
                entries: seq<Option<string>>, i: nat,
                t: string, e: RelationEntry)
    requires i < |entries| && Linked(before, was, ref, relation, entries[..i], t, e)
    requires now == if entries[i].Some? && entries[i].value != ""
                    then was[entries[i].value :=
                        InboundOf(was, entries[i].value) + [RelationEntry(ref, relation)]] else was
    ensures Linked(before, now, ref, relation, entries[..i + 1], t, e)
  {
    assert entries[..i + 1][..i] == entries[..i];
  }

  /** The relations outside todo have been added. */
  predicate PartlyLinked(inbound: Inbound, objs: Objs, ref: string, item: Item, todo: set<string>, t: string,
                         e: RelationEntry) {
    multiset(InboundOf(inbound, t))[e] ==
    Arrows(objs, t, e) + (if e.source == ref && e.relation !in todo then Edges(item, e.relation, t) else 0)
  }

  /** The target's entries are the old ones without those of the source. */
  predicate Swept(before: Inbound, after: Inbound, target: string, ref: string) {
    InboundOf(after, target) == WithoutSource(InboundOf(before, target), ref)
  }

  lemma InboundAfterSweep(before: Inbound, after: Inbound, objs: Objs, ref: string)
    requires InboundMatches(before, objs)
    requires NoEmptyTarget(after) && (forall t :: Swept(before, after, t, ref))
    ensures InboundMatches(after, objs - {ref})
  {
    forall t, e ensures multiset(InboundOf(after, t))[e] == Arrows(objs - {ref}, t, e) {
      assert Swept(before, after, t, ref);
      WithoutSourceCounts(InboundOf(before, t), ref);
      assert multiset(InboundOf(before, t))[e] == Arrows(objs, t, e);
    }
  }

  lemma RemoveOne(refs: seq<string>, i: nat)
    requires NoDuplicates(refs) && i < |refs|
    ensures NoDuplicates(refs[..i] + refs[i + 1..])
    ensures forall r :: r in refs[..i] + refs[i + 1..] <==> r in refs && r != refs[i]
  {
    var rest := refs[..i] + refs[i + 1..];
    forall r | r in refs && r != refs[i] ensures r in rest {
      var k :| 0 <= k < |refs| && refs[k] == r;
      assert k < i ==> rest[k] == r;
      assert k > i ==> rest[k - 1] == r;
    }
  }

  class Index {
    const graph: GraphSharedRealms
    var inbound: Inbound
    var byPubkey: ByPubkey
    var meta: map<string, ObjectMeta>
    ghost var objects: Objs  // what has been indexed and not removed

    ghost predicate Valid() reads this, graph {
      && graph.Valid() && OwnRefs(objects)
      && MetaMatches(meta, objects)
      && PubkeysMatch(byPubkey, objects)
      && InboundMatches(inbound, objects)
      && GraphMatches(graph.sha1, graph.realms, objects)
    }

    constructor (sha1: Sha1)
      ensures Valid() && objects == map[] && fresh(graph) && graph.sha1 == sha1
    {
      graph := new GraphSharedRealms(sha1);
      inbound, byPubkey, meta, objects := map[], map[], map[], map[];
    }

    /** The inner loop of addLocked: one relation name's entries. */
    method Link(ref: string, relation: string, entries: seq<Option<string>>)
      requires NoEmptyTarget(inbound)
      modifies this`inbound
      ensures NoEmptyTarget(inbound) && forall t, e :: Linked(old(inbound), inbound, ref, relation, entries, t, e)
    {
      for i := 0 to |entries|
        invariant NoEmptyTarget(inbound)
        invariant forall t, e :: Linked(old(inbound), inbound, ref, relation, entries[..i], t, e)
      {
        ghost var was, done := inbound, entries[..i + 1];
        if entries[i].Some? && entries[i].value != "" {
          var target := entries[i].value;
          inbound := inbound[target := InboundOf(inbound, target) + [RelationEntry(ref, relation)]];
        }
        forall t, e ensures Linked(old(inbound), inbound, ref, relation, done, t, e) {
          assert Linked(old(inbound), was, ref, relation, entries[..i], t, e);
          LinkOne(old(inbound), was, inbound, ref, relation, entries, i, t, e);
        }
      }
      assert entries[..|entries|] == entries;
    }

    method LinkAll(ref: string, s: Stored)
      requires InboundMatches(inbound, objects) && ref !in objects
      modifies this`inbound
      ensures InboundMatches(inbound, objects[ref := s])
    {
      var todo := s.item.relations.Keys;
      while todo != {}
        invariant todo <= s.item.relations.Keys && NoEmptyTarget(inbound)
        invariant forall t, e :: PartlyLinked(inbound, objects, ref, s.item, todo, t, e)
        decreases todo
      {
        var relation :| relation in todo;
        ghost var was := inbound;
        Link(ref, relation, s.item.relations[relation]);
        forall t, e ensures PartlyLinked(inbound, objects, ref, s.item, todo - {relation}, t, e) {
          assert PartlyLinked(was, objects, ref, s.item, todo, t, e);
          assert Linked(was, inbound, ref, relation, s.item.relations[relation], t, e);
        }
        todo := todo - {relation};
      }
      forall t, e ensures multiset(InboundOf(inbound, t))[e] == Arrows(objects[ref := s], t, e) {
        assert PartlyLinked(inbound, objects, ref, s.item, {}, t, e);
      }
    }

    method AddLocked(ref: string, s: Stored)
      requires Valid() && ref !in objects && s.item.Ref() == ref
      modifies this, graph
      ensures Valid() && objects == old(objects)[ref := s]
    {
      LinkAll(ref, s);
      meta := meta[ref := MetaOf(ref, s)];
      Own(ref, s);
      Ingest(ref, s);
      objects := objects[ref := s];
    }

    method Own(ref: string, s: Stored)
      requires PubkeysMatch(byPubkey, objects) && ref !in objects
      modifies this`byPubkey
      ensures PubkeysMatch(byPubkey, objects[ref := s])
    {
      var pk := s.item.pubkey;
      byPubkey := byPubkey[pk := RefsOf(byPubkey, pk) + [ref]];
      PubkeysAfterAdd(old(byPubkey), objects, ref, s);
    }

    method Ingest(ref: string, s: Stored)
      requires graph.Valid() && GraphMatches(graph.sha1, graph.realms, objects) && OwnRefs(objects)
      requires ref !in objects && s.item.Ref() == ref
      modifies graph
      ensures graph.Valid() && GraphMatches(graph.sha1, graph.realms, objects[ref := s])
    {
      GraphAfterAdd(graph.sha1, graph.realms, objects, ref, s);
      if s.item.kind == SHARED_REALM {
        graph.Add(s.item);
      }
    }

    method RemoveLocked(ref: string)
      requires Valid()
      modifies this, graph
      ensures Valid() && objects == old(objects) - {ref}
    {
      if ref !in meta {
        assert objects - {ref} == objects;
        return;
      }
      var m := meta[ref];
      Forget(ref, m.kind);
      Disown(ref, m.pubkey);
      Unlink(ref);
      meta := meta - {ref};
      objects := objects - {ref};
    }

    method Forget(ref: string, kind: string)
      requires graph.Valid() && GraphMatches(graph.sha1, graph.realms, objects) && OwnRefs(objects)
      requires ref in objects && objects[ref].item.kind == kind
      modifies graph
      ensures graph.Valid() && GraphMatches(graph.sha1, graph.realms, objects - {ref})
    {
      ghost var before := graph.realms;
      if kind == SHARED_REALM {
        graph.Remove(ref);
      }
      GraphAfterRemove(graph.sha1, before, objects, ref, graph.realms);
    }

    /** Deletes the first occurrence of ref from its owner's list. */
    method Disown(ref: string, pk: string)
      requires PubkeysMatch(byPubkey, objects) && OwnedBy(objects, ref, pk)
      modifies this`byPubkey
      ensures PubkeysMatch(byPubkey, objects - {ref})
    {
      var refs := RefsOf(byPubkey, pk);
      var i := 0;
      while refs[i] != ref
        invariant 0 <= i < |refs| && ref !in refs[..i]
        decreases |refs| - i
      {
        i := i + 1;
      }
      RemoveOne(refs, i);
      byPubkey := byPubkey[pk := refs[..i] + refs[i + 1..]];
      PubkeysAfterRemove(old(byPubkey), objects, ref, byPubkey);
    }

    /** Filters the source out of every target's entries, dropping targets left without any. */
    method Unlink(ref: string)
      requires InboundMatches(inbound, objects)
      modifies this`inbound
      ensures InboundMatches(inbound, objects - {ref})
    {
      var todo := inbound.Keys;
      while todo != {}
        invariant todo <= inbound.Keys && NoEmptyTarget(inbound)
        invariant forall t | t in todo :: t in old(inbound) && inbound[t] == old(inbound)[t]
        invariant forall t :: t !in todo ==> Swept(old(inbound), inbound, t, ref)
        decreases todo
      {
        var target :| target in todo;
        ghost var was := inbound;
        var filtered := WithoutSource(inbound[target], ref);
        if filtered == [] {
          inbound := inbound - {target};
        } else {
          inbound := inbound[target := filtered];
        }
        todo := todo - {target};
        forall t | t !in todo ensures Swept(old(inbound), inbound, t, ref) {
          assert t != target ==> Swept(old(inbound), was, t, ref);
        }
      }
      InboundAfterSweep(old(inbound), inbound, objects, ref);
    }

    method Update(ref: string, s: Stored)
      requires Valid() && s.item.Ref() == ref
      modifies this, graph
      ensures Valid() && objects == old(objects)[ref := s]
    {
      RemoveLocked(ref);
      AddLocked(ref, s);
      assert (old(objects) - {ref})[ref := s] == old(objects)[ref := s];
    }

    /** Rebuild from the scanned files; the files that do not parse are skipped. */
    method Rebuild(files: seq<(string, Option<Stored>)>)
      requires forall i, j | 0 <= i < j < |files| :: files[i].0 != files[j].0
      requires forall i | 0 <= i < |files| && files[i].1.Some? :: files[i].1.value.item.Ref() == files[i].0
      modifies this, graph
      ensures Valid() && objects == FromFiles(files)
    {
      inbound, byPubkey, meta, objects := map[], map[], map[], map[];
      graph.Load([]);
      for i := 0 to |files|
        invariant Valid() && objects == FromFiles(files[..i])
        invariant forall r | r in objects :: exists k :: 0 <= k < i && files[k].0 == r
      {
        assert files[..i + 1][..i] == files[..i];
        if files[i].1.Some? {
          AddLocked(files[i].0, files[i].1.value);
        }
      }
      assert files[..|files|] == files;
    }
  }

  function FromFiles(files: seq<(string, Option<Stored>)>): Objs {
    if files == [] then map[]
    else
      var before, last := FromFiles(files[..|files| - 1]), files[|files| - 1];
      if last.1.Some? then before[last.0 := last.1.value] else before
  }

  /** Each file that parses is an object under its own name, and nothing else is. */
  lemma {:induction false} FilesAreTheObjects(files: seq<(string, Option<Stored>)>, ref: string, s: Stored)
    requires forall i, j | 0 <= i < j < |files| :: files[i].0 != files[j].0
    ensures ref in FromFiles(files) && FromFiles(files)[ref] == s <==> (ref, Some(s)) in files
  {
    if files != [] {
      var n := |files| - 1;
      FilesAreTheObjects(files[..n], ref, s);
      assert files == files[..n] + [files[n]];
      if files[n].0 == ref && ref in FromFiles(files[..n]) {
        FilesAreTheObjects(files[..n], ref, FromFiles(files[..n])[ref]);
      }
    }
  }

  lemma PubkeysAfterAdd(byPubkey: ByPubkey, objs: Objs, ref: string, s: Stored)
    requires PubkeysMatch(byPubkey, objs) && ref !in objs
    ensures var pk := s.item.pubkey; PubkeysMatch(byPubkey[pk := RefsOf(byPubkey, pk) + [ref]], objs[ref := s])
  {
    var pk := s.item.pubkey;
    var byPubkey', objs' := byPubkey[pk := RefsOf(byPubkey, pk) + [ref]], objs[ref := s];
    assert !OwnedBy(objs, ref, pk);
    forall q, r ensures r in RefsOf(byPubkey', q) <==> OwnedBy(objs', r, q) {
      assert r in RefsOf(byPubkey, q) <==> OwnedBy(objs, r, q);
    }
    forall q ensures NoDuplicates(RefsOf(byPubkey', q)) {
      assert NoDuplicates(RefsOf(byPubkey, q));
    }
  }

  lemma PubkeysAfterRemove(byPubkey: ByPubkey, objs: Objs, ref: string, byPubkey': ByPubkey)
    requires PubkeysMatch(byPubkey, objs) && ref in objs
    requires var pk := objs[ref].item.pubkey;
             && (forall q | q != pk :: RefsOf(byPubkey', q) == RefsOf(byPubkey, q))
             && NoDuplicates(RefsOf(byPubkey', pk))
             && (forall r :: r in RefsOf(byPubkey', pk) <==> r in RefsOf(byPubkey, pk) && r != ref)
    ensures PubkeysMatch(byPubkey', objs - {ref})
  {
    forall q, r ensures r in RefsOf(byPubkey', q) <==> OwnedBy(objs - {ref}, r, q) {
      assert r in RefsOf(byPubkey, q) <==> OwnedBy(objs, r, q);
    }
    forall q ensures NoDuplicates(RefsOf(byPubkey', q)) {
      assert NoDuplicates(RefsOf(byPubkey, q));
    }
  }

  /** A realm's address belongs to one object, so adding a new object never meets an old entry. */
  lemma RealmIsFree(sha1: Sha1, realms: Realms, objs: Objs, ref: string, s: Stored)
    requires GraphMatches(sha1, realms, objs) && OwnRefs(objs) && ref !in objs && s.item.Ref() == ref
    requires ParseSharedRealm(sha1, s.item).Some?
    ensures var name := ParseSharedRealm(sha1, s.item).value.0;
            name !in realms && forall r | r in objs :: !Names(sha1, objs[r].item, name)
  {
    var name := ParseSharedRealm(sha1, s.item).value.0;
    RealmForcesRef(sha1, s.item);
    forall r | r in objs ensures !Names(sha1, objs[r].item, name) {
      if Names(sha1, objs[r].item, name) {
        RealmForcesRef(sha1, objs[r].item);
      }
    }
  }

  /** A new realm object gets the entry of its realm, which no other object has. */
  lemma GraphAfterRealm(sha1: Sha1, realms: Realms, objs: Objs, ref: string, s: Stored)
    requires GraphMatches(sha1, realms, objs) && OwnRefs(objs) && ref !in objs && s.item.Ref() == ref
    requires ParseSharedRealm(sha1, s.item).Some?
    ensures var parsed := ParseSharedRealm(sha1, s.item).value;
            && Added(sha1, realms, s.item) == realms[parsed.0 := EntryOf(s.item, parsed.1)]
            && GraphMatches(sha1, realms[parsed.0 := EntryOf(s.item, parsed.1)], objs[ref := s])
  {
    var (realm, members) := ParseSharedRealm(sha1, s.item).value;
    var realms', objs' := realms[realm := EntryOf(s.item, members)], objs[ref := s];
    RealmIsFree(sha1, realms, objs, ref, s);
    forall name | name in realms' ensures realms'[name].ref in objs'
        && Names(sha1, objs'[realms'[name].ref].item, name) {
      if name != realm { assert realms[name].ref in objs; }
    }
    forall r | r in objs' ensures Ingested(sha1, realms', objs'[r].item) {
      if r != ref {
        assert !Names(sha1, objs[r].item, realm) && Ingested(sha1, realms, objs[r].item);
      }
    }
  }

  lemma GraphAfterAdd(sha1: Sha1, realms: Realms, objs: Objs, ref: string, s: Stored)
    requires GraphMatches(sha1, realms, objs) && OwnRefs(objs) && ref !in objs && s.item.Ref() == ref
    ensures GraphMatches(sha1, Added(sha1, realms, s.item), objs[ref := s])
    ensures s.item.kind != SHARED_REALM ==> Added(sha1, realms, s.item) == realms
  {
    if ParseSharedRealm(sha1, s.item).Some? {
      GraphAfterRealm(sha1, realms, objs, ref, s);
    } else {
      assert Added(sha1, realms, s.item) == realms;
    }
  }

  lemma GraphAfterRemove(sha1: Sha1, realms: Realms, objs: Objs, ref: string, realms': Realms)
    requires GraphMatches(sha1, realms, objs) && OwnRefs(objs) && ref in objs
    requires objs[ref].item.kind != SHARED_REALM ==> realms' == realms
    requires objs[ref].item.kind == SHARED_REALM && (forall r | r in realms :: realms[r].ref != ref)
             ==> realms' == realms
    requires objs[ref].item.kind == SHARED_REALM && (exists r :: r in realms && realms[r].ref == ref) ==>
             exists r :: r in realms && realms[r].ref == ref && realms' == realms - {r}
    ensures GraphMatches(sha1, realms', objs - {ref})
  {
    forall name | name in realms' ensures realms'[name].ref in objs - {ref}
        && Names(sha1, (objs - {ref})[realms'[name].ref].item, name) {
      assert name in realms && realms'[name] == realms[name];
    }
    forall r | r in objs && r != ref ensures Ingested(sha1, realms', objs[r].item) {
      assert objs[r].item.Ref() == r && Ingested(sha1, realms, objs[r].item);
    }
  }

  // ---- Incremental maintenance equals a rebuild ----

  /** Two indexes of the same objects agree: metadata and realm table exactly, the lists by pubkey
      as duplicate-free sets, and the inbound entries with their multiplicities. */
  lemma SameObjectsSameIndex(sha1: Sha1, objs: Objs,
                             meta1: map<string, ObjectMeta>, by1: ByPubkey, in1: Inbound, realms1: Realms,
                             meta2: map<string, ObjectMeta>, by2: ByPubkey, in2: Inbound, realms2: Realms)
    requires OwnRefs(objs)
    requires MetaMatches(meta1, objs) && PubkeysMatch(by1, objs) && InboundMatches(in1, objs)
             && GraphMatches(sha1, realms1, objs)
    requires MetaMatches(meta2, objs) && PubkeysMatch(by2, objs) && InboundMatches(in2, objs)
             && GraphMatches(sha1, realms2, objs)
    ensures meta1 == meta2 && realms1 == realms2
    ensures forall pk, r :: r in RefsOf(by1, pk) <==> r in RefsOf(by2, pk)
    ensures forall t :: multiset(InboundOf(in1, t)) == multiset(InboundOf(in2, t))
    ensures in1.Keys == in2.Keys
  {
    GraphIsDetermined(sha1, objs, realms1, realms2);
    GraphIsDetermined(sha1, objs, realms2, realms1);
    InboundIsDetermined(objs, in1, in2);
    forall pk, r ensures r in RefsOf(by1, pk) <==> r in RefsOf(by2, pk) {
      assert r in RefsOf(by1, pk) <==> OwnedBy(objs, r, pk);
    }
  }

  lemma GraphIsDetermined(sha1: Sha1, objs: Objs, a: Realms, b: Realms)
    requires OwnRefs(objs) && GraphMatches(sha1, a, objs) && GraphMatches(sha1, b, objs)
    ensures forall name | name in a :: name in b && b[name] == a[name]
  {
    forall name | name in a ensures name in b && b[name] == a[name] {
      var item := objs[a[name].ref].item;
      assert Names(sha1, item, name);
    }
  }

  lemma InboundIsDetermined(objs: Objs, a: Inbound, b: Inbound)
    requires InboundMatches(a, objs) && InboundMatches(b, objs)
    ensures forall t :: multiset(InboundOf(a, t)) == multiset(InboundOf(b, t))
    ensures a.Keys == b.Keys
  {
    forall t ensures multiset(InboundOf(a, t)) == multiset(InboundOf(b, t)) {
      forall e ensures multiset(InboundOf(a, t))[e] == multiset(InboundOf(b, t))[e] {
        assert multiset(InboundOf(a, t))[e] == Arrows(objs, t, e) == multiset(InboundOf(b, t))[e];
      }
    }
    forall t ensures t in a <==> t in b {
      assert multiset(InboundOf(a, t)) == multiset(InboundOf(b, t));
      assert |InboundOf(a, t)| == |multiset(InboundOf(a, t))| == |multiset(InboundOf(b, t))| == |InboundOf(b, t)|;
    }
  }

  datatype Op = Put(ref: string, stored: Stored) | Delete(ref: string)

  function Apply(objs: Objs, ops: seq<Op>): Objs {
    if ops == [] then objs
    else
      var before := Apply(objs, ops[..|ops| - 1]);
      match ops[|ops| - 1]
      case Put(ref, s) => before[ref := s]
      case Delete(ref) => before - {ref}
  }

  /** The last operation on a ref decides what is there. */
  lemma {:induction false} LastOpDecides(objs: Objs, ops: seq<Op>, ref: string, k: nat)
    requires k < |ops| && ops[k].ref == ref && forall i | k < i < |ops| :: ops[i].ref != ref
    ensures match ops[k]
            case Put(_, s) => ref in Apply(objs, ops) && Apply(objs, ops)[ref] == s
            case Delete(_) => ref !in Apply(objs, ops)
    decreases |ops|
  {
    var n := |ops| - 1;
    if k < n {
      LastOpDecides(objs, ops[..n], ref, k);
    }
  }

  /** And a ref no operation names stays as it was. */
  lemma {:induction false} OtherRefsStay(objs: Objs, ops: seq<Op>, ref: string)
    requires forall i | 0 <= i < |ops| :: ops[i].ref != ref
    ensures ref in Apply(objs, ops) <==> ref in objs
    ensures ref in objs ==> Apply(objs, ops)[ref] == objs[ref]
  {
    if ops != [] {
      OtherRefsStay(objs, ops[..|ops| - 1], ref);
    }
  }

  /** Any sequence of updates and removals leaves the index of the objects that are there now. */
  method Maintain(idx: Index, ops: seq<Op>)
    requires idx.Valid()
    requires forall i | 0 <= i < |ops| && ops[i].Put? :: ops[i].stored.item.Ref() == ops[i].ref
    modifies idx, idx.graph
    ensures idx.Valid() && idx.objects == Apply(old(idx.objects), ops)
  {
    for i := 0 to |ops|
      invariant idx.Valid() && idx.objects == Apply(old(idx.objects), ops[..i])
    {
      assert ops[..i + 1][..i] == ops[..i];
      match ops[i] {
        case Put(ref, s) => idx.Update(ref, s);
        case Delete(ref) => idx.RemoveLocked(ref);
      }
    }
    assert ops[..|ops|] == ops;
  }

  /** Two indexes of the same objects answer alike. */
  lemma SameObjectsSameAnswers(a: Index, b: Index)
    requires a.Valid() && b.Valid() && a.objects == b.objects && a.graph.sha1 == b.graph.sha1
    ensures a.meta == b.meta && a.graph.realms == b.graph.realms && a.graph.byPK == b.graph.byPK
    ensures forall pk :: NoDuplicates(RefsOf(a.byPubkey, pk)) && NoDuplicates(RefsOf(b.byPubkey, pk))
    ensures forall pk, r :: r in RefsOf(a.byPubkey, pk) <==> r in RefsOf(b.byPubkey, pk)
    ensures forall t :: multiset(InboundOf(a.inbound, t)) == multiset(InboundOf(b.inbound, t))
    ensures a.inbound.Keys == b.inbound.Keys
  {
    SameObjectsSameIndex(a.graph.sha1, a.objects, a.meta, a.byPubkey, a.inbound, a.graph.realms,
                         b.meta, b.byPubkey, b.inbound, b.graph.realms);
    TwoWayIsDetermined(a.graph.realms, a.graph.byPK, b.graph.byPK);
  }

  /** Maintaining an index through any sequence of updates and removals and rebuilding another one
      from the files that are there in the end give the same index. */
  method MaintainedEqualsRebuilt(idx: Index, ops: seq<Op>,
                                 files: seq<(string, Option<Stored>)>) returns (rebuilt: Index)
    requires idx.Valid()
    requires forall i | 0 <= i < |ops| && ops[i].Put? :: ops[i].stored.item.Ref() == ops[i].ref
    requires forall i, j | 0 <= i < j < |files| :: files[i].0 != files[j].0
    requires forall i | 0 <= i < |files| && files[i].1.Some? :: files[i].1.value.item.Ref() == files[i].0
    requires FromFiles(files) == Apply(idx.objects, ops)
    modifies idx, idx.graph
    ensures idx.Valid() && rebuilt.Valid() && idx.objects == rebuilt.objects == FromFiles(files)
    ensures idx.meta == rebuilt.meta && idx.graph.realms == rebuilt.graph.realms && idx.graph.byPK == rebuilt.graph.byPK
    ensures forall pk, r :: r in RefsOf(idx.byPubkey, pk) <==> r in RefsOf(rebuilt.byPubkey, pk)
    ensures forall t :: multiset(InboundOf(idx.inbound, t)) == multiset(InboundOf(rebuilt.inbound, t))
  {
    rebuilt := new Index(idx.graph.sha1);
    rebuilt.Rebuild(files);
    Maintain(idx, ops);
    SameObjectsSameAnswers(idx, rebuilt);
  }
}
