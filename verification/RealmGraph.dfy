/** Shared-realm membership ingested from SHARED_REALM objects (realm/graph.go). */
module RealmGraph {
  import opened Decimal
  import opened Objects
  import opened RealmAddress
  import Order

  const SHARED_REALM := "SHARED_REALM"
  const MEMBER := "member"

  datatype Entry = Entry(owner: string, members: seq<string>, revision: int, ref: string)
  type Realms = map<string, Entry>
  type ByMember = map<string, set<string>>

  // ---- Parsing ----

  /** The pubkey a member relation grants, None for the entries that are skipped. */
  function MemberOf(relation: Option<string>): Option<string> {
    if relation.None? || relation.value == "" || !IsPubkeyRealm(RefPubkey(relation.value)) then None
    else Some(RefPubkey(relation.value))
  }

  /** A relation entry grants membership to the key it starts with, when a dot follows. */
  lemma GrantsExactly(relation: Option<string>, pk: string)
    ensures MemberOf(relation) == Some(pk) <==>
            relation.Some? && IsPubkeyRealm(pk) && exists rest :: relation.value == pk + "." + rest
  {
    if MemberOf(relation) == Some(pk) {
      var ref := relation.value;
      assert ref == pk + "." + ref[|pk| + 1..];
    }
    if relation.Some? && IsPubkeyRealm(pk) {
      if rest :| relation.value == pk + "." + rest {
        FirstDotAfter(pk, rest);
      }
    }
  }

  function ExtractMembers(entries: seq<Option<string>>): seq<string> {
    if entries == [] then []
    else
      var before := ExtractMembers(entries[..|entries| - 1]);
      var pk := MemberOf(entries[|entries| - 1]);
      if pk.Some? && pk.value !in before then before + [pk.value] else before
  }

  predicate NoDuplicates(s: seq<string>) {
    forall i, j | 0 <= i < j < |s| :: s[i] != s[j]
  }

  /** Some entry grants membership to the key. */
  predicate Granted(entries: seq<Option<string>>, pk: string) {
    exists i :: 0 <= i < |entries| && MemberOf(entries[i]) == Some(pk)
  }

  lemma GrantedByLastOrBefore(entries: seq<Option<string>>, pk: string)
    requires entries != []
    ensures Granted(entries, pk) <==>
            Granted(entries[..|entries| - 1], pk) || MemberOf(entries[|entries| - 1]) == Some(pk)
  {
    var n := |entries| - 1;
    if i :| 0 <= i < n && MemberOf(entries[..n][i]) == Some(pk) {
      assert MemberOf(entries[i]) == Some(pk);
    }
    if i :| 0 <= i < |entries| && MemberOf(entries[i]) == Some(pk) {
      assert i < n ==> MemberOf(entries[..n][i]) == Some(pk);
    }
  }

  /** Each granted pubkey is listed once, and nothing else is listed. */
  lemma {:induction false} MembersAreGrants(entries: seq<Option<string>>)
    ensures NoDuplicates(ExtractMembers(entries))
    ensures forall pk :: pk in ExtractMembers(entries) <==> Granted(entries, pk)
  {
    if entries != [] {
      MembersAreGrants(entries[..|entries| - 1]);
      forall pk ensures pk in ExtractMembers(entries) <==> Granted(entries, pk) {
        GrantedByLastOrBefore(entries, pk);
      }
    }
  }

  /** Later entries only append: the keys are listed in the order in which they are first granted. */
  lemma {:induction false} LaterGrantsAppend(entries: seq<Option<string>>, k: nat)
    requires k <= |entries|
    ensures ExtractMembers(entries[..k]) <= ExtractMembers(entries)
    decreases |entries|
  {
    if k == |entries| {
      assert entries[..k] == entries;
    } else {
      var n := |entries| - 1;
      assert entries[..n][..k] == entries[..k];
      LaterGrantsAppend(entries[..n], k);
    }
  }

  method ExtractMemberPubkeys(entries: seq<Option<string>>) returns (members: seq<string>)
    ensures members == ExtractMembers(entries)
  {
    members := [];
    var seen: set<string> := {};
    for i := 0 to |entries|
      invariant members == ExtractMembers(entries[..i])
      invariant forall pk :: pk in seen <==> pk in members
    {
      assert entries[..i + 1][..i] == entries[..i];
      var pk := MemberOf(entries[i]);
      if pk.Some? && pk.value !in seen {
        seen := seen + {pk.value};
        members := members + [pk.value];
      }
    }
    assert entries[..|entries|] == entries;
  }

  /** The whole contract of the type: name, owner, deterministic id, global propagation. */
  function ParseSharedRealm(sha1: Sha1, item: Item): Option<(string, seq<string>)> {
    if item.kind != SHARED_REALM || !item.content.Fields? || item.content.realm == "" then None
    else
      var realm := item.content.realm;
      var owner := SplitRealmOwner(realm);
      if owner.None? || item.pubkey != owner.value || item.id != RealmID(sha1, realm)
          || GLOBAL_REALM !in item.realms then None
      else Some((realm, ExtractMembers(if MEMBER in item.relations then item.relations[MEMBER] else [])))
  }

  function EntryOf(item: Item, members: seq<string>): Entry {
    Entry(item.pubkey, members, item.revision, item.Ref())
  }

  /** The contract forces the address: every object of one realm lives at RealmRef(realm). */
  lemma RealmForcesRef(sha1: Sha1, item: Item)
    requires ParseSharedRealm(sha1, item).Some?
    ensures RealmRef(sha1, ParseSharedRealm(sha1, item).value.0) == Some(item.Ref())
    ensures SplitRealmOwner(ParseSharedRealm(sha1, item).value.0) == Some(item.pubkey)
  {
  }

  lemma OneDot(a: string, b: string, c: string, d: string)
    requires a + "." + b == c + "." + d
    requires (forall i | 0 <= i < |a| :: a[i] != '.') && (forall i | 0 <= i < |b| :: b[i] != '.')
    ensures a == c && b == d
  {
    var s := a + "." + b;
    assert s[|a|] == '.' && s[|c|] == '.';
    assert forall i | 0 <= i < |s| && i != |a| :: s[i] == (if i < |a| then a[i] else b[i - |a| - 1]);
    assert a == s[..|a|] && b == s[|a| + 1..] && c == s[..|c|] && d == s[|c| + 1..];
  }

  lemma NoDots(owner: string, id: string)
    requires IsPubkeyRealm(owner) && IsCanonicalUUID(id)
    ensures (forall i | 0 <= i < |owner| :: owner[i] != '.') && (forall i | 0 <= i < |id| :: id[i] != '.')
  {
    assert forall i | 0 <= i < |owner| :: IsBase64URLChar(owner[i]);
  }

  /** A realm object is well-formed exactly when it is global and lives at the address of the realm it
      names; it then says who the members are, and nothing more. */
  lemma WellFormedExactly(sha1: Sha1, item: Item)
    ensures ParseSharedRealm(sha1, item).Some? <==>
            && item.kind == "SHARED_REALM" && item.content.Fields? && "dataverse001" in item.realms
            && RealmRef(sha1, item.content.realm) == Some(item.Ref())
    ensures ParseSharedRealm(sha1, item).Some? ==>
            var (name, members) := ParseSharedRealm(sha1, item).value;
            && name == item.content.realm && NoDuplicates(members)
            && forall pk :: pk in members <==>
                 "member" in item.relations && Granted(item.relations["member"], pk)
  {
    if item.content.Fields? && RealmRef(sha1, item.content.realm) == Some(item.Ref()) {
      var realm := item.content.realm;
      var owner := SplitRealmOwner(realm).value;
      RealmIDIsVersion5(sha1, realm);
      NoDots(owner, RealmID(sha1, realm));
      OneDot(owner, RealmID(sha1, realm), item.pubkey, item.id);
    }
    MembersAreGrants(if MEMBER in item.relations then item.relations[MEMBER] else []);
  }

  // ---- Ingestion ----

  /** Add, on the realm table alone: the stored entry wins unless the new one is of higher
      revision, or of equal revision and greater ref. */
  function Added(sha1: Sha1, realms: Realms, item: Item): Realms {
    var parsed := ParseSharedRealm(sha1, item);
    if parsed.None? then realms
    else
      var (name, members) := parsed.value;
      if name in realms && (realms[name].revision > item.revision
                            || (realms[name].revision == item.revision && !Order.Less(realms[name].ref, item.Ref())))
      then realms
      else realms[name := EntryOf(item, members)]
  }

  function AddedAll(sha1: Sha1, items: seq<Item>): Realms {
    if items == [] then map[] else Added(sha1, AddedAll(sha1, items[..|items| - 1]), items[|items| - 1])
  }

  predicate Names(sha1: Sha1, item: Item, name: string) {
    ParseSharedRealm(sha1, item).Some? && ParseSharedRealm(sha1, item).value.0 == name
  }

  /** The realm entry comes from one of the items, and none of the realm's items has a higher revision. */
  ghost predicate Best(sha1: Sha1, items: seq<Item>, name: string, e: Entry) {
    && (exists i :: 0 <= i < |items| && Names(sha1, items[i], name)
         && e == EntryOf(items[i], ParseSharedRealm(sha1, items[i]).value.1))
    && (forall i | 0 <= i < |items| && Names(sha1, items[i], name) :: items[i].revision <= e.revision)
  }

  /** Best survives items of other realms and is decided by revisions within the realm. */
  lemma BestExtends(sha1: Sha1, before: seq<Item>, last: Item, name: string, e: Entry)
    requires Best(sha1, before, name, e) && (Names(sha1, last, name) ==> last.revision <= e.revision)
    ensures Best(sha1, before + [last], name, e)
  {
    var items := before + [last];
    var i :| 0 <= i < |before| && Names(sha1, before[i], name)
        && e == EntryOf(before[i], ParseSharedRealm(sha1, before[i]).value.1);
    assert items[i] == before[i];
  }

  lemma BestStarts(sha1: Sha1, before: seq<Item>, last: Item, name: string)
    requires Names(sha1, last, name)
    requires forall i | 0 <= i < |before| && Names(sha1, before[i], name) :: before[i].revision <= last.revision
    ensures Best(sha1, before + [last], name, EntryOf(last, ParseSharedRealm(sha1, last).value.1))
  {
    var items := before + [last];
    assert items[|before|] == last;
  }

  lemma BestRef(sha1: Sha1, items: seq<Item>, name: string, e: Entry)
    requires Best(sha1, items, name, e)
    ensures RealmRef(sha1, name) == Some(e.ref)
  {
    var i :| 0 <= i < |items| && Names(sha1, items[i], name)
        && e == EntryOf(items[i], ParseSharedRealm(sha1, items[i]).value.1);
    RealmForcesRef(sha1, items[i]);
  }

  ghost predicate SomeoneNames(sha1: Sha1, items: seq<Item>, name: string) {
    exists i :: 0 <= i < |items| && Names(sha1, items[i], name)
  }

  lemma SomeoneNamesExtends(sha1: Sha1, before: seq<Item>, last: Item, name: string)
    ensures SomeoneNames(sha1, before + [last], name) <==> SomeoneNames(sha1, before, name) || Names(sha1, last, name)
  {
    var items := before + [last];
    assert items[|before|] == last;
    if i :| 0 <= i < |before| && Names(sha1, before[i], name) {
      assert Names(sha1, items[i], name);
    }
  }

  /** Adding never compares refs to any effect: within a realm they are all equal. */
  lemma AddedKeepsBest(sha1: Sha1, before: seq<Item>, realms: Realms, last: Item, name: string)
    requires name in realms <==> SomeoneNames(sha1, before, name)
    requires name in realms ==> Best(sha1, before, name, realms[name])
    ensures name in Added(sha1, realms, last) <==> SomeoneNames(sha1, before + [last], name)
    ensures name in Added(sha1, realms, last) ==> Best(sha1, before + [last], name, Added(sha1, realms, last)[name])
  {
    SomeoneNamesExtends(sha1, before, last, name);
    if Names(sha1, last, name) {
      RealmForcesRef(sha1, last);
      Order.LessTrichotomy(last.Ref(), last.Ref());
      if name in realms {
        BestRef(sha1, before, name, realms[name]);
        if realms[name].revision >= last.revision {
          BestExtends(sha1, before, last, name, realms[name]);
        } else {
          BestStarts(sha1, before, last, name);
        }
      } else {
        BestStarts(sha1, before, last, name);
      }
    } else if name in realms {
      BestExtends(sha1, before, last, name, realms[name]);
    }
  }

  lemma {:induction false} AddedAllIsBest(sha1: Sha1, items: seq<Item>, name: string)
    ensures name in AddedAll(sha1, items) <==> SomeoneNames(sha1, items, name)
    ensures name in AddedAll(sha1, items) ==> Best(sha1, items, name, AddedAll(sha1, items)[name])
  {
    if items != [] {
      var before, last := items[..|items| - 1], items[|items| - 1];
      AddedAllIsBest(sha1, before, name);
      AddedKeepsBest(sha1, before, AddedAll(sha1, before), last, name);
      assert before + [last] == items;
    }
  }

  /** A realm's entry names the owner that the realm's own name starts with, and the realm's address. */
  lemma EntriesNameTheirOwner(sha1: Sha1, items: seq<Item>, name: string)
    requires name in AddedAll(sha1, items)
    ensures var e := AddedAll(sha1, items)[name];
            && SplitRealmOwner(name) == Some(e.owner) && RealmRef(sha1, name) == Some(e.ref)
  {
    AddedAllIsBest(sha1, items, name);
    var e := AddedAll(sha1, items)[name];
    var i :| 0 <= i < |items| && Names(sha1, items[i], name)
        && e == EntryOf(items[i], ParseSharedRealm(sha1, items[i]).value.1);
    RealmForcesRef(sha1, items[i]);
  }

  /** (realm, revision) determines the member list. */
  ghost predicate Consistent(sha1: Sha1, items: seq<Item>) {
    forall i, j | 0 <= i < |items| && 0 <= j < |items| && ParseSharedRealm(sha1, items[i]).Some?
        && ParseSharedRealm(sha1, items[j]).Some? ::
      ParseSharedRealm(sha1, items[i]).value.0 == ParseSharedRealm(sha1, items[j]).value.0
          && items[i].revision == items[j].revision
      ==> ParseSharedRealm(sha1, items[i]).value.1 == ParseSharedRealm(sha1, items[j]).value.1
  }

  lemma BestIsUnique(sha1: Sha1, p: seq<Item>, q: seq<Item>, name: string, a: Entry, b: Entry)
    requires Consistent(sha1, p) && (forall x :: x in p <==> x in q)
    requires Best(sha1, p, name, a) && Best(sha1, q, name, b)
    ensures a == b
  {
    var i :| 0 <= i < |p| && Names(sha1, p[i], name) && a == EntryOf(p[i], ParseSharedRealm(sha1, p[i]).value.1);
    var j :| 0 <= j < |q| && Names(sha1, q[j], name) && b == EntryOf(q[j], ParseSharedRealm(sha1, q[j]).value.1);
    assert p[i] in q && q[j] in p;
    var i' :| 0 <= i' < |q| && q[i'] == p[i];
    var j' :| 0 <= j' < |p| && p[j'] == q[j];
    assert Names(sha1, q[i'], name) && Names(sha1, p[j'], name);
    assert a.revision == b.revision;
    RealmForcesRef(sha1, p[i]);
    RealmForcesRef(sha1, p[j']);
  }

  /** Items may be ingested in any order, and any number of times each: the realm table is the same. */
  lemma OrderIndependent(sha1: Sha1, p: seq<Item>, q: seq<Item>)
    requires Consistent(sha1, p) && (forall x :: x in p <==> x in q)
    ensures AddedAll(sha1, p) == AddedAll(sha1, q)
  {
    forall name
      ensures name in AddedAll(sha1, p) <==> name in AddedAll(sha1, q)
      ensures name in AddedAll(sha1, p) ==> AddedAll(sha1, p)[name] == AddedAll(sha1, q)[name]
    {
      AddedAllIsBest(sha1, p, name);
      AddedAllIsBest(sha1, q, name);
      SameNames(sha1, p, q, name);
      SameNames(sha1, q, p, name);
      if name in AddedAll(sha1, p) {
        BestIsUnique(sha1, p, q, name, AddedAll(sha1, p)[name], AddedAll(sha1, q)[name]);
      }
    }
  }

  lemma SameNames(sha1: Sha1, p: seq<Item>, q: seq<Item>, name: string)
    requires forall x :: x in p <==> x in q
    ensures SomeoneNames(sha1, p, name) ==> SomeoneNames(sha1, q, name)
  {
    if i :| 0 <= i < |p| && Names(sha1, p[i], name) {
      assert p[i] in q;
      var j :| 0 <= j < |q| && q[j] == p[i];
      assert Names(sha1, q[j], name);
    }
  }

  // ---- The two-way index ----

  predicate Listed(byPK: ByMember, pk: string, r: string) {
    pk in byPK && r in byPK[pk]
  }

  predicate Grants(realms: Realms, pk: string, r: string) {
    r in realms && pk in realms[r].members
  }

  /** r is in byPK[m] exactly when m is a listed member of r, and no empty set remains. */
  ghost predicate TwoWay(realms: Realms, byPK: ByMember) {
    && (forall pk, r :: Listed(byPK, pk, r) <==> Grants(realms, pk, r))
    && (forall pk | pk in byPK :: byPK[pk] != {})
  }

  /** So the index holds nothing the realm table does not determine. */
  lemma TwoWayIsDetermined(realms: Realms, a: ByMember, b: ByMember)
    requires TwoWay(realms, a) && TwoWay(realms, b)
    ensures a == b
  {
    forall pk ensures pk in a <==> pk in b {
      if pk in a {
        var r :| r in a[pk];
        assert Listed(a, pk, r) && Listed(b, pk, r);
      }
      if pk in b {
        var r :| r in b[pk];
        assert Listed(b, pk, r) && Listed(a, pk, r);
      }
    }
    forall pk | pk in a ensures a[pk] == b[pk] {
      forall r ensures r in a[pk] <==> r in b[pk] {
        assert Listed(a, pk, r) <==> Grants(realms, pk, r);
        assert Listed(b, pk, r) <==> Grants(realms, pk, r);
      }
    }
  }

  /** The graph's membership tables, edited in place. */
  class GraphSharedRealms {
    const sha1: Sha1
    var realms: Realms
    var byPK: ByMember

    ghost predicate Valid() reads this {
      TwoWay(realms, byPK)
    }

    constructor (sha1: Sha1)
      ensures Valid() && realms == map[] && this.sha1 == sha1
    {
      this.sha1 := sha1;
      realms, byPK := map[], map[];
    }

    /** Takes name out of the sets of its members, deleting sets that become empty. */
    method Unlist(name: string)
      requires Valid() && name in realms
      modifies this`byPK
      ensures TwoWay(realms - {name}, byPK)
    {
      var members := realms[name].members;
      for i := 0 to |members|
        invariant forall pk, r :: Listed(byPK, pk, r) <==> Grants(realms, pk, r) && !(r == name && pk in members[..i])
        invariant forall pk | pk in byPK :: byPK[pk] != {}
      {
        var m := members[i];
        ghost var was := byPK;
        if m in byPK {
          var rest := byPK[m] - {name};
          byPK := if rest == {} then byPK - {m} else byPK[m := rest];
          assert forall r :: r in was[m] && r != name ==> r in rest;
        }
        assert forall pk, r :: Listed(byPK, pk, r) <==> Listed(was, pk, r) && !(r == name && pk == m);
        assert members[..i + 1] == members[..i] + [m];
      }
    }

    method Add(item: Item)
      requires Valid()
      modifies this
      ensures Valid() && realms == Added(sha1, old(realms), item)
    {
      var parsed := ParseSharedRealm(sha1, item);
      if parsed.None? { return; }
      var (name, members) := parsed.value;
      if name in realms {
        var existing := realms[name];
        if existing.revision > item.revision { return; }
        if existing.revision == item.revision && !Order.Less(existing.ref, item.Ref()) { return; }
        Unlist(name);
      }
      List(name, EntryOf(item, members));
    }

    /** Stores the entry and adds name to the set of each of its members. */
    method List(name: string, e: Entry)
      requires TwoWay(realms - {name}, byPK)
      modifies this
      ensures Valid() && realms == old(realms)[name := e]
    {
      realms := realms[name := e];
      assert forall pk, r :: Grants(old(realms) - {name}, pk, r) <==> r != name && Grants(realms, pk, r);
      for i := 0 to |e.members|
        invariant realms == old(realms)[name := e]
        invariant forall pk, r :: Listed(byPK, pk, r) <==>
                    (r != name && Grants(realms, pk, r)) || (r == name && pk in e.members[..i])
        invariant forall pk | pk in byPK :: byPK[pk] != {}
      {
        var m := e.members[i];
        ghost var was := byPK;
        byPK := byPK[m := (if m in byPK then byPK[m] else {}) + {name}];
        assert forall pk, r :: Listed(byPK, pk, r) <==> Listed(was, pk, r) || (r == name && pk == m);
        assert e.members[..i + 1] == e.members[..i] + [m];
      }
    }

    /** Drops the realm whose authoritative object is ref; the source stops at the first it meets. */
    method Remove(ref: string)
      requires Valid()
      modifies this
      ensures Valid()
      ensures (forall r | r in old(realms) :: old(realms)[r].ref != ref) ==> realms == old(realms)
      ensures (exists r :: r in old(realms) && old(realms)[r].ref == ref) ==>
              exists r :: r in old(realms) && old(realms)[r].ref == ref && realms == old(realms) - {r}
    {
      var todo := realms.Keys;
      while todo != {}
        invariant realms == old(realms) && byPK == old(byPK) && todo <= realms.Keys
        invariant forall r | r in realms && r !in todo :: realms[r].ref != ref
        decreases todo
      {
        var name :| name in todo;
        if realms[name].ref == ref {
          Unlist(name);
          realms := realms - {name};
          return;
        }
        todo := todo - {name};
      }
    }

    method Load(items: seq<Item>)
      modifies this
      ensures Valid() && realms == AddedAll(sha1, items)
    {
      realms, byPK := map[], map[];
      for i := 0 to |items|
        invariant Valid() && realms == AddedAll(sha1, items[..i])
      {
        assert items[..i + 1][..i] == items[..i];
        Add(items[i]);
      }
      assert items[..|items|] == items;
    }

    method IsMember(name: string, pubkey: string) returns (yes: bool)
      ensures yes <==> pubkey != "" && Grants(realms, pubkey, name)
    {
      if pubkey == "" || name !in realms { return false; }
      var members := realms[name].members;
      for i := 0 to |members|
        invariant pubkey !in members[..i]
      {
        if members[i] == pubkey { return true; }
      }
      return false;
    }

    /** Read off the reverse index; the listing answers exactly what IsMember does. */
    method RealmsForPubkey(pubkey: string) returns (result: seq<string>)
      requires Valid()
      ensures NoDuplicates(result)
      ensures forall r :: r in result <==> pubkey != "" && Grants(realms, pubkey, r)
    {
      result := [];
      assert forall r :: Listed(byPK, pubkey, r) <==> Grants(realms, pubkey, r);
      if pubkey == "" || pubkey !in byPK { return; }
      var todo := byPK[pubkey];
      while todo != {}
        invariant NoDuplicates(result) && todo <= byPK[pubkey]
        invariant forall r :: r in result <==> r in byPK[pubkey] - todo
        decreases todo
      {
        var name :| name in todo;
        assert name !in result;
        result := result + [name];
        todo := todo - {name};
      }
    }
  }
}
