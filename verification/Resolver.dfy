/** Realm policy and the merged view of graph and configured realms
    (realm/realm.go, realm/shared.go, realm/resolver.go). */
module Resolver {
  import opened Decimal
  import opened Objects
  import opened RealmAddress
  import opened RealmGraph

  /** What a resolver knows: the members of every realm, by source; None is a nil source. */
  datatype Membership = Membership(graph: Option<Realms>, toml: Option<map<string, seq<string>>>) {
    predicate IsSharedRealm(name: string) {
      (toml.Some? && name in toml.value) || (graph.Some? && name in graph.value)
    }

    predicate IsMember(name: string, pubkey: string) {
      pubkey != "" && ((toml.Some? && name in toml.value && pubkey in toml.value[name])
                       || (graph.Some? && Grants(graph.value, pubkey, name)))
    }
  }

  // ---- Policy ----

  predicate IsPublicRead(realms: seq<string>) {
    GLOBAL_REALM in realms || SERVER_PUBLIC in realms
  }

  /** A nil resolver is None. */
  predicate CanRead(realms: seq<string>, authPubkey: string, resolver: Option<Membership>) {
    || IsPublicRead(realms)
    || (authPubkey != "" && authPubkey in realms)
    || (authPubkey != "" && resolver.Some? && exists i :: 0 <= i < |realms|
                                               && resolver.value.IsMember(realms[i], authPubkey))
  }

  /** A GET's check before the object is read: a ref without an index entry passes. */
  predicate LetsPass(indexed: Option<Meta>, authPubkey: string, resolver: Option<Membership>) {
    indexed.None? || CanRead(indexed.value.realms, authPubkey, resolver)
  }

  predicate ValidateRealmsForPut(realms: seq<string>, signer: string, resolver: Option<Membership>) {
    exists i :: 0 <= i < |realms| && (
      || realms[i] == GLOBAL_REALM || realms[i] == SERVER_PUBLIC
      || (IsPubkeyRealm(realms[i]) && realms[i] == signer)
      || (resolver.Some? && resolver.value.IsSharedRealm(realms[i])))
  }

  /** A shared-realm object always passes the PUT policy, whatever the resolver: no bootstrap is needed. */
  lemma SharedRealmObjectsMayBePut(sha1: Sha1, item: Item, resolver: Option<Membership>)
    requires ParseSharedRealm(sha1, item).Some?
    ensures ValidateRealmsForPut(item.realms, item.pubkey, resolver) && CanRead(item.realms, "", resolver)
  {
    var i :| 0 <= i < |item.realms| && item.realms[i] == GLOBAL_REALM;
  }

  /** Who may read: everyone, when a public realm is listed; else the known reader whose own key is
      listed, or who is a member of a listed realm. Nobody else. */
  lemma ReadersExactly(realms: seq<string>, pk: string, resolver: Option<Membership>)
    ensures CanRead(realms, pk, resolver) <==>
            || "dataverse001" in realms || "server-public" in realms
            || (pk != "" && pk in realms)
            || (pk != "" && resolver.Some? && exists r :: r in realms && resolver.value.IsMember(r, pk))
    ensures IsPublicRead(realms) <==> CanRead(realms, "", resolver)
  {
    if resolver.Some? {
      if r :| r in realms && resolver.value.IsMember(r, pk) {
        var i :| 0 <= i < |realms| && realms[i] == r;
        assert resolver.value.IsMember(realms[i], pk);
      }
    }
  }

  /** Whom a resolver counts as members: the keys a configured realm lists, and those the realm's own
      object grants; nobody is anonymously a member. */
  lemma MembersExactly(m: Membership, name: string, pk: string)
    ensures m.IsMember(name, pk) <==>
            && pk != ""
            && (|| (m.toml.Some? && name in m.toml.value && pk in m.toml.value[name])
                || (m.graph.Some? && name in m.graph.value && pk in m.graph.value[name].members))
    ensures m.IsMember(name, pk) ==> m.IsSharedRealm(name)
    ensures m.IsSharedRealm(name) <==> name in KnownNames(m)
  {
  }

  /** Not public, not the signer's own key, not a known shared realm. */
  predicate Foreign(r: string, signer: string, resolver: Option<Membership>) {
    && r != "dataverse001" && r != "server-public"
    && !(r == signer && IsPubkeyRealm(signer))
    && !(resolver.Some? && resolver.value.IsSharedRealm(r))
  }

  /** From the realm's own object to its members' eyes: once it is ingested, and no higher revision of
      it was, everyone it names may read what is in the realm. */
  lemma GrantOpensTheRealm(sha1: Sha1, items: seq<Item>, item: Item, pk: string, rest: string, realms: seq<string>)
    requires ParseSharedRealm(sha1, item).Some? && item in items && Consistent(sha1, items)
    requires forall other | other in items && Names(sha1, other, item.content.realm) ::
               other.revision <= item.revision
    requires IsPubkeyRealm(pk) && "member" in item.relations && Some(pk + "." + rest) in item.relations["member"]
    requires item.content.realm in realms
    ensures CanRead(realms, pk, Some(Membership(Some(AddedAll(sha1, items)), None)))
  {
    var name := item.content.realm;
    var m := Membership(Some(AddedAll(sha1, items)), None);
    WellFormedExactly(sha1, item);
    GrantsExactly(Some(pk + "." + rest), pk);
    var k :| 0 <= k < |items| && items[k] == item;
    assert Names(sha1, items[k], name);
    AddedAllIsBest(sha1, items, name);
    BestIsUnique(sha1, items, items, name, AddedAll(sha1, items)[name],
                 EntryOf(item, ParseSharedRealm(sha1, item).value.1));
    assert m.IsMember(name, pk);
    ReadersExactly(realms, pk, Some(m));
  }

  /** A PUT is refused exactly when every realm it names is foreign. So naming no realm is refused,
      and what is accepted without being public is the signer's to read or in a shared realm. */
  lemma PutIsRefusedExactly(realms: seq<string>, signer: string, resolver: Option<Membership>)
    ensures !ValidateRealmsForPut(realms, signer, resolver) <==> forall r | r in realms :: Foreign(r, signer, resolver)
    ensures ValidateRealmsForPut(realms, signer, resolver) && !IsPublicRead(realms) ==>
            || CanRead(realms, signer, resolver)
            || (resolver.Some? && exists r :: r in realms && resolver.value.IsSharedRealm(r))
    ensures !ValidateRealmsForPut([], signer, resolver)
  {
    assert forall i | 0 <= i < |realms| :: realms[i] in realms;
    if r :| r in realms && !Foreign(r, signer, resolver) {
      var i :| 0 <= i < |realms| && realms[i] == r;
      assert ValidateRealmsForPut(realms, signer, resolver);
    }
  }

  /** Reading only widens: a larger membership, or a known reader instead of an anonymous one, loses nothing. */
  lemma CanReadIsMonotone(realms: seq<string>, pk: string, small: Membership, large: Membership)
    requires forall name, p | small.IsMember(name, p) :: large.IsMember(name, p)
    ensures CanRead(realms, pk, Some(small)) ==> CanRead(realms, pk, Some(large))
    ensures CanRead(realms, "", None) ==> CanRead(realms, pk, None)
    ensures CanRead(realms, pk, None) ==> CanRead(realms, pk, Some(small))
  {
  }

  // ---- The configured half ----

  class SharedRealms {
    var realms: map<string, seq<string>>

    constructor ()
      ensures realms == map[]
    {
      realms := map[];
    }

    method Load(realms: map<string, seq<string>>)
      modifies this
      ensures this.realms == realms
    {
      this.realms := realms;
    }

    method RealmsForPubkey(pubkey: string) returns (result: seq<string>)
      ensures NoDuplicates(result)
      ensures forall r :: r in result <==> pubkey != "" && r in realms && pubkey in realms[r]
    {
      result := [];
      if pubkey == "" { return; }
      var todo := realms.Keys;
      while todo != {}
        invariant NoDuplicates(result) && todo <= realms.Keys
        invariant forall r :: r in result <==> r in realms && r !in todo && pubkey in realms[r]
        decreases todo
      {
        var name :| name in todo;
        assert name !in result;
        if pubkey in realms[name] {
          result := result + [name];
        }
        todo := todo - {name};
      }
    }
  }

  // ---- The union ----

  function KnownNames(m: Membership): set<string> {
    (if m.toml.Some? then m.toml.value.Keys else {}) + (if m.graph.Some? then m.graph.value.Keys else {})
  }

  class Merged {
    const graph: GraphSharedRealms?
    const toml: SharedRealms?

    ghost predicate Valid() reads this, graph {
      graph != null ==> graph.Valid()
    }

    ghost function View(): Membership reads this, graph, toml {
      Membership(if graph != null then Some(graph.realms) else None, if toml != null then Some(toml.realms) else None)
    }

    constructor (graph: GraphSharedRealms?, toml: SharedRealms?)
      ensures this.graph == graph && this.toml == toml
    {
      this.graph, this.toml := graph, toml;
    }

    method IsMember(name: string, pubkey: string) returns (yes: bool)
      ensures yes == View().IsMember(name, pubkey)
    {
      yes := toml != null && pubkey != "" && name in toml.realms && pubkey in toml.realms[name];
      if !yes && graph != null {
        yes := graph.IsMember(name, pubkey);
      }
    }

    /** Appends the names not seen before, as the two loops of the source do. */
    static method Union(seen: seq<string>, more: seq<string>) returns (result: seq<string>)
      requires NoDuplicates(seen)
      ensures NoDuplicates(result)
      ensures forall r :: r in result <==> r in seen || r in more
    {
      result := seen;
      for i := 0 to |more|
        invariant NoDuplicates(result)
        invariant forall r :: r in result <==> r in seen || r in more[..i]
      {
        assert more[..i + 1] == more[..i] + [more[i]];
        if more[i] !in result {
          result := result + [more[i]];
        }
      }
    }

    /** The listing is duplicate-free and agrees with IsMember on every realm, nil halves included. */
    method RealmsForPubkey(pubkey: string) returns (result: seq<string>)
      requires Valid()
      ensures NoDuplicates(result)
      ensures forall r :: r in result <==> View().IsMember(r, pubkey)
    {
      result := [];
      if toml != null {
        var fromToml := toml.RealmsForPubkey(pubkey);
        result := Union(result, fromToml);
      }
      if graph != null {
        var fromGraph := graph.RealmsForPubkey(pubkey);
        result := Union(result, fromGraph);
      }
    }

    /** One of Count's two loops: the keys join the set of names seen. */
    static method Collect(seen: set<string>, keys: set<string>) returns (result: set<string>)
      ensures result == seen + keys
    {
      result := seen;
      var todo := keys;
      while todo != {}
        invariant todo <= keys && result == seen + (keys - todo)
        decreases todo
      {
        var r :| r in todo;
        result, todo := result + {r}, todo - {r};
      }
    }

    /** Each known realm counts once, however many sources know it; and the known ones are exactly
        those that IsSharedRealm answers yes for. */
    method Count() returns (n: nat)
      ensures n == |KnownNames(View())|
      ensures forall name :: name in KnownNames(View()) <==> View().IsSharedRealm(name)
    {
      if graph == null {
        if toml == null { return 0; }
        assert KnownNames(View()) == toml.realms.Keys;
        return |toml.realms|;
      }
      if toml == null {
        assert KnownNames(View()) == graph.realms.Keys;
        return |graph.realms|;
      }
      var seen := Collect({}, toml.realms.Keys);
      seen := Collect(seen, graph.realms.Keys);
      assert seen == KnownNames(View());
      return |seen|;
    }
  }
}
