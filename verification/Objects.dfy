/** Signed objects as the hub sees them after parsing (object/types.go, object/conflict.go). */
module Objects {
  import opened Decimal

  const GLOBAL_REALM := "dataverse001"
  const SERVER_PUBLIC := "server-public"

  /** item.content: absent, present but not decodable as an object, or the fields the hub reads. */
  datatype Content = NoContent | Undecodable(raw: nat) | Fields(html: string, mimeType: string, realm: string,
      other: nat)

  /** The signed item. A relation entry is None when it does not decode, else the ref it names. */
  datatype Item = Item(
    pubkey: string,
    id: string,
    kind: string,
    revision: int,
    realms: seq<string>,
    timestamp: Option<int>,
    relations: map<string, seq<Option<string>>>,
    content: Content
  ) {
    function Ref(): string {
      pubkey + "." + id
    }
  }

  /** The bytes of an envelope: the item, the legacy realm list, and everything else that
      distinguishes one serialisation from another. `verified` is VerifyEnvelope's verdict. */
  datatype Body = Body(item: Item, envelopeRealms: seq<string>, signature: nat, verified: bool) {
    function Ref(): string {
      item.Ref()
    }

    /** ResolveIn: the item's own realm list wins, the envelope's is the fallback. */
    function Realms(): seq<string> {
      if |item.realms| > 0 then item.realms else envelopeRealms
    }

    /** What the index keeps of the object. */
    function AsMeta(): Meta {
      Meta(item, Realms())
    }

    predicate IsGlobal() {
      GLOBAL_REALM in Realms()
    }
  }

  /** An index entry: the item and the realms that decide who may read it. */
  datatype Meta = Meta(item: Item, realms: seq<string>)

  /** SameItem: equality of canonical items; signatures and transport metadata do not count. */
  predicate SameItem(a: Body, b: Body) {
    a.item == b.item
  }
}
