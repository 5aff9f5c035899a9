/** What one write does to one object, whichever of the four locked write paths it takes:
    the hub's PUT (serving/handlers.go), and the proxy's private PUT, offline PUT and
    CacheLocally (serving/proxy.go), over the store's files (storage/store.go). */
module WritePath {
  import opened Decimal
  import opened Objects
  import Precondition

  /** The four code paths that read, check and write under a ref's lock. */
  datatype Kind =
    | HubPut(ifMatch: string)
    | PrivatePut(ifMatch: string)
    | OfflinePut(ifMatch: string)
    | CacheIn

  datatype Request = Request(kind: Kind, body: Body) {
    function Key(): string {
      body.Ref()
    }

    /** The hub refuses an unreadable timestamp before it takes the lock. */
    predicate Admissible() {
      kind.HubPut? ==> body.item.timestamp.Some?
    }
  }

  /** Store.Write: success, failure with the old file in place, or failure to set the
      modification time after the new file was renamed into place. */
  datatype WriteIo = Written | NotWritten | WrittenThenFailed

  /** How the file operations of one call turn out. */
  datatype Io = Io(read: bool, archive: bool, backup: bool, queue: bool, write: WriteIo)

  const SMOOTH := Io(true, true, true, true, Written)

  datatype Response =
    | Committed
    | Refused412
    | Refused409
    | Refused400
    | IoError
    | LocalNewer(push: Option<Body>)  // CacheLocally keeps the local copy and pushes it upstream
    | AlreadySame
    | Unverified
    | ConflictKept                    // both edits retained: one live, one archived

  /** Everything the node keeps for one ref: the index entry, the live file, the backups by revision. */
  datatype Cell = Cell(meta: Option<Meta>, live: Option<Body>, bk: map<int, Body>) {
    function Revision(): Option<int> {
      if meta.Some? then Some(meta.value.item.revision) else None
    }
  }

  const NOTHING := Cell(None, None, map[])

  datatype Decision = Answer(response: Response) | Archive | Store

  /** The check, made on the indexed revision and, for equal revisions, on the live bytes. */
  function Decide(c: Cell, req: Request, read: bool): Decision {
    var revision := req.body.item.revision;
    match req.kind
    case CacheIn =>
      if c.meta.None? || c.meta.value.item.revision < revision then Store
      else if c.meta.value.item.revision > revision then Answer(LocalNewer(if read then c.live else None))
      else if !read || c.live.None? then Answer(IoError)
      else if SameItem(c.live.value, req.body) then Answer(AlreadySame)
      else if !req.body.verified then Answer(Unverified)
      else Archive
    case _ =>
      match Precondition.CheckConditionalWrite(req.kind.ifMatch, c.Revision(), revision)
      case PreconditionFailed => Answer(Refused412)
      case Conflict => Answer(Refused409)
      case Proceed =>
        if !req.kind.HubPut? && req.body.item.timestamp.None? then Answer(Refused400) else Store
  }

  /** Backup renames the live file to the slot of the indexed revision. */
  function Backed(c: Cell, ok: bool, backups: bool): Cell {
    if c.meta.Some? && backups && c.live.Some? && ok
    then c.(live := None, bk := c.bk[c.meta.value.item.revision := c.live.value])
    else c
  }

  /** Only CacheLocally gives up when the rename fails; the PUT paths log it and go on. */
  predicate BackupAborts(c: Cell, req: Request, ok: bool, backups: bool) {
    req.kind.CacheIn? && c.meta.Some? && backups && c.live.Some? && !ok
  }

  /** One whole locked section, as a function of the cell it finds. */
  function Section(c: Cell, req: Request, io: Io, backups: bool): (Cell, Response) {
    match Decide(c, req, io.read)
    case Answer(r) => (c, r)
    case Archive => (c, if io.archive then ConflictKept else IoError)
    case Store =>
      var b := Backed(c, io.backup, backups);
      if BackupAborts(c, req, io.backup, backups) || (req.kind.OfflinePut? && !io.queue) then (b, IoError)
      else match io.write
        case Written => (Cell(Some(req.body.AsMeta()), Some(req.body), b.bk), Committed)
        case NotWritten => (b, IoError)
        case WrittenThenFailed => (b.(live := Some(req.body)), IoError)
  }

  // ---- The node's volume, written in place ----

  /** The node's index and directories. `pending` and `conflicts` exist on a proxy only. */
  class Volume {
    const backups: bool
    var index: map<string, Meta>
    var live: map<string, Body>
    var bk: map<string, map<int, Body>>
    var pending: map<string, Body>
    var conflicts: set<Body>

    ghost function CellOf(ref: string): Cell
      reads this`index, this`live, this`bk
    {
      Cell(if ref in index then Some(index[ref]) else None,
           if ref in live then Some(live[ref]) else None,
           if ref in bk then bk[ref] else map[])
    }

    constructor (backups: bool)
      ensures this.backups == backups && pending == map[] && conflicts == {}
      ensures forall ref :: CellOf(ref) == NOTHING
    {
      this.backups := backups;
      index, live, bk, pending, conflicts := map[], map[], map[], map[], {};
    }

    method Backup(ref: string, revision: int, ok: bool) returns (success: bool)
      modifies this`live, this`bk
      ensures success == (ok || !backups || ref !in old(live))
      ensures !backups || ref !in old(live) || !ok ==> live == old(live) && bk == old(bk)
      ensures backups && ref in old(live) && ok ==>
              && live == old(live) - {ref}
              && CellOf(ref).bk == old(CellOf(ref).bk)[revision := old(live)[ref]]
              && forall r | r != ref :: CellOf(r).bk == old(CellOf(r).bk)
    {
      if !backups { return true; }
      if ref !in live { return true; }
      if !ok { return false; }
      bk := bk[ref := (if ref in bk then bk[ref] else map[])[revision := live[ref]]];
      live := live - {ref};
      return true;
    }

    method Write(ref: string, body: Body, outcome: WriteIo) returns (success: bool)
      modifies this`live
      ensures success <==> outcome == Written
      ensures live == if outcome == NotWritten then old(live) else old(live)[ref := body]
    {
      if outcome == NotWritten { return false; }
      live := live[ref := body];
      return outcome == Written;
    }

    /** checkConditionalWrite and, on the proxy, the timestamp check that follows it. */
    method Refusal(req: Request) returns (r: Option<Response>)
      requires !req.kind.CacheIn?
      ensures Decide(CellOf(req.Key()), req, true) == if r.Some? then Answer(r.value) else Store
    {
      var item := req.body.item;
      var stored := if req.Key() in index then Some(index[req.Key()].item.revision) else None;
      match Precondition.CheckConditionalWrite(req.kind.ifMatch, stored, item.revision) {
        case PreconditionFailed => return Some(Refused412);
        case Conflict => return Some(Refused409);
        case Proceed =>
      }
      return if !req.kind.HubPut? && item.timestamp.None? then Some(Refused400) else None;
    }

    /** The PUT paths' backup, whose failure is only logged. */
    method BackUpExisting(ref: string, ok: bool)
      modifies this`live, this`bk
      ensures CellOf(ref) == Backed(old(CellOf(ref)), ok, backups)
      ensures forall k | k != ref :: CellOf(k) == old(CellOf(k))
    {
      if ref in index {
        var _ := Backup(ref, index[ref].item.revision, ok);
      }
    }

    /** The section of the three PUT paths: the hub's, the proxy's private one, and the offline one. */
    method Put(req: Request, io: Io) returns (r: Response)
      requires !req.kind.CacheIn?
      modifies this
      ensures (CellOf(req.Key()), r) == Section(old(CellOf(req.Key())), req, io, backups)
      ensures forall k | k != req.Key() :: CellOf(k) == old(CellOf(k))
      ensures conflicts == old(conflicts)
      ensures pending == if req.kind.OfflinePut? && io.queue && Decide(old(CellOf(req.Key())), req, true) == Store
                         then old(pending)[req.Key() := req.body] else old(pending)
    {
      var ref := req.Key();
      var refusal := Refusal(req);
      if refusal.Some? { return refusal.value; }
      assert Decide(CellOf(ref), req, io.read) == Store;
      BackUpExisting(ref, io.backup);
      if req.kind.OfflinePut? {
        if !io.queue { return IoError; }
        pending := pending[ref := req.body];
      }
      r := WriteAndIndex(req.body, io.write);
    }

    /** The end of every write path: the store, then the index. */
    method WriteAndIndex(body: Body, outcome: WriteIo) returns (r: Response)
      modifies this`live, this`index
      ensures var c := old(CellOf(body.Ref()));
              && CellOf(body.Ref()) == Cell(if outcome.Written? then Some(body.AsMeta()) else c.meta,
                                            if outcome.NotWritten? then c.live else Some(body), c.bk)
              && r == if outcome.Written? then Committed else IoError
      ensures forall k | k != body.Ref() :: CellOf(k) == old(CellOf(k))
    {
      var written := Write(body.Ref(), body, outcome);
      if !written { return IoError; }
      index := index[body.Ref() := body.AsMeta()];
      return Committed;
    }

    method CacheLocally(body: Body, io: Io) returns (r: Response)
      modifies this
      ensures (CellOf(body.Ref()), r) == Section(old(CellOf(body.Ref())), Request(CacheIn, body), io, backups)
      ensures forall k | k != body.Ref() :: CellOf(k) == old(CellOf(k))
      ensures pending == old(pending)
      ensures conflicts == if r == ConflictKept then old(conflicts) + {body} else old(conflicts)
      ensures || r == IoError || r == Unverified || body in conflicts
              || (body.Ref() in index && index[body.Ref()].item.revision > body.item.revision)
              || (body.Ref() in live && live[body.Ref()].item == body.item)
    {
      var ref, item := body.Ref(), body.item;
      FillKeepsTheEdit(CellOf(ref), body, io, backups);
      if ref in index {
        var existing := index[ref].item;
        if existing.revision > item.revision {
          return LocalNewer(if io.read && ref in live then Some(live[ref]) else None);
        }
        if existing.revision == item.revision {
          if !io.read || ref !in live { return IoError; }
          if SameItem(live[ref], body) { return AlreadySame; }
          if !body.verified { return Unverified; }
          if !io.archive { return IoError; }
          conflicts := conflicts + {body};
          return ConflictKept;
        }
        var backedUp := Backup(ref, existing.revision, io.backup);
        if !backedUp { return IoError; }
      }
      r := WriteAndIndex(body, io.write);
    }
  }

  // ---- What every section keeps ----

  /** The volume is intact for a ref: the indexed object is live, or moved to its own backup
      slot, and every slot holds an object of the slot's revision, no newer than the index. */
  predicate Intact(c: Cell) {
    && (c.meta.None? ==> c.live.None?)
    && (c.meta.Some? && c.live.Some? ==> c.live.value.AsMeta() == c.meta.value && c.meta.value.item.revision !in c.bk)
    && (c.meta.Some? && c.live.None? ==>
          c.meta.value.item.revision in c.bk && c.bk[c.meta.value.item.revision].AsMeta() == c.meta.value)
    && (forall r | r in c.bk :: c.bk[r].item.revision == r && c.meta.Some? && r <= c.meta.value.item.revision)
  }

  /** The section reaches Store.Write and the write fails after its rename. */
  predicate FailsAfterRename(c: Cell, req: Request, io: Io, backups: bool) {
    && Decide(c, req, io.read) == Store
    && !BackupAborts(c, req, io.backup, backups)
    && (req.kind.OfflinePut? ==> io.queue)
    && io.write == WrittenThenFailed
  }

  lemma StoreMeansNewer(c: Cell, req: Request, read: bool)
    requires Decide(c, req, read) == Store && c.meta.Some?
    ensures c.meta.value.item.revision < req.body.item.revision
  {
  }

  lemma CommittedSection(c: Cell, req: Request, io: Io, backups: bool)
    requires Section(c, req, io, backups).1 == Committed
    ensures var c' := Section(c, req, io, backups).0;
            && Decide(c, req, io.read) == Store
            && c'.meta == Some(req.body.AsMeta()) && c'.live == Some(req.body)
            && (c.meta.Some? ==> c.meta.value.item.revision < req.body.item.revision)
  {
  }

  /** What a cache fill answers, case by case. A different edit of the indexed revision is verified and
      then archived, never dropped and never taken for the same. */
  lemma FillAnswers(c: Cell, b: Body, io: Io, backups: bool)
    ensures var (c', r) := Section(c, Request(CacheIn, b), io, backups);
            var newer := c.meta.None? || c.meta.value.item.revision < b.item.revision;
            var same := c.meta.Some? && c.meta.value.item.revision == b.item.revision && io.read && c.live.Some?;
            && (r.LocalNewer? <==> c.meta.Some? && c.meta.value.item.revision > b.item.revision)
            && (r.LocalNewer? ==> r.push == if io.read then c.live else None)
            && (r == AlreadySame <==> same && c.live.value.item == b.item)
            && (r == Unverified <==> same && c.live.value.item != b.item && !b.verified)
            && (r == ConflictKept <==> same && c.live.value.item != b.item && b.verified && io.archive)
            && (r == Committed <==> newer && io.write.Written?
                                    && (c.meta.Some? && c.live.Some? && backups ==> io.backup))
            && (!r.LocalNewer? ==> r in {AlreadySame, Unverified, ConflictKept, Committed, IoError})
  {
  }

  /** So a fill that neither fails nor is refused leaves the edit somewhere, or knows a newer one. */
  lemma FillKeepsTheEdit(c: Cell, b: Body, io: Io, backups: bool)
    ensures var (c', r) := Section(c, Request(CacheIn, b), io, backups);
            || r in {IoError, Unverified, ConflictKept}
            || (c'.meta.Some? && c'.meta.value.item.revision > b.item.revision)
            || (c'.live.Some? && c'.live.value.item == b.item)
  {
  }

  /** What a PUT answers: the precondition first, then the order of revisions, then the timestamp. */
  lemma PutAnswers(c: Cell, req: Request, io: Io, backups: bool)
    requires !req.kind.CacheIn?
    ensures var r := Section(c, req, io, backups).1;
            var met := Precondition.EvaluateIfMatch(req.kind.ifMatch, c.Revision()) != Precondition.Fail;
            var rises := c.meta.None? || c.meta.value.item.revision < req.body.item.revision;
            var dated := req.kind.HubPut? || req.body.item.timestamp.Some?;
            && (r == Refused412 <==> !met)
            && (r == Refused409 <==> met && !rises)
            && (r == Refused400 <==> met && rises && !dated)
            && (r == Committed <==> met && rises && dated && io.write.Written? && (req.kind.OfflinePut? ==> io.queue))
            && r in {Refused412, Refused409, Refused400, Committed, IoError}
  {
  }

  /** No section takes the indexed revision down. */
  lemma SectionNeverLowers(c: Cell, req: Request, io: Io, backups: bool)
    requires c.meta.Some?
    ensures var c' := Section(c, req, io, backups).0;
            c'.meta.Some? && c'.meta.value.item.revision >= c.meta.value.item.revision
  {
  }

  /** Answers other than a commit and an I/O error leave the cell as it was. */
  lemma RefusalChangesNothing(c: Cell, req: Request, io: Io, backups: bool)
    requires Section(c, req, io, backups).1 != Committed && Section(c, req, io, backups).1 != IoError
    ensures Section(c, req, io, backups).0 == c
  {
  }

  /** Exactly one failure damages an intact volume: a write that fails after its rename. */
  lemma IntactExactly(c: Cell, req: Request, io: Io, backups: bool)
    requires Intact(c)
    ensures Intact(Section(c, req, io, backups).0) <==> !FailsAfterRename(c, req, io, backups)
  {
    if Decide(c, req, io.read) == Store && c.meta.Some? {
      StoreMeansNewer(c, req, io.read);
    }
  }

  // ---- Exactly when a section keeps store, index and backups in step ----

  /** Store and index agree on the ref: neither has it, or the entry is the live object's. */
  predicate Agree(c: Cell) {
    (c.meta.None? && c.live.None?) || (c.meta.Some? && c.live.Some? && c.live.value.AsMeta() == c.meta.value)
  }

  /** The section moves the live file into the slot of the indexed revision. */
  predicate Moves(c: Cell, req: Request, io: Io, backups: bool) {
    Decide(c, req, io.read) == Store && c.meta.Some? && c.live.Some? && backups && io.backup
  }

  /** The section stops between the backup and the write, or its write fails before the rename. */
  predicate StopsBeforeRename(req: Request, io: Io) {
    (req.kind.OfflinePut? && !io.queue) || io.write.NotWritten?
  }

  /** The section takes store and index apart: it gives up after moving the live file away, or
      renames the new file into place and then fails. */
  predicate Splits(c: Cell, req: Request, io: Io, backups: bool) {
    && Decide(c, req, io.read) == Store
    && !BackupAborts(c, req, io.backup, backups)
    && if StopsBeforeRename(req, io) then Moves(c, req, io, backups) else io.write.WrittenThenFailed?
  }

  /** After a section store and index agree exactly when it committed, or found them agreeing and
      did not split them; from agreement the rest of the cell is untouched too. */
  lemma AgreeExactly(c: Cell, req: Request, io: Io, backups: bool)
    ensures var (c', r) := Section(c, req, io, backups);
            && (Agree(c') <==> r == Committed || (Agree(c) && !Splits(c, req, io, backups)))
            && (r != Committed ==> c'.meta == c.meta && (!Splits(c, req, io, backups) ==> c' == c))
  {
    if Decide(c, req, io.read) == Store && c.meta.Some? {
      StoreMeansNewer(c, req, io.read);
    }
  }

  /** The failing input: a store write that fails with the old file already moved to its slot leaves
      an idle ref indexed at revision 1 with no live file. */
  lemma FailedWriteSplits(one: Body, two: Body)
    requires one.item.revision == 1 && two.item.revision == 2 && two.item.timestamp.Some?
    ensures var c := Cell(Some(one.AsMeta()), Some(one), map[]);
            var (c', r) := Section(c, Request(HubPut(""), two), SMOOTH.(write := NotWritten), true);
            Agree(c) && r == IoError && c' == Cell(Some(one.AsMeta()), None, map[1 := one]) && !Agree(c')
  {
  }

  predicate KeepsSlots(c: Cell, c': Cell) {
    forall r | r in c.bk :: r in c'.bk && c'.bk[r] == c.bk[r]
  }

  /** The backup goes into a slot that already holds something else. */
  predicate Overwrites(c: Cell, req: Request, io: Io, backups: bool) {
    && Moves(c, req, io, backups)
    && c.meta.value.item.revision in c.bk && c.bk[c.meta.value.item.revision] != c.live.value
  }

  /** A section keeps every backup exactly when it does not move a file into a slot that holds another. */
  lemma SlotsAreWriteOnce(c: Cell, req: Request, io: Io, backups: bool)
    ensures KeepsSlots(c, Section(c, req, io, backups).0) <==> !Overwrites(c, req, io, backups)
  {
    if Overwrites(c, req, io, backups) {
      assert c.meta.value.item.revision in c.bk;
    }
  }

  /** Every slot holds an object of its own revision. */
  predicate SlotsTrue(c: Cell) {
    forall r | r in c.bk :: c.bk[r].item.revision == r
  }

  /** The backup goes into the slot of a revision the live object does not have. */
  predicate Mislabels(c: Cell, req: Request, io: Io, backups: bool) {
    Moves(c, req, io, backups) && c.live.value.item.revision != c.meta.value.item.revision
  }

  lemma SlotsStayTrue(c: Cell, req: Request, io: Io, backups: bool)
    requires SlotsTrue(c)
    ensures SlotsTrue(Section(c, req, io, backups).0) <==> !Mislabels(c, req, io, backups)
  {
    if Mislabels(c, req, io, backups) {
      assert c.meta.value.item.revision in Section(c, req, io, backups).0.bk;
    }
  }

  /** An intact volume does neither. */
  lemma IntactBackupsAreSound(c: Cell, req: Request, io: Io, backups: bool)
    requires Intact(c)
    ensures !Overwrites(c, req, io, backups) && !Mislabels(c, req, io, backups)
  {
  }

  predicate SlotHolds(c: Cell, item: Item) {
    item.revision in c.bk && c.bk[item.revision].item == item
  }

  /** The volume has the bytes of this item, live or in the slot of its revision. */
  predicate Holds(c: Cell, item: Item) {
    (c.live.Some? && c.live.value.item == item) || SlotHolds(c, item)
  }

  /** The indexed object, if any, is still somewhere. */
  predicate HoldsIndexed(c: Cell) {
    c.meta.Some? ==> Holds(c, c.meta.value.item)
  }

  /** After a move only the moved file can be the indexed object; without one, a replaced live file
      leaves the slot alone to hold it. */
  predicate SurvivesReplacement(c: Cell, moved: bool)
    requires c.meta.Some? && (moved ==> c.live.Some?)
  {
    if moved then c.live.value.item == c.meta.value.item else SlotHolds(c, c.meta.value.item)
  }

  /** The section drops the indexed object without committing another. */
  predicate Loses(c: Cell, req: Request, io: Io, backups: bool) {
    Splits(c, req, io, backups) && c.meta.Some? && !SurvivesReplacement(c, Moves(c, req, io, backups))
  }

  /** The indexed object is somewhere after a section exactly when the section committed, or it was
      there before and was not lost. */
  lemma HeldExactly(c: Cell, req: Request, io: Io, backups: bool)
    ensures var (c', r) := Section(c, req, io, backups);
            HoldsIndexed(c') <==> r == Committed || (HoldsIndexed(c) && !Loses(c, req, io, backups))
  {
    if Decide(c, req, io.read) == Store && c.meta.Some? {
      StoreMeansNewer(c, req, io.read);
    }
  }

  /** Why the late failure matters: from a sound volume, one such write followed by one ordinary
      write destroys the only copy of revision 1 and leaves revision 2 in its slot. */
  lemma LateFailureLosesABackup(one: Body, two: Body, three: Body)
    requires one.item.revision == 1 && two.item.revision == 2 && three.item.revision == 3
    requires two.item.timestamp.Some? && three.item.timestamp.Some?
    ensures var c0 := Cell(Some(one.AsMeta()), Some(one), map[]);
            var late := SMOOTH.(write := WrittenThenFailed);
            var (c1, r1) := Section(c0, Request(HubPut(""), two), late, true);
            var (c2, r2) := Section(c1, Request(HubPut(""), three), SMOOTH, true);
            && Intact(c0) && r1 == IoError && r2 == Committed
            && c1.bk == map[1 := one] && c2.bk == map[1 := two] && c2.live == Some(three)
  {
    var c0 := Cell(Some(one.AsMeta()), Some(one), map[]);
    var c1 := Section(c0, Request(HubPut(""), two), SMOOTH.(write := WrittenThenFailed), true).0;
    assert c1.bk == map[1 := one] && c1.live == Some(two) && c1.meta == Some(one.AsMeta());
    var c2 := Section(c1, Request(HubPut(""), three), SMOOTH, true).0;
    assert map[1 := one][1 := two] == map[1 := two];
  }
}
