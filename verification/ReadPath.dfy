/** What a reader finds while writers run: where the live file of a ref is at every step, what it
    holds, and what GET answers with it (serving/handlers.go, serving/proxy.go). */
module ReadPath {
  import opened Decimal
  import opened Objects
  import opened WritePath
  import opened WriteSystem
  import opened WriteSafety
  import Resolver

  // ---- What a section does to the live file ----

  /** The section renames its own file into place. */
  predicate Renames(c: Cell, req: Request, io: Io, backups: bool) {
    Decide(c, req, io.read) == Store && !BackupAborts(c, req, io.backup, backups) && !StopsBeforeRename(req, io)
  }

  /** The section moves the live file away and gives up. */
  predicate Empties(c: Cell, req: Request, io: Io, backups: bool) {
    Moves(c, req, io, backups) && StopsBeforeRename(req, io)
  }

  lemma LiveAfterSection(c: Cell, req: Request, io: Io, backups: bool)
    ensures Section(c, req, io, backups).0.live ==
            if Renames(c, req, io, backups) then Some(req.body) else if Empties(c, req, io, backups) then None
                else c.live
  {
  }

  // ---- Over a serial order ----

  predicate RenamesAt(cfg: Config, log: seq<Entry>, k: nat)
    requires k < |log|
  {
    Renames(At(cfg, log, k, log[k].req.Key()), log[k].req, log[k].io, cfg.backups)
  }

  predicate EmptiesAt(cfg: Config, log: seq<Entry>, k: nat)
    requires k < |log|
  {
    Empties(At(cfg, log, k, log[k].req.Key()), log[k].req, log[k].io, cfg.backups)
  }

  /** Call k changed the live file of the ref. */
  predicate Touches(cfg: Config, log: seq<Entry>, k: nat, ref: string)
    requires k < |log|
  {
    log[k].req.Key() == ref && (RenamesAt(cfg, log, k) || EmptiesAt(cfg, log, k))
  }

  /** b is live after i calls: it was at the start, or call i - 1 renamed it into place. */
  predicate PlacedBy(cfg: Config, log: seq<Entry>, i: nat, ref: string, b: Body)
    requires i <= |log|
  {
    if i == 0 then At(cfg, log, 0, ref).live == Some(b)
    else log[i - 1].req.Key() == ref && RenamesAt(cfg, log, i - 1) && log[i - 1].req.body == b
  }

  predicate Untouched(cfg: Config, log: seq<Entry>, i: nat, j: nat, ref: string)
    requires j <= |log|
  {
    forall k | i <= k < j :: !Touches(cfg, log, k, ref)
  }

  /** b was put in place, and no later call has touched the live file. */
  ghost predicate PlacedSince(cfg: Config, log: seq<Entry>, j: nat, ref: string, b: Body)
    requires j <= |log|
  {
    exists i :: 0 <= i <= j && PlacedBy(cfg, log, i, ref, b) && Untouched(cfg, log, i, j, ref)
  }

  lemma LiveStep(cfg: Config, log: seq<Entry>, k: nat, ref: string)
    requires k < |log|
    ensures At(cfg, log, k + 1, ref).live ==
            if log[k].req.Key() == ref && RenamesAt(cfg, log, k) then Some(log[k].req.body)
            else if Touches(cfg, log, k, ref) then None else At(cfg, log, k, ref).live
  {
    NextCell(cfg, log, k, ref);
    LiveAfterSection(At(cfg, log, k, ref), log[k].req, log[k].io, cfg.backups);
  }

  lemma PlacedStep(cfg: Config, log: seq<Entry>, k: nat, ref: string, b: Body)
    requires k < |log|
    ensures PlacedSince(cfg, log, k + 1, ref, b) <==>
            PlacedBy(cfg, log, k + 1, ref, b) || (PlacedSince(cfg, log, k, ref, b) && !Touches(cfg, log, k, ref))
  {
    if PlacedBy(cfg, log, k + 1, ref, b) {
      assert Untouched(cfg, log, k + 1, k + 1, ref);
    }
    if PlacedSince(cfg, log, k, ref, b) && !Touches(cfg, log, k, ref) {
      var i :| 0 <= i <= k && PlacedBy(cfg, log, i, ref, b) && Untouched(cfg, log, i, k, ref);
      assert Untouched(cfg, log, i, k + 1, ref);
    }
    if PlacedSince(cfg, log, k + 1, ref, b) && !PlacedBy(cfg, log, k + 1, ref, b) {
      var i :| 0 <= i <= k + 1 && PlacedBy(cfg, log, i, ref, b) && Untouched(cfg, log, i, k + 1, ref);
      assert i <= k && Untouched(cfg, log, i, k, ref);
    }
  }

  lemma {:induction false} LiveBySerialOrder(cfg: Config, log: seq<Entry>, j: nat, ref: string, b: Body)
    requires j <= |log|
    ensures At(cfg, log, j, ref).live == Some(b) <==> PlacedSince(cfg, log, j, ref, b)
  {
    if j == 0 {
      assert Untouched(cfg, log, 0, 0, ref);
    } else {
      LiveBySerialOrder(cfg, log, j - 1, ref, b);
      LiveStep(cfg, log, j - 1, ref);
      PlacedStep(cfg, log, j - 1, ref, b);
    }
  }

  // ---- At every intermediate step ----

  /** A section on the ref has renamed its file into place and not yet updated the index. */
  ghost predicate BeingIndexed(s: Sys, ref: string, b: Body) {
    exists t :: BusyOn(s, t, ref) && s.JobOf(t).AtIndex? && s.JobOf(t).req.body == b
  }

  /** A section on the ref has changed the live file: moved it away, or replaced it. */
  ghost predicate Disturbed(cfg: Config, s: Sys, ref: string) {
    exists t :: BusyOn(s, t, ref) && (s.JobOf(t).AtIndex? || HasMoved(cfg, s.JobOf(t), cfg.Serially(s, ref)))
  }

  lemma LiveInSection(cfg: Config, s: Sys, t: Thread, ref: string)
    requires Inv(cfg, s) && BusyOn(s, t, ref)
    ensures var c0, job := cfg.Serially(s, ref), s.JobOf(t);
            s.CellOf(ref).live == if job.AtIndex? then Some(job.req.body) else if HasMoved(cfg, job, c0) then None
                else c0.live
    ensures s.CellOf(ref).meta == cfg.Serially(s, ref).meta
  {
    assert JobInv(cfg, s, t);
  }

  lemma OnlyOneBusy(cfg: Config, s: Sys, ref: string, t: Thread, u: Thread)
    requires Inv(cfg, s) && BusyOn(s, t, ref) && BusyOn(s, u, ref)
    ensures t == u
  {
    assert JobInv(cfg, s, t);
    OneBusy(cfg, s, t, u);
  }

  /** At every step of every run the live file of a ref holds b exactly when a section that wrote b is
      about to index it, or b was put there by an earlier call and neither a later one nor a running
      section has moved or replaced it. A reader finds no file in all other states. */
  lemma LiveFileExactly(cfg: Config, moves: seq<Move>, ref: string, b: Body)
    requires Schedule(Start(cfg), moves, cfg.backups)
    ensures var s := Run(Start(cfg), moves, cfg.backups);
            s.CellOf(ref).live == Some(b) <==>
            BeingIndexed(s, ref, b) || (PlacedSince(cfg, s.log, |s.log|, ref, b) && !Disturbed(cfg, s, ref))
  {
    var s := Run(Start(cfg), moves, cfg.backups);
    InvInitial(cfg);
    InvRun(cfg, Start(cfg), moves);
    assert s.log[..|s.log|] == s.log;
    LiveBySerialOrder(cfg, s.log, |s.log|, ref, b);
    if t :| BusyOn(s, t, ref) {
      LiveInSection(cfg, s, t, ref);
      forall u | BusyOn(s, u, ref) ensures u == t { OnlyOneBusy(cfg, s, ref, t, u); }
    } else {
      assert RefInv(cfg, s, ref);
    }
  }

  // ---- What the index knows ----

  /** The index entry after j calls: that of the last commit, or the one the run started with. */
  function IndexedBy(cfg: Config, log: seq<Entry>, j: nat, ref: string): Option<Meta>
    requires j <= |log|
  {
    if j == 0 then At(cfg, log, 0, ref).meta
    else if CommitsAt(log, j - 1, ref) then Some(log[j - 1].req.body.AsMeta())
    else IndexedBy(cfg, log, j - 1, ref)
  }

  lemma {:induction false} IndexBySerialOrder(cfg: Config, log: seq<Entry>, j: nat, ref: string)
    requires AnsweredSerially(cfg, log) && j <= |log|
    ensures At(cfg, log, j, ref).meta == IndexedBy(cfg, log, j, ref)
  {
    if j > 0 {
      IndexBySerialOrder(cfg, log, j - 1, ref);
      if CommitsAt(log, j - 1, ref) {
        CommitIndexes(cfg, log, j - 1);
      } else {
        QuietStep(cfg, log, j - 1, ref);
      }
    }
  }

  /** At every step of every run the index names the last committed object and its realms. */
  lemma IndexIsLastCommit(cfg: Config, moves: seq<Move>, ref: string)
    requires Schedule(Start(cfg), moves, cfg.backups)
    ensures var s := Run(Start(cfg), moves, cfg.backups);
            s.CellOf(ref).meta == IndexedBy(cfg, s.log, |s.log|, ref)
  {
    var s := Run(Start(cfg), moves, cfg.backups);
    InvInitial(cfg);
    InvRun(cfg, Start(cfg), moves);
    RunsAnswerSerially(cfg, moves);
    IndexBySerialOrder(cfg, s.log, |s.log|, ref);
    assert s.log[..|s.log|] == s.log;
    if t :| BusyOn(s, t, ref) {
      LiveInSection(cfg, s, t, ref);
    } else {
      assert RefInv(cfg, s, ref);
    }
  }

  lemma {:induction false} IndexedByPrefix(cfg: Config, log: seq<Entry>, log': seq<Entry>, j: nat, ref: string)
    requires log <= log' && j <= |log|
    ensures IndexedBy(cfg, log, j, ref) == IndexedBy(cfg, log', j, ref)
  {
    assert log[..0] == log'[..0];
    if j > 0 { IndexedByPrefix(cfg, log, log', j - 1, ref); }
  }

  /** Without a commit the entry stays. */
  lemma {:induction false} IndexedSince(cfg: Config, log: seq<Entry>, i: nat, j: nat, ref: string)
    requires i <= j <= |log| && NoCommit(log, i, j, ref)
    ensures IndexedBy(cfg, log, j, ref) == IndexedBy(cfg, log, i, ref)
    decreases j
  {
    if i < j {
      assert !CommitsAt(log, j - 1, ref);
      IndexedSince(cfg, log, i, j - 1, ref);
    }
  }

  // ---- GET ----

  datatype Reader = Reader(pubkey: string, membership: Option<Resolver.Membership>) {
    predicate Reads(realms: seq<string>) {
      Resolver.CanRead(realms, pubkey, membership)
    }

    predicate Passes(indexed: Option<Meta>) {
      Resolver.LetsPass(indexed, pubkey, membership)
    }
  }

  datatype Answer = NotFound | Served(body: Body)

  /** GET: access is decided on the realms the index had at the lookup, and a ref the index did not
      know is served straight from the file, which is read afterwards. */
  function Get(atLookup: Sys, atRead: Sys, ref: string, reader: Reader): Answer {
    var meta, live := atLookup.CellOf(ref).meta, atRead.CellOf(ref).live;
    if !reader.Passes(meta) || live.None? then NotFound else Served(live.value)
  }

  /** Over every run, and however many steps of writers fall between a GET's lookup and its read: the
      answer is b exactly when the live file holds b at the read, and at the lookup the ref had never
      been indexed or the reader could read what was last committed to it. */
  lemma GetAnswersExactly(cfg: Config, before: seq<Move>, between: seq<Move>, ref: string, reader: Reader, b: Body)
    requires Schedule(Start(cfg), before + between, cfg.backups)
    ensures var s1, s2 := Run(Start(cfg), before, cfg.backups), Run(Start(cfg), before + between, cfg.backups);
            Get(s1, s2, ref, reader) == Served(b) <==>
            && reader.Passes(IndexedBy(cfg, s1.log, |s1.log|, ref))
            && (BeingIndexed(s2, ref, b) || (PlacedSince(cfg, s2.log, |s2.log|, ref, b) && !Disturbed(cfg, s2, ref)))
  {
    RunSplit(Start(cfg), before, between, cfg.backups);
    IndexIsLastCommit(cfg, before, ref);
    LiveFileExactly(cfg, before + between, ref, b);
  }

  /** Nothing is withheld from its readers: an object that is live at the read is answered exactly when
      the index does not know the ref at the lookup, or lists a public realm, the reader's own key, or
      a realm the reader is a member of. */
  lemma ReadersAreServed(s1: Sys, s2: Sys, ref: string, reader: Reader, b: Body)
    requires s2.CellOf(ref).live == Some(b)
    ensures var meta := s1.CellOf(ref).meta;
            Get(s1, s2, ref, reader) == Served(b) <==>
            || meta.None?
            || "dataverse001" in meta.value.realms || "server-public" in meta.value.realms
            || (reader.pubkey != "" && reader.pubkey in meta.value.realms)
            || (reader.pubkey != "" && reader.membership.Some?
                && exists r :: r in meta.value.realms && reader.membership.value.IsMember(r, reader.pubkey))
  {
    if s1.CellOf(ref).meta.Some? {
      Resolver.ReadersExactly(s1.CellOf(ref).meta.value.realms, reader.pubkey, reader.membership);
    }
  }

  // ---- Private objects ----

  /** The run starts with no live file, or with one the index describes. */
  predicate FaithfulStart(cfg: Config, ref: string) {
    var c := Start(cfg).CellOf(ref);
    c.live.Some? ==> c.meta == Some(c.live.value.AsMeta())
  }

  /** Call k left b live without committing it: its write failed after the rename. */
  ghost predicate LeftBehind(cfg: Config, log: seq<Entry>, ref: string, b: Body) {
    exists k :: 0 <= k < |log| && log[k].req.Key() == ref && log[k].req.body == b && LateFailure(cfg, log, k)
                && Untouched(cfg, log, k + 1, |log|, ref)
  }

  /** b was committed by a call after the first n, and no later call has touched the live file. */
  ghost predicate CommittedAfter(cfg: Config, log: seq<Entry>, n: nat, ref: string, b: Body) {
    exists k :: n <= k < |log| && CommitsAt(log, k, ref) && log[k].req.body == b
                && Untouched(cfg, log, k + 1, |log|, ref)
  }

  lemma RenameCommitsOrFailsLate(cfg: Config, log: seq<Entry>, k: nat)
    requires AnsweredSerially(cfg, log) && k < |log|
    ensures RenamesAt(cfg, log, k) <==> log[k].response == Committed || LateFailure(cfg, log, k)
  {
    assert TrueAnswer(cfg, log, k);
    SectionRenames(At(cfg, log, k, log[k].req.Key()), log[k].req, log[k].io, cfg.backups);
  }

  lemma SectionRenames(c: Cell, req: Request, io: Io, backups: bool)
    ensures Renames(c, req, io, backups) <==>
            Section(c, req, io, backups).1 == Committed || FailsAfterRename(c, req, io, backups)
  {
  }

  /** A live file that no failed write left and no call after the first n committed was described by
      the index after those n calls. */
  lemma WhoPlacedIt(cfg: Config, log: seq<Entry>, n: nat, ref: string, b: Body)
    requires AnsweredSerially(cfg, log) && FaithfulStart(cfg, ref) && n <= |log|
    requires PlacedSince(cfg, log, |log|, ref, b)
    requires !LeftBehind(cfg, log, ref, b) && !CommittedAfter(cfg, log, n, ref, b)
    ensures IndexedBy(cfg, log, n, ref) == Some(b.AsMeta())
  {
    var i :| 0 <= i <= |log| && PlacedBy(cfg, log, i, ref, b) && Untouched(cfg, log, i, |log|, ref);
    forall k | i <= k < n ensures !CommitsAt(log, k, ref) {
      assert !Touches(cfg, log, k, ref);
      RenameCommitsOrFailsLate(cfg, log, k);
    }
    if i == 0 {
      assert log[..0] == [];
    } else {
      RenameCommitsOrFailsLate(cfg, log, i - 1);
      assert CommitsAt(log, i - 1, ref);
    }
    assert i <= n;
    IndexedSince(cfg, log, i, n, ref);
  }

  lemma PlacedThere(cfg: Config, log: seq<Entry>, k: nat, ref: string, b: Body)
    requires AnsweredSerially(cfg, log) && k < |log| && log[k].req.Key() == ref && log[k].req.body == b
    requires log[k].response == Committed || LateFailure(cfg, log, k)
    requires Untouched(cfg, log, k + 1, |log|, ref)
    ensures PlacedSince(cfg, log, |log|, ref, b)
  {
    RenameCommitsOrFailsLate(cfg, log, k);
    assert PlacedBy(cfg, log, k + 1, ref, b);
  }

  lemma Placed(cfg: Config, log: seq<Entry>, n: nat, ref: string, b: Body)
    requires AnsweredSerially(cfg, log)
    requires LeftBehind(cfg, log, ref, b) || CommittedAfter(cfg, log, n, ref, b)
    ensures PlacedSince(cfg, log, |log|, ref, b)
  {
    if LeftBehind(cfg, log, ref, b) {
      var k :| 0 <= k < |log| && log[k].req.Key() == ref && log[k].req.body == b && LateFailure(cfg, log, k)
               && Untouched(cfg, log, k + 1, |log|, ref);
      PlacedThere(cfg, log, k, ref, b);
    } else {
      var k :| n <= k < |log| && CommitsAt(log, k, ref) && log[k].req.body == b
               && Untouched(cfg, log, k + 1, |log|, ref);
      PlacedThere(cfg, log, k, ref, b);
    }
  }

  /** GET answers a reader with an object he may not read if and only if the index let him pass at
      the lookup and, at the read, the object is live because a section is about to index it, a write
      of it failed past its rename, or it was committed between the lookup and the read. */
  lemma PrivateObjectsEscapeExactly(cfg: Config, before: seq<Move>, between: seq<Move>, ref: string, reader: Reader,
                                    b: Body)
    requires Schedule(Start(cfg), before + between, cfg.backups)
    requires FaithfulStart(cfg, ref) && !reader.Reads(b.Realms())
    ensures var s1, s2 := Run(Start(cfg), before, cfg.backups), Run(Start(cfg), before + between, cfg.backups);
            Get(s1, s2, ref, reader) == Served(b) <==>
            && reader.Passes(IndexedBy(cfg, s1.log, |s1.log|, ref))
            && (BeingIndexed(s2, ref, b)
                || (!Disturbed(cfg, s2, ref)
                    && (LeftBehind(cfg, s2.log, ref, b) || CommittedAfter(cfg, s2.log, |s1.log|, ref, b))))
  {
    var s1, s2 := Run(Start(cfg), before, cfg.backups), Run(Start(cfg), before + between, cfg.backups);
    GetAnswersExactly(cfg, before, between, ref, reader, b);
    RunsAnswerSerially(cfg, before + between);
    RunSplit(Start(cfg), before, between, cfg.backups);
    LogGrows(s1, between, cfg.backups);
    IndexedByPrefix(cfg, s1.log, s2.log, |s1.log|, ref);
    if LeftBehind(cfg, s2.log, ref, b) || CommittedAfter(cfg, s2.log, |s1.log|, ref, b) {
      Placed(cfg, s2.log, |s1.log|, ref, b);
    } else if PlacedSince(cfg, s2.log, |s2.log|, ref, b) {
      WhoPlacedIt(cfg, s2.log, |s1.log|, ref, b);
    }
  }

  /** The last case happens: a lookup that finds a readable object, a whole write of an unreadable one,
      then the read. The answer is the new object, though it is indexed, no write failed, and a
      lookup made now would refuse it. */
  lemma LookupBeforePrivateCommit(one: Body, two: Body, reader: Reader)
    requires one.Ref() == two.Ref() && one.item.revision < two.item.revision && two.item.timestamp.Some?
    requires reader.Reads(one.Realms()) && !reader.Reads(two.Realms())
    ensures var cfg, ref := OneObject(one), one.Ref();
            var moves := OverwriteUnindexed(two) + [Move(0, UpdateIndex)];
            var s := Run(Start(cfg), moves, false);
            && Schedule(Start(cfg), moves, false) && FaithfulStart(cfg, ref)
            && Get(Start(cfg), s, ref, reader) == Served(two) && Get(s, s, ref, reader) == NotFound
            && s.CellOf(ref).meta == Some(two.AsMeta())
            && !BeingIndexed(s, ref, two) && !LeftBehind(cfg, s.log, ref, two)
  {
    var cfg, req := OneObject(one), Request(HubPut(""), two);
    UnbackedWriteRuns(one, two);
    var s1 := Run(Start(cfg), OverwriteUnindexed(two), false);
    InvInitial(cfg);
    InvRun(cfg, Start(cfg), OverwriteUnindexed(two));
    RunSplit(Start(cfg), OverwriteUnindexed(two), [Move(0, UpdateIndex)], false);
    var s := Step(s1, 0, UpdateIndex, false);
    assert Run(s1, [Move(0, UpdateIndex)], false) == s;
    assert BusyOn(s1, 0, one.Ref());
    forall t ensures !BusyOn(s, t, one.Ref()) {
      if t != 0 && BusyOn(s1, t, one.Ref()) { OnlyOneBusy(cfg, s1, one.Ref(), t, 0); }
    }
  }
}
