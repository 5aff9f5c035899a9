/** What the serial order of write sections guarantees over a whole run: revisions, optimistic
    locking, backups, and where the latest committed bytes are at every intermediate step. */
module WriteSafety {
  import opened Decimal
  import opened Objects
  import opened WritePath
  import opened WriteSystem
  import Precondition

  /** The run starts from volumes that an earlier run, or a rebuild from files, left intact. */
  ghost predicate IntactStart(cfg: Config) {
    forall ref | ref in cfg.initial :: Intact(cfg.initial[ref])
  }

  function At(cfg: Config, log: seq<Entry>, i: nat, ref: string): Cell
    requires i <= |log|
  {
    Replay(cfg.initial, log[..i], ref, cfg.backups)
  }

  /** The logged call's write failed after its rename. */
  predicate LateFailure(cfg: Config, log: seq<Entry>, i: nat)
    requires i < |log|
  {
    FailsAfterRename(At(cfg, log, i, log[i].req.Key()), log[i].req, log[i].io, cfg.backups)
  }

  predicate NoLateFailure(cfg: Config, log: seq<Entry>, j: nat, ref: string)
    requires j <= |log|
  {
    forall i | 0 <= i < j && log[i].req.Key() == ref :: !LateFailure(cfg, log, i)
  }

  lemma NextCell(cfg: Config, log: seq<Entry>, i: nat, ref: string)
    requires i < |log|
    ensures At(cfg, log, i + 1, ref) ==
            var before := At(cfg, log, i, ref);
            if log[i].req.Key() == ref then Section(before, log[i].req, log[i].io, cfg.backups).0 else before
  {
    assert log[..i + 1] == log[..i] + [log[i]];
    ReplayAppend(cfg.initial, log[..i], log[i], ref, cfg.backups);
  }

  // ---- Answers ----

  predicate TrueAnswer(cfg: Config, log: seq<Entry>, k: nat)
    requires k < |log|
  {
    log[k].response == Section(At(cfg, log, k, log[k].req.Key()), log[k].req, log[k].io, cfg.backups).1
  }

  /** Serial, entry by entry. */
  ghost predicate AnsweredSerially(cfg: Config, log: seq<Entry>) {
    forall k | 0 <= k < |log| :: TrueAnswer(cfg, log, k)
  }

  lemma RunsAnswerSerially(cfg: Config, moves: seq<Move>)
    requires Schedule(Start(cfg), moves, cfg.backups)
    ensures var s := Run(Start(cfg), moves, cfg.backups);
            && AnsweredSerially(cfg, s.log)
            && forall ref | (forall t :: !BusyOn(s, t, ref)) :: s.CellOf(ref) == cfg.Serially(s, ref)
  {
    Linearizable(cfg, moves);
    var log := Run(Start(cfg), moves, cfg.backups).log;
    forall k | 0 <= k < |log| ensures TrueAnswer(cfg, log, k) {
    }
  }

  // ---- Revisions ----

  /** Later cells never index a lower revision, and never lose the index entry. */
  lemma {:induction false} RevisionsNeverFall(cfg: Config, log: seq<Entry>, i: nat, j: nat, ref: string)
    requires i <= j <= |log|
    ensures var a, b := At(cfg, log, i, ref), At(cfg, log, j, ref);
            a.meta.Some? ==> b.meta.Some? && a.meta.value.item.revision <= b.meta.value.item.revision
    decreases j - i
  {
    if i < j {
      NextCell(cfg, log, j - 1, ref);
      RevisionsNeverFall(cfg, log, i, j - 1, ref);
    }
  }

  lemma CommitIndexes(cfg: Config, log: seq<Entry>, i: nat)
    requires AnsweredSerially(cfg, log) && i < |log| && log[i].response == Committed
    ensures var c := At(cfg, log, i + 1, log[i].req.Key());
            c.meta == Some(log[i].req.body.AsMeta()) && c.live == Some(log[i].req.body)
  {
    NextCell(cfg, log, i, log[i].req.Key());
    assert TrueAnswer(cfg, log, i);
    CommittedSection(At(cfg, log, i, log[i].req.Key()), log[i].req, log[i].io, cfg.backups);
  }

  lemma LaterCommitIsHigher(cfg: Config, log: seq<Entry>, i: nat, j: nat)
    requires AnsweredSerially(cfg, log) && i < j < |log|
    requires log[i].req.Key() == log[j].req.Key() && log[i].response == Committed && log[j].response == Committed
    ensures log[i].req.body.item.revision < log[j].req.body.item.revision
  {
    var ref := log[i].req.Key();
    CommitIndexes(cfg, log, i);
    RevisionsNeverFall(cfg, log, i + 1, j, ref);
    assert TrueAnswer(cfg, log, j);
    CommittedSection(At(cfg, log, j, ref), log[j].req, log[j].io, cfg.backups);
  }

  /** On every write path, over every run, each commit to a ref has a higher revision than every earlier one. */
  lemma CommitsIncrease(cfg: Config, moves: seq<Move>, i: nat, j: nat)
    requires Schedule(Start(cfg), moves, cfg.backups)
    requires var log := Run(Start(cfg), moves, cfg.backups).log;
             && i < j < |log| && log[i].req.Key() == log[j].req.Key()
             && log[i].response == Committed && log[j].response == Committed
    ensures var log := Run(Start(cfg), moves, cfg.backups).log;
            log[i].req.body.item.revision < log[j].req.body.item.revision
  {
    RunsAnswerSerially(cfg, moves);
    LaterCommitIsHigher(cfg, Run(Start(cfg), moves, cfg.backups).log, i, j);
  }

  // ---- Optimistic locking ----

  /** A PUT on one of the hub's or proxy's own paths whose If-Match is the single tag of revision r. */
  predicate ExpectsRevision(req: Request, r: int) {
    !req.kind.CacheIn? && req.kind.ifMatch == Precondition.RevisionETag(r)
  }

  /** A writer expecting revision r is refused with 412 exactly when the ref is not at r. */
  lemma RefusedUnlessExpected(c: Cell, req: Request, io: Io, backups: bool, r: int)
    requires ExpectsRevision(req, r)
    ensures Section(c, req, io, backups).1 == Refused412 <==> c.Revision() != Some(r)
  {
    Precondition.SingleTagWrite(r, c.Revision(), req.body.item.revision);
  }

  lemma LaterWriterFails(cfg: Config, log: seq<Entry>, i: nat, j: nat, r: int)
    requires AnsweredSerially(cfg, log) && i < j < |log|
    requires log[i].req.Key() == log[j].req.Key()
    requires ExpectsRevision(log[i].req, r) && ExpectsRevision(log[j].req, r)
    requires log[i].response == Committed
    ensures log[j].response == Refused412
  {
    var ref := log[i].req.Key();
    assert TrueAnswer(cfg, log, i) && TrueAnswer(cfg, log, j);
    RefusedUnlessExpected(At(cfg, log, i, ref), log[i].req, log[i].io, cfg.backups, r);
    CommittedSection(At(cfg, log, i, ref), log[i].req, log[i].io, cfg.backups);
    CommitIndexes(cfg, log, i);
    RevisionsNeverFall(cfg, log, i + 1, j, ref);
    RefusedUnlessExpected(At(cfg, log, j, ref), log[j].req, log[j].io, cfg.backups, r);
  }

  /** Section 13.1.1 of RFC 9110: of any number of concurrent writers that expect revision r, at most
      one commits over the whole run, and each one evaluated after that commit is told 412, never 409. */
  lemma OneWriterWins(cfg: Config, moves: seq<Move>, i: nat, j: nat, r: int)
    requires Schedule(Start(cfg), moves, cfg.backups)
    requires var log := Run(Start(cfg), moves, cfg.backups).log;
             && i < j < |log| && log[i].req.Key() == log[j].req.Key()
             && ExpectsRevision(log[i].req, r) && ExpectsRevision(log[j].req, r)
             && log[i].response == Committed
    ensures Run(Start(cfg), moves, cfg.backups).log[j].response == Refused412
  {
    RunsAnswerSerially(cfg, moves);
    LaterWriterFails(cfg, Run(Start(cfg), moves, cfg.backups).log, i, j, r);
  }

  // ---- Backups ----

  /** The volume stays intact for a ref for as long as no write to it fails after its rename. */
  lemma {:induction false} StaysIntact(cfg: Config, log: seq<Entry>, j: nat, ref: string)
    requires IntactStart(cfg) && j <= |log|
    requires NoLateFailure(cfg, log, j, ref)
    ensures Intact(At(cfg, log, j, ref))
  {
    if j > 0 {
      StaysIntact(cfg, log, j - 1, ref);
      NextCell(cfg, log, j - 1, ref);
      if log[j - 1].req.Key() == ref {
        IntactExactly(At(cfg, log, j - 1, ref), log[j - 1].req, log[j - 1].io, cfg.backups);
      }
    }
  }

  /** And the first such failure does end it: over a run, intactness is lost exactly there. */
  lemma FirstLateFailureBreaks(cfg: Config, log: seq<Entry>, j: nat)
    requires IntactStart(cfg) && j < |log|
    requires NoLateFailure(cfg, log, j, log[j].req.Key())
    ensures Intact(At(cfg, log, j + 1, log[j].req.Key())) <==> !LateFailure(cfg, log, j)
  {
    var ref := log[j].req.Key();
    StaysIntact(cfg, log, j, ref);
    NextCell(cfg, log, j, ref);
    IntactExactly(At(cfg, log, j, ref), log[j].req, log[j].io, cfg.backups);
  }

  // ---- Store and index ----

  predicate CommitsAt(log: seq<Entry>, k: nat, ref: string)
    requires k < |log|
  {
    log[k].req.Key() == ref && log[k].response == Committed
  }

  predicate SplitsAt(cfg: Config, log: seq<Entry>, k: nat)
    requires k < |log|
  {
    Splits(At(cfg, log, k, log[k].req.Key()), log[k].req, log[k].io, cfg.backups)
  }

  predicate NoSplit(cfg: Config, log: seq<Entry>, i: nat, j: nat, ref: string)
    requires j <= |log|
  {
    forall k | i <= k < j && log[k].req.Key() == ref :: !SplitsAt(cfg, log, k)
  }

  /** Store and index agree after i calls: they did at the start, or call i - 1 was a commit. */
  predicate AgreesFrom(cfg: Config, log: seq<Entry>, i: nat, ref: string)
    requires i <= |log|
  {
    if i == 0 then Agree(At(cfg, log, 0, ref)) else CommitsAt(log, i - 1, ref)
  }

  /** Since the start, or since some commit, no call on the ref split store and index. */
  ghost predicate UnsplitSince(cfg: Config, log: seq<Entry>, j: nat, ref: string)
    requires j <= |log|
  {
    exists i :: 0 <= i <= j && AgreesFrom(cfg, log, i, ref) && NoSplit(cfg, log, i, j, ref)
  }

  lemma AgreeStep(cfg: Config, log: seq<Entry>, k: nat, ref: string)
    requires AnsweredSerially(cfg, log) && k < |log|
    ensures Agree(At(cfg, log, k + 1, ref)) <==>
            CommitsAt(log, k, ref) || (Agree(At(cfg, log, k, ref))
                && !(log[k].req.Key() == ref && SplitsAt(cfg, log, k)))
  {
    NextCell(cfg, log, k, ref);
    assert TrueAnswer(cfg, log, k);
    AgreeExactly(At(cfg, log, k, ref), log[k].req, log[k].io, cfg.backups);
  }

  lemma UnsplitStep(cfg: Config, log: seq<Entry>, k: nat, ref: string)
    requires k < |log|
    ensures UnsplitSince(cfg, log, k + 1, ref) <==>
            CommitsAt(log, k, ref) || (UnsplitSince(cfg, log, k, ref)
                && !(log[k].req.Key() == ref && SplitsAt(cfg, log, k)))
  {
    if CommitsAt(log, k, ref) {
      assert AgreesFrom(cfg, log, k + 1, ref) && NoSplit(cfg, log, k + 1, k + 1, ref);
    }
    if UnsplitSince(cfg, log, k, ref) && !(log[k].req.Key() == ref && SplitsAt(cfg, log, k)) {
      var i :| 0 <= i <= k && AgreesFrom(cfg, log, i, ref) && NoSplit(cfg, log, i, k, ref);
      assert NoSplit(cfg, log, i, k + 1, ref);
    }
    if UnsplitSince(cfg, log, k + 1, ref) && !CommitsAt(log, k, ref) {
      var i :| 0 <= i <= k + 1 && AgreesFrom(cfg, log, i, ref) && NoSplit(cfg, log, i, k + 1, ref);
      assert i <= k && NoSplit(cfg, log, i, k, ref);
    }
  }

  lemma {:induction false} AgreeBySerialOrder(cfg: Config, log: seq<Entry>, j: nat, ref: string)
    requires AnsweredSerially(cfg, log) && j <= |log|
    ensures Agree(At(cfg, log, j, ref)) <==> UnsplitSince(cfg, log, j, ref)
  {
    if j == 0 {
      assert NoSplit(cfg, log, 0, 0, ref);
    } else {
      AgreeBySerialOrder(cfg, log, j - 1, ref);
      AgreeStep(cfg, log, j - 1, ref);
      UnsplitStep(cfg, log, j - 1, ref);
    }
  }

  /** In every state of every run, store and index agree on a ref outside any section exactly when,
      since the start or since some commit to the ref, no call on it gave up between moving the live
      file away and renaming the new one, or failed after that rename. */
  lemma StoreAndIndexAgree(cfg: Config, moves: seq<Move>, ref: string)
    requires Schedule(Start(cfg), moves, cfg.backups)
    requires forall t :: !BusyOn(Run(Start(cfg), moves, cfg.backups), t, ref)
    ensures var s := Run(Start(cfg), moves, cfg.backups);
            Agree(s.CellOf(ref)) <==> UnsplitSince(cfg, s.log, |s.log|, ref)
  {
    var s := Run(Start(cfg), moves, cfg.backups);
    RunsAnswerSerially(cfg, moves);
    AgreeBySerialOrder(cfg, s.log, |s.log|, ref);
    assert s.log[..|s.log|] == s.log;
  }

  predicate NoCommit(log: seq<Entry>, i: nat, j: nat, ref: string)
    requires j <= |log|
  {
    forall k | i <= k < j :: !CommitsAt(log, k, ref)
  }

  lemma QuietStep(cfg: Config, log: seq<Entry>, k: nat, ref: string)
    requires AnsweredSerially(cfg, log) && k < |log| && !CommitsAt(log, k, ref)
    ensures var split := log[k].req.Key() == ref && SplitsAt(cfg, log, k);
            var a, b := At(cfg, log, k, ref), At(cfg, log, k + 1, ref);
            b.meta == a.meta && (!split ==> b == a) && (Agree(b) <==> Agree(a) && !split)
  {
    NextCell(cfg, log, k, ref);
    assert TrueAnswer(cfg, log, k);
    AgreeExactly(At(cfg, log, k, ref), log[k].req, log[k].io, cfg.backups);
  }

  lemma {:induction false} BetweenCommits(cfg: Config, log: seq<Entry>, i: nat, j: nat, ref: string)
    requires AnsweredSerially(cfg, log) && i <= j <= |log| && NoCommit(log, i, j, ref)
    requires Agree(At(cfg, log, i, ref))
    ensures At(cfg, log, j, ref).meta == At(cfg, log, i, ref).meta
    ensures NoSplit(cfg, log, i, j, ref) ==> At(cfg, log, j, ref) == At(cfg, log, i, ref)
    ensures !NoSplit(cfg, log, i, j, ref) ==> !Agree(At(cfg, log, j, ref))
    decreases j - i
  {
    if i < j {
      BetweenCommits(cfg, log, i, j - 1, ref);
      assert !CommitsAt(log, j - 1, ref);
      QuietStep(cfg, log, j - 1, ref);
      SplitLastOrBefore(cfg, log, i, j, ref);
    }
  }

  lemma SplitLastOrBefore(cfg: Config, log: seq<Entry>, i: nat, j: nat, ref: string)
    requires i < j <= |log|
    ensures NoSplit(cfg, log, i, j, ref) <==>
            NoSplit(cfg, log, i, j - 1, ref) && !(log[j - 1].req.Key() == ref && SplitsAt(cfg, log, j - 1))
  {
  }

  /** After the last commit to a ref the index entry is the committed one, whatever fails later; and
      the live file is the committed one exactly when nothing has split the two since. */
  lemma LastCommitIsServed(cfg: Config, moves: seq<Move>, ref: string, i: nat)
    requires Schedule(Start(cfg), moves, cfg.backups)
    requires forall t :: !BusyOn(Run(Start(cfg), moves, cfg.backups), t, ref)
    requires var log := Run(Start(cfg), moves, cfg.backups).log;
             i < |log| && CommitsAt(log, i, ref) && NoCommit(log, i + 1, |log|, ref)
    ensures var s := Run(Start(cfg), moves, cfg.backups);
            && s.CellOf(ref).meta == Some(s.log[i].req.body.AsMeta())
            && (s.CellOf(ref).live == Some(s.log[i].req.body) <==> NoSplit(cfg, s.log, i + 1, |s.log|, ref))
  {
    var s := Run(Start(cfg), moves, cfg.backups);
    RunsAnswerSerially(cfg, moves);
    CommitIndexes(cfg, s.log, i);
    BetweenCommits(cfg, s.log, i + 1, |s.log|, ref);
    assert s.log[..|s.log|] == s.log;
  }

  // ---- Where the latest committed object is ----

  predicate LosesAt(cfg: Config, log: seq<Entry>, k: nat)
    requires k < |log|
  {
    Loses(At(cfg, log, k, log[k].req.Key()), log[k].req, log[k].io, cfg.backups)
  }

  predicate HeldFrom(cfg: Config, log: seq<Entry>, i: nat, ref: string)
    requires i <= |log|
  {
    if i == 0 then HoldsIndexed(At(cfg, log, 0, ref)) else CommitsAt(log, i - 1, ref)
  }

  predicate NoLoss(cfg: Config, log: seq<Entry>, i: nat, j: nat, ref: string)
    requires j <= |log|
  {
    forall k | i <= k < j && log[k].req.Key() == ref :: !LosesAt(cfg, log, k)
  }

  /** Since the start, or since some commit, no finished call on the ref dropped the indexed object. */
  ghost predicate UnlostSince(cfg: Config, log: seq<Entry>, j: nat, ref: string)
    requires j <= |log|
  {
    exists i :: 0 <= i <= j && HeldFrom(cfg, log, i, ref) && NoLoss(cfg, log, i, j, ref)
  }

  lemma HeldStep(cfg: Config, log: seq<Entry>, k: nat, ref: string)
    requires AnsweredSerially(cfg, log) && k < |log|
    ensures HoldsIndexed(At(cfg, log, k + 1, ref)) <==>
            CommitsAt(log, k, ref) || (HoldsIndexed(At(cfg, log, k, ref))
                && !(log[k].req.Key() == ref && LosesAt(cfg, log, k)))
  {
    NextCell(cfg, log, k, ref);
    assert TrueAnswer(cfg, log, k);
    HeldExactly(At(cfg, log, k, ref), log[k].req, log[k].io, cfg.backups);
  }

  lemma UnlostStep(cfg: Config, log: seq<Entry>, k: nat, ref: string)
    requires k < |log|
    ensures UnlostSince(cfg, log, k + 1, ref) <==>
            CommitsAt(log, k, ref) || (UnlostSince(cfg, log, k, ref)
                && !(log[k].req.Key() == ref && LosesAt(cfg, log, k)))
  {
    if CommitsAt(log, k, ref) {
      assert HeldFrom(cfg, log, k + 1, ref) && NoLoss(cfg, log, k + 1, k + 1, ref);
    }
    if UnlostSince(cfg, log, k, ref) && !(log[k].req.Key() == ref && LosesAt(cfg, log, k)) {
      var i :| 0 <= i <= k && HeldFrom(cfg, log, i, ref) && NoLoss(cfg, log, i, k, ref);
      assert NoLoss(cfg, log, i, k + 1, ref);
    }
    if UnlostSince(cfg, log, k + 1, ref) && !CommitsAt(log, k, ref) {
      var i :| 0 <= i <= k + 1 && HeldFrom(cfg, log, i, ref) && NoLoss(cfg, log, i, k + 1, ref);
      assert i <= k && NoLoss(cfg, log, i, k, ref);
    }
  }

  lemma {:induction false} HeldBySerialOrder(cfg: Config, log: seq<Entry>, j: nat, ref: string)
    requires AnsweredSerially(cfg, log) && j <= |log|
    ensures HoldsIndexed(At(cfg, log, j, ref)) <==> UnlostSince(cfg, log, j, ref)
  {
    if j == 0 {
      assert NoLoss(cfg, log, 0, 0, ref);
    } else {
      HeldBySerialOrder(cfg, log, j - 1, ref);
      HeldStep(cfg, log, j - 1, ref);
      UnlostStep(cfg, log, j - 1, ref);
    }
  }

  /** A running section has moved the live file of c0 into its slot. */
  predicate HasMoved(cfg: Config, job: Job, c0: Cell) {
    (job.AtQueue? || job.AtWrite? || job.AtIndex?) && c0.meta.Some? && c0.live.Some? && cfg.backups && job.io.backup
  }

  /** A running section has, for now, put the indexed object of c0 out of reach: it moved another
      file into its slot, or has replaced the live file while the slot does not hold it. */
  predicate Hides(cfg: Config, job: Job, c0: Cell) {
    && c0.meta.Some? && (HasMoved(cfg, job, c0) || job.AtIndex?)
    && !SurvivesReplacement(c0, HasMoved(cfg, job, c0))
  }

  ghost predicate Hidden(cfg: Config, s: Sys, ref: string) {
    exists t :: BusyOn(s, t, ref) && Hides(cfg, s.JobOf(t), cfg.Serially(s, ref))
  }

  lemma HeldInSection(cfg: Config, s: Sys, t: Thread, ref: string)
    requires Inv(cfg, s) && BusyOn(s, t, ref) && cfg.Serially(s, ref).meta.Some?
    ensures var c0 := cfg.Serially(s, ref);
            Holds(s.CellOf(ref), c0.meta.value.item) <==> HoldsIndexed(c0) && !Hides(cfg, s.JobOf(t), c0)
  {
    assert JobInv(cfg, s, t);
    var c0, job := cfg.Serially(s, ref), s.JobOf(t);
    if !job.AtArchive? {
      StoreMeansNewer(c0, job.req, job.io.read);
    }
  }

  /** At every intermediate step of every run, the latest committed object of a ref - the one the
      index of the serial order names - is in the live store or in its backup slot, exactly when no
      finished call has dropped it since it was there and no running section hides it. */
  lemma LatestCommittedIsHeld(cfg: Config, moves: seq<Move>, ref: string)
    requires Schedule(Start(cfg), moves, cfg.backups)
    ensures var s := Run(Start(cfg), moves, cfg.backups);
            var latest := cfg.Serially(s, ref).meta;
            latest.Some? ==>
              (Holds(s.CellOf(ref), latest.value.item) <==>
                UnlostSince(cfg, s.log, |s.log|, ref) && !Hidden(cfg, s, ref))
  {
    var s := Run(Start(cfg), moves, cfg.backups);
    InvInitial(cfg);
    InvRun(cfg, Start(cfg), moves);
    RunsAnswerSerially(cfg, moves);
    HeldBySerialOrder(cfg, s.log, |s.log|, ref);
    assert s.log[..|s.log|] == s.log;
    if cfg.Serially(s, ref).meta.Some? {
      if t :| BusyOn(s, t, ref) {
        HeldInSection(cfg, s, t, ref);
        assert JobInv(cfg, s, t);
        forall u | BusyOn(s, u, ref) ensures u == t {
          OneBusy(cfg, s, t, u);
        }
      } else {
        assert RefInv(cfg, s, ref);
      }
    }
  }

  /** From intact volumes and without a write that fails after its rename, nothing is ever dropped,
      and a section hides the object only between a write that took no backup and its index update. */
  lemma OnlyUnbackedWritesHide(cfg: Config, moves: seq<Move>, ref: string)
    requires IntactStart(cfg) && Schedule(Start(cfg), moves, cfg.backups)
    requires var log := Run(Start(cfg), moves, cfg.backups).log; NoLateFailure(cfg, log, |log|, ref)
    ensures var s := Run(Start(cfg), moves, cfg.backups);
            var c0 := cfg.Serially(s, ref);
            && UnlostSince(cfg, s.log, |s.log|, ref)
            && (Hidden(cfg, s, ref) <==>
                  exists t :: BusyOn(s, t, ref) && s.JobOf(t).AtIndex? && c0.live.Some?
                      && !(cfg.backups && s.JobOf(t).io.backup))
  {
    var s := Run(Start(cfg), moves, cfg.backups);
    RunsAnswerSerially(cfg, moves);
    StaysIntact(cfg, s.log, |s.log|, ref);
    HeldBySerialOrder(cfg, s.log, |s.log|, ref);
    assert s.log[..|s.log|] == s.log;
  }

  // ---- A run that gets there ----

  lemma OneMove(s: Sys, m: Move, rest: seq<Move>, backups: bool)
    requires Enabled(s, m.thread, m.step) && Schedule(Step(s, m.thread, m.step, backups), rest, backups)
    ensures Schedule(s, [m] + rest, backups)
    ensures Run(s, [m] + rest, backups) == Run(Step(s, m.thread, m.step, backups), rest, backups)
  {
    assert ([m] + rest)[0] == m && ([m] + rest)[1..] == rest;
  }

  /** The mutex after n steps of a first, undisturbed Lock by thread 0. */
  function FirstLock(key: string, n: nat): KM.State
    requires n <= 5
  {
    match n
    case 0 => KM.State(None, map[], [], map[0 := KM.WantEnter(key)])
    case 1 => KM.State(Some(0), map[], [], map[0 := KM.EnterLookup(key)])
    case 2 => KM.State(Some(0), map[key := 0], [KM.Cell(key, None, 0)], map[0 := KM.EnterCount(key, 0)])
    case 3 => KM.State(Some(0), map[key := 0], [KM.Cell(key, None, 1)], map[0 := KM.EnterRelease(key, 0)])
    case 4 => KM.State(None, map[key := 0], [KM.Cell(key, None, 1)], map[0 := KM.WantCell(key, 0)])
    case 5 => KM.State(None, map[key := 0], [KM.Cell(key, Some(0), 1)], map[0 := KM.Inside(key, 0)])
  }

  lemma Rewritten(pcs: map<Thread, KM.Pc>, before: KM.Pc, after: KM.Pc)
    requires pcs == map[0 := before]
    ensures pcs[0 := after] == map[0 := after]
  {
  }

  lemma FirstLockStep(key: string, n: nat)
    requires n < 5
    ensures KM.Enabled(FirstLock(key, n), 0, KM.Advance)
    ensures KM.Step(FirstLock(key, n), 0, KM.Advance) == FirstLock(key, n + 1)
  {
    var s := FirstLock(key, n);
    Rewritten(s.pcs, s.pcs[0], FirstLock(key, n + 1).pcs[0]);
    match n
    case 0 => assert s.At(0) == KM.WantEnter(key);
    case 1 =>
      assert s.At(0) == KM.EnterLookup(key);
      assert s.heap + [KM.Cell(key, None, 0)] == [KM.Cell(key, None, 0)];
    case 2 =>
      assert s.At(0) == KM.EnterCount(key, 0);
      assert s.heap[0 := KM.Cell(key, None, 1)] == [KM.Cell(key, None, 1)];
    case 3 => assert s.At(0) == KM.EnterRelease(key, 0);
    case 4 =>
      assert s.At(0) == KM.WantCell(key, 0);
      assert s.heap[0 := KM.Cell(key, Some(0), 1)] == [KM.Cell(key, Some(0), 1)];
  }

  function Locks(n: nat): seq<Move> {
    if n == 0 then [] else [Move(0, Lock)] + Locks(n - 1)
  }

  lemma {:induction false} LockIsTaken(s: Sys, req: Request, n: nat, backups: bool)
    requires n <= 5 && s.mutex == FirstLock(req.Key(), n) && s.JobOf(0) == Called(req, 0)
    ensures Schedule(s, Locks(5 - n), backups)
    ensures Run(s, Locks(5 - n), backups) == s.(mutex := FirstLock(req.Key(), 5))
    decreases 5 - n
  {
    if n < 5 {
      FirstLockStep(req.Key(), n);
      var s' := Step(s, 0, Lock, backups);
      assert s' == s.(mutex := FirstLock(req.Key(), n + 1));
      LockIsTaken(s', req, n + 1, backups);
      OneMove(s, Move(0, Lock), Locks(4 - n), backups);
    }
  }

  const WRITE_UNBACKED: seq<Move> := [Move(0, Check(true))]
      + ([Move(0, TryBackup(true))] + ([Move(0, TryWrite(Written))] + []))

  lemma UnbackedWriteInside(s: Sys, one: Body, req: Request)
    requires s.mutex.At(0).Inside? && s.JobOf(0) == Called(req, 0)
             && s.CellOf(req.Key()) == Cell(Some(one.AsMeta()), Some(one), map[])
    requires req == Request(HubPut(""), req.body) && one.item.revision < req.body.item.revision
    ensures Schedule(s, WRITE_UNBACKED, false)
    ensures var s' := Run(s, WRITE_UNBACKED, false);
            && s'.JobOf(0) == AtIndex(req, 0, SMOOTH) && s'.log == s.log
            && s'.CellOf(req.Key()) == Cell(Some(one.AsMeta()), Some(req.body), map[])
  {
    var s1 := Step(s, 0, Check(true), false);
    assert Decide(s.CellOf(req.Key()), req, true) == Store;
    assert s1.JobOf(0) == AtBackup(req, 0, SMOOTH);
    var s2 := Step(s1, 0, TryBackup(true), false);
    assert s2.JobOf(0) == AtWrite(req, 0, SMOOTH);
    OneMove(s2, Move(0, TryWrite(Written)), [], false);
    OneMove(s1, Move(0, TryBackup(true)), [Move(0, TryWrite(Written))] + [], false);
    OneMove(s, Move(0, Check(true)), [Move(0, TryBackup(true))] + ([Move(0, TryWrite(Written))] + []), false);
  }

  /** One object, stored and indexed, on a hub without backups. */
  function OneObject(one: Body): Config {
    Config(map[one.Ref() := Cell(Some(one.AsMeta()), Some(one), map[])], false)
  }

  lemma HidesWithoutBackup(cfg: Config, one: Body, req: Request, s: Sys)
    requires cfg == OneObject(one) && req.Key() == one.Ref() && one.item.revision < req.body.item.revision
    requires s.JobOf(0) == AtIndex(req, 0, SMOOTH) && s.log == []
    requires s.CellOf(req.Key()) == Cell(Some(one.AsMeta()), Some(req.body), map[])
    ensures cfg.Serially(s, one.Ref()) == Cell(Some(one.AsMeta()), Some(one), map[])
    ensures Hidden(cfg, s, one.Ref()) && !Holds(s.CellOf(one.Ref()), one.item)
  {
    assert BusyOn(s, 0, one.Ref());
  }

  lemma UnbackedWriteAfterLock(called: Sys, one: Body, req: Request)
    requires called.mutex == FirstLock(req.Key(), 0) && called.JobOf(0) == Called(req, 0) && called.log == []
    requires called.CellOf(req.Key()) == Cell(Some(one.AsMeta()), Some(one), map[])
    requires req == Request(HubPut(""), req.body) && one.item.revision < req.body.item.revision
    ensures Schedule(called, Locks(5) + WRITE_UNBACKED, false)
    ensures var s := Run(called, Locks(5) + WRITE_UNBACKED, false);
            && s.JobOf(0) == AtIndex(req, 0, SMOOTH) && s.log == []
            && s.CellOf(req.Key()) == Cell(Some(one.AsMeta()), Some(req.body), map[])
  {
    LockIsTaken(called, req, 0, false);
    var locked := Run(called, Locks(5), false);
    UnbackedWriteInside(locked, one, req);
    RunSplit(called, Locks(5), WRITE_UNBACKED, false);
  }

  /** An overwrite with backups off, up to its index update. */
  function OverwriteUnindexed(two: Body): seq<Move> {
    [Move(0, Call(Request(HubPut(""), two)))] + (Locks(5) + WRITE_UNBACKED)
  }

  lemma UnbackedWriteRuns(one: Body, two: Body)
    requires one.Ref() == two.Ref() && one.item.revision < two.item.revision && two.item.timestamp.Some?
    ensures Schedule(Start(OneObject(one)), OverwriteUnindexed(two), false)
    ensures var s := Run(Start(OneObject(one)), OverwriteUnindexed(two), false);
            && s.JobOf(0) == AtIndex(Request(HubPut(""), two), 0, SMOOTH) && s.log == []
            && s.CellOf(one.Ref()) == Cell(Some(one.AsMeta()), Some(two), map[])
  {
    var start, req := Start(OneObject(one)), Request(HubPut(""), two);
    var called := Step(start, 0, Call(req), false);
    assert called.mutex == FirstLock(req.Key(), 0);
    UnbackedWriteAfterLock(called, one, req);
    OneMove(start, Move(0, Call(req)), Locks(5) + WRITE_UNBACKED, false);
  }

  /** The hidden state is reached: with backups off, an ordinary overwrite has the old object, still
      the latest committed one, nowhere just before its index update. */
  lemma UnbackedWriteHides(one: Body, two: Body)
    requires one.Ref() == two.Ref() && one.item.revision < two.item.revision && two.item.timestamp.Some?
    ensures var cfg := OneObject(one);
            var s := Run(Start(cfg), OverwriteUnindexed(two), false);
            && Schedule(Start(cfg), OverwriteUnindexed(two), false)
            && cfg.Serially(s, one.Ref()).meta == Some(one.AsMeta())
            && Hidden(cfg, s, one.Ref()) && !Holds(s.CellOf(one.Ref()), one.item)
  {
    var cfg, req := OneObject(one), Request(HubPut(""), two);
    UnbackedWriteRuns(one, two);
    HidesWithoutBackup(cfg, one, req, Run(Start(cfg), OverwriteUnindexed(two), false));
  }
}
