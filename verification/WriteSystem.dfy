/** Any number of threads taking the locked write paths of one node at the same time: the keyed
    mutex at the granularity of its own steps, and one step per check (the index lookup and, for equal
    revisions, the read of the live file), archiving, backup rename, queue write, store write and index
    update. Every interleaving is shown to be a serial order of whole sections
    (serving/handlers.go, serving/proxy.go, serving/keyedmutex.go). */
module WriteSystem {
  import opened Decimal
  import opened Objects
  import opened WritePath
  import KM = KeyedMutex

  type Thread = KM.Thread

  /** One linearised call: what was asked, how its file operations went, what it answered. */
  datatype Entry = Entry(thread: Thread, req: Request, io: Io, response: Response)

  /** Where a thread is between a request's arrival and its answer. `since` is the length of the
      log when the request arrived; the log is bookkeeping that no step reads. */
  datatype Job =
    | NoJob
    | Called(req: Request, since: nat)           // waiting for the lock, or about to check
    | AtArchive(req: Request, since: nat, io: Io)
    | AtBackup(req: Request, since: nat, io: Io)
    | AtQueue(req: Request, since: nat, io: Io)
    | AtWrite(req: Request, since: nat, io: Io)
    | AtIndex(req: Request, since: nat, io: Io)
    | Done(req: Request, since: nat, position: nat)      // answered, lock not yet released
    | Returned(req: Request, since: nat, position: nat)

  datatype Sys = Sys(mutex: KM.State, cells: map<string, Cell>, jobs: map<Thread, Job>, log: seq<Entry>) {
    function JobOf(t: Thread): Job {
      if t in jobs then jobs[t] else NoJob
    }

    function CellOf(ref: string): Cell {
      if ref in cells then cells[ref] else NOTHING
    }

    function Goto(t: Thread, job: Job): Sys {
      this.(jobs := jobs[t := job])
    }

    function SetCell(ref: string, c: Cell): Sys {
      this.(cells := cells[ref := c])
    }

    /** The call takes effect: it enters the log with its answer. */
    function Answer(t: Thread, req: Request, since: nat, io: Io, r: Response): Sys {
      this.(log := log + [Entry(t, req, io, r)]).Goto(t, Done(req, since, |log|))
    }
  }

  /** Inside a section, past the check. */
  predicate Busy(job: Job) {
    job.AtArchive? || job.AtBackup? || job.AtQueue? || job.AtWrite? || job.AtIndex?
  }

  predicate BusyOn(s: Sys, t: Thread, ref: string) {
    Busy(s.JobOf(t)) && s.JobOf(t).req.Key() == ref
  }

  /** The choices the environment makes: which request arrives, how each file operation turns out. */
  datatype Label =
    | Call(req: Request)
    | Lock                 // a step of the keyed mutex
    | Check(read: bool)
    | TryArchive(ok: bool)
    | TryBackup(ok: bool)
    | TryQueue(ok: bool)
    | TryWrite(outcome: WriteIo)
    | UpdateIndex
    | Unlock

  predicate HasLock(s: Sys, t: Thread) {
    s.mutex.At(t).Inside?
  }

  predicate Enabled(s: Sys, t: Thread, l: Label) {
    var job := s.JobOf(t);
    match l
    case Call(req) => (job.NoJob? || job.Returned?) && s.mutex.At(t).Idle? && req.Admissible()
    case Lock => KM.Enabled(s.mutex, t, KM.Advance)
    case Check(_) => job.Called? && HasLock(s, t)
    case TryArchive(_) => job.AtArchive?
    case TryBackup(_) => job.AtBackup?
    case TryQueue(_) => job.AtQueue?
    case TryWrite(_) => job.AtWrite?
    case UpdateIndex => job.AtIndex?
    case Unlock => job.Done? && HasLock(s, t)
  }

  /** The step after the check, or after the backup attempt, when the section goes on to store. */
  function AfterBackup(req: Request, since: nat, io: Io): Job {
    if req.kind.OfflinePut? then AtQueue(req, since, io) else AtWrite(req, since, io)
  }

  function Step(s: Sys, t: Thread, l: Label, backups: bool): Sys {
    var job := s.JobOf(t);
    match l
    case Call(req) =>
      s.(mutex := KM.Step(s.mutex, t, KM.CallLock(req.Key()))).Goto(t, Called(req, |s.log|))
    case Lock =>
      var m := KM.Step(s.mutex, t, KM.Advance);
      if m.At(t).Idle? && job.Done? then s.(mutex := m).Goto(t, Returned(job.req, job.since, job.position))
      else s.(mutex := m)
    case Check(read) =>
      if !job.Called? then s else
        var c := s.CellOf(job.req.Key());
        var io := SMOOTH.(read := read);
        (match Decide(c, job.req, read)
         case Answer(r) => s.Answer(t, job.req, job.since, io, r)
         case Archive => s.Goto(t, AtArchive(job.req, job.since, io))
         case Store => s.Goto(t, if c.meta.Some? then AtBackup(job.req, job.since, io)
             else AfterBackup(job.req, job.since, io)))
    case TryArchive(ok) =>
      if !job.AtArchive? then s
      else s.Answer(t, job.req, job.since, job.io.(archive := ok), if ok then ConflictKept else IoError)
    case TryBackup(ok) =>
      if !job.AtBackup? then s else
        var c := s.CellOf(job.req.Key());
        var io := job.io.(backup := ok);
        if BackupAborts(c, job.req, ok, backups) then s.Answer(t, job.req, job.since, io, IoError)
        else s.SetCell(job.req.Key(), Backed(c, ok, backups)).Goto(t, AfterBackup(job.req, job.since, io))
    case TryQueue(ok) =>
      if !job.AtQueue? then s else
        var io := job.io.(queue := ok);
        if ok then s.Goto(t, AtWrite(job.req, job.since, io)) else s.Answer(t, job.req, job.since, io, IoError)
    case TryWrite(outcome) =>
      if !job.AtWrite? then s else
        var c := s.CellOf(job.req.Key());
        var io := job.io.(write := outcome);
        (match outcome
         case Written => s.SetCell(job.req.Key(), c.(live := Some(job.req.body))).Goto(t,
             AtIndex(job.req, job.since, io))
         case NotWritten => s.Answer(t, job.req, job.since, io, IoError)
         case WrittenThenFailed => s.SetCell(job.req.Key(), c.(live := Some(job.req.body))).Answer(t, job.req,
             job.since, io, IoError))
    case UpdateIndex =>
      if !job.AtIndex? then s else
        var c := s.CellOf(job.req.Key());
        s.SetCell(job.req.Key(), c.(meta := Some(job.req.body.AsMeta()))).Answer(t, job.req, job.since, job.io,
            Committed)
    case Unlock => s.(mutex := KM.Step(s.mutex, t, KM.CallUnlock))
  }

  // ---- The serial specification ----

  /** The cell of `ref` after the logged sections run one at a time, in log order. */
  function Replay(initial: map<string, Cell>, log: seq<Entry>, ref: string, backups: bool): Cell
    decreases |log|
  {
    if log == [] then (if ref in initial then initial[ref] else NOTHING)
    else
      var before := Replay(initial, log[..|log| - 1], ref, backups);
      var last := log[|log| - 1];
      if last.req.Key() == ref then Section(before, last.req, last.io, backups).0 else before
  }

  /** Every logged answer is the one its section gives when run alone at its place in the log. */
  ghost predicate Serial(initial: map<string, Cell>, log: seq<Entry>, backups: bool) {
    forall i | 0 <= i < |log| ::
      log[i].response == Section(Replay(initial, log[..i], log[i].req.Key(), backups), log[i].req, log[i].io, backups).1
  }

  lemma ReplayAppend(initial: map<string, Cell>, log: seq<Entry>, e: Entry, ref: string, backups: bool)
    ensures Replay(initial, log + [e], ref, backups) ==
            var before := Replay(initial, log, ref, backups);
            if e.req.Key() == ref then Section(before, e.req, e.io, backups).0 else before
  {
    assert (log + [e])[..|log|] == log;
  }

  lemma SerialAppend(initial: map<string, Cell>, log: seq<Entry>, e: Entry, backups: bool)
    requires Serial(initial, log, backups)
    requires e.response == Section(Replay(initial, log, e.req.Key(), backups), e.req, e.io, backups).1
    ensures Serial(initial, log + [e], backups)
  {
    var log' := log + [e];
    forall i | 0 <= i < |log'|
      ensures log'[i].response == Section(Replay(initial, log'[..i], log'[i].req.Key(), backups), log'[i].req,
              log'[i].io, backups).1
    {
      assert i < |log| ==> log'[..i] == log[..i];
      assert i == |log| ==> log'[..i] == log;
    }
  }

  // ---- The invariant ----

  /** The mutex position a job goes with. */
  predicate LockMatches(s: Sys, t: Thread) {
    var job, pc := s.JobOf(t), s.mutex.At(t);
    match job
    case NoJob => pc.Idle?
    case Returned(_, _, _) => pc.Idle?
    case Called(req, _) =>
      (KM.Entering(pc) || pc.Inside?) && pc.key == req.Key()
    case Done(req, _, _) =>
      (pc.Inside? || KM.Leaving(pc)) && pc.key == req.Key()
    case _ => pc.Inside? && pc.key == job.req.Key()
  }

  /** How far a busy job has changed the cell it found, `c0`. */
  predicate Partial(job: Job, c0: Cell, c: Cell, backups: bool)
    requires Busy(job)
  {
    match job
    case AtArchive(req, _, io) => Decide(c0, req, io.read) == Archive && c == c0 && io == SMOOTH.(read := io.read)
    case AtBackup(req, _, io) => Decide(c0, req, io.read) == Store && c == c0 && io == SMOOTH.(read := io.read)
    case AtQueue(req, _, io) =>
      Decide(c0, req, io.read) == Store && c == Backed(c0, io.backup, backups)
          && io == SMOOTH.(read := io.read, backup := io.backup) && req.kind.OfflinePut?
    case AtWrite(req, _, io) =>
      && Decide(c0, req, io.read) == Store && c == Backed(c0, io.backup, backups)
         && !BackupAborts(c0, req, io.backup, backups)
      && io == SMOOTH.(read := io.read, backup := io.backup)
    case AtIndex(req, _, io) =>
      && Decide(c0, req, io.read) == Store && c == Backed(c0, io.backup, backups).(live := Some(req.body))
      && !BackupAborts(c0, req, io.backup, backups) && io == SMOOTH.(read := io.read, backup := io.backup)
  }

  datatype Config = Config(initial: map<string, Cell>, backups: bool) {
    function Serially(s: Sys, ref: string): Cell {
      Replay(initial, s.log, ref, backups)
    }
  }

  ghost predicate JobInv(cfg: Config, s: Sys, t: Thread) {
    var job := s.JobOf(t);
    && LockMatches(s, t)
    && (!job.NoJob? ==> job.req.Admissible() && job.since <= |s.log|)
    && (Busy(job) ==> Partial(job, cfg.Serially(s, job.req.Key()), s.CellOf(job.req.Key()), cfg.backups))
    && (job.Done? || job.Returned? ==>
          job.since <= job.position < |s.log| && s.log[job.position].req == job.req && s.log[job.position].thread == t)
  }

  ghost predicate RefInv(cfg: Config, s: Sys, ref: string) {
    (forall t :: !BusyOn(s, t, ref)) ==> s.CellOf(ref) == cfg.Serially(s, ref)
  }

  ghost predicate Inv(cfg: Config, s: Sys) {
    && KM.Inv(s.mutex)
    && Serial(cfg.initial, s.log, cfg.backups)
    && (forall t :: JobInv(cfg, s, t))
    && (forall ref :: RefInv(cfg, s, ref))
  }

  function Start(cfg: Config): Sys {
    Sys(KM.EMPTY, cfg.initial, map[], [])
  }

  lemma InvInitial(cfg: Config)
    ensures Inv(cfg, Start(cfg))
  {
    KM.InvInitial();
  }

  /** Only one thread can be busy on a ref. */
  lemma OneBusy(cfg: Config, s: Sys, t: Thread, u: Thread)
    requires Inv(cfg, s) && HasLock(s, t) && (s.JobOf(t).Called? || Busy(s.JobOf(t)))
             && BusyOn(s, u, s.JobOf(t).req.Key())
    ensures t == u
  {
    assert JobInv(cfg, s, t) && JobInv(cfg, s, u);
    KM.Exclusive(s.mutex, t, u, s.JobOf(t).req.Key());
  }

  /** A thread that has the lock and has not touched its cell finds the serial cell there. */
  lemma FindsSerialCell(cfg: Config, s: Sys, t: Thread)
    requires Inv(cfg, s) && HasLock(s, t) && s.JobOf(t).Called?
    ensures s.CellOf(s.JobOf(t).req.Key()) == cfg.Serially(s, s.JobOf(t).req.Key())
  {
    var key := s.JobOf(t).req.Key();
    forall u ensures !BusyOn(s, u, key) {
      if BusyOn(s, u, key) { OneBusy(cfg, s, t, u); }
    }
    assert RefInv(cfg, s, key);
  }

  /** Either nothing is logged, or one call of thread t's request. */
  predicate Extends(log: seq<Entry>, log': seq<Entry>, req: Request) {
    log' == log || (|log'| == |log| + 1 && log'[..|log|] == log && log'[|log|].req == req)
  }

  lemma OthersUntouched(cfg: Config, s: Sys, s': Sys, req: Request, ref: string)
    requires Extends(s.log, s'.log, req) && ref != req.Key()
    ensures cfg.Serially(s', ref) == cfg.Serially(s, ref)
  {
    if s'.log != s.log {
      assert s'.log == s.log + [s'.log[|s.log|]];
      ReplayAppend(cfg.initial, s.log, s'.log[|s.log|], ref, cfg.backups);
    }
  }

  /** A step inside a section disturbs no other thread and no other ref. */
  lemma LocalStep(cfg: Config, s: Sys, t: Thread, s': Sys)
    requires Inv(cfg, s) && HasLock(s, t) && (s.JobOf(t).Called? || Busy(s.JobOf(t)))
    requires s'.mutex == s.mutex && s'.jobs == s.jobs[t := s'.JobOf(t)]
    requires var key := s.JobOf(t).req.Key();
             && (forall r | r != key :: s'.CellOf(r) == s.CellOf(r))
             && (!Busy(s'.JobOf(t)) ==> s'.CellOf(key) == cfg.Serially(s', key))
    requires !s'.JobOf(t).NoJob? && s'.JobOf(t).req == s.JobOf(t).req
    requires Extends(s.log, s'.log, s.JobOf(t).req) && Serial(cfg.initial, s'.log, cfg.backups)
    requires JobInv(cfg, s', t)
    ensures Inv(cfg, s')
  {
    var req := s.JobOf(t).req;
    forall u ensures JobInv(cfg, s', u) {
      if u != t {
        assert JobInv(cfg, s, u);
        if Busy(s.JobOf(u)) {
          if s.JobOf(u).req.Key() == req.Key() { OneBusy(cfg, s, t, u); }
          OthersUntouched(cfg, s, s', req, s.JobOf(u).req.Key());
        }
      }
    }
    forall r ensures RefInv(cfg, s', r) {
      assert RefInv(cfg, s, r);
      if r != req.Key() {
        OthersUntouched(cfg, s, s', req, r);
        if exists u :: BusyOn(s, u, r) {
          var u :| BusyOn(s, u, r);
          assert u != t && BusyOn(s', u, r);
        }
      } else if Busy(s'.JobOf(t)) {
        assert BusyOn(s', t, r);
      }
    }
  }

  /** Moving on inside the section without answering. */
  lemma GoesOn(cfg: Config, s: Sys, t: Thread, s': Sys, c: Cell, job: Job)
    requires Inv(cfg, s) && HasLock(s, t) && (s.JobOf(t).Called? || Busy(s.JobOf(t)))
    requires Busy(job) && job.req == s.JobOf(t).req && job.since == s.JobOf(t).since
    requires s' == s.SetCell(job.req.Key(), c).Goto(t, job) || (s' == s.Goto(t, job) && c == s.CellOf(job.req.Key()))
    requires Partial(job, cfg.Serially(s, job.req.Key()), c, cfg.backups)
    ensures Inv(cfg, s')
  {
    assert JobInv(cfg, s, t);
    assert JobInv(cfg, s', t);
    LocalStep(cfg, s, t, s');
  }

  /** Logging a call with the answer of its section keeps the log serial and moves the serial cell. */
  lemma LoggedSerially(cfg: Config, s: Sys, s': Sys, e: Entry, c: Cell)
    requires Serial(cfg.initial, s.log, cfg.backups) && s'.log == s.log + [e]
    requires (c, e.response) == Section(cfg.Serially(s, e.req.Key()), e.req, e.io, cfg.backups)
    ensures Serial(cfg.initial, s'.log, cfg.backups) && cfg.Serially(s', e.req.Key()) == c
    ensures Extends(s.log, s'.log, e.req)
  {
    ReplayAppend(cfg.initial, s.log, e, e.req.Key(), cfg.backups);
    SerialAppend(cfg.initial, s.log, e, cfg.backups);
  }

  lemma AnsweredJob(cfg: Config, s: Sys, t: Thread, s': Sys, e: Entry)
    requires JobInv(cfg, s, t) && HasLock(s, t) && (s.JobOf(t).Called? || Busy(s.JobOf(t)))
    requires s'.mutex == s.mutex && s'.log == s.log + [e] && e.thread == t && e.req == s.JobOf(t).req
    requires s'.JobOf(t) == Done(e.req, s.JobOf(t).since, |s.log|)
    ensures JobInv(cfg, s', t)
  {
  }

  /** An answer with the cell it leaves: nothing else of the state is touched. */
  predicate AnswersWith(s: Sys, t: Thread, s': Sys, req: Request, since: nat, c: Cell, io: Io, r: Response) {
    || s' == s.SetCell(req.Key(), c).Answer(t, req, since, io, r)
    || (s' == s.Answer(t, req, since, io, r) && c == s.CellOf(req.Key()))
  }

  lemma AnswerFrame(s: Sys, t: Thread, s': Sys, req: Request, since: nat, c: Cell, io: Io, r: Response)
    requires AnswersWith(s, t, s', req, since, c, io, r)
    ensures s'.mutex == s.mutex && s'.jobs == s.jobs[t := s'.JobOf(t)] && s'.log == s.log + [Entry(t, req, io, r)]
    ensures s'.JobOf(t) == Done(req, since, |s.log|) && s'.CellOf(req.Key()) == c
    ensures forall k | k != req.Key() :: s'.CellOf(k) == s.CellOf(k)
  {
  }

  /** Answering: the call enters the log with the answer, and the cell, of its section run alone. */
  lemma Answers(cfg: Config, s: Sys, t: Thread, s': Sys, c: Cell, io: Io, r: Response)
    requires Inv(cfg, s) && HasLock(s, t) && (s.JobOf(t).Called? || Busy(s.JobOf(t)))
    requires AnswersWith(s, t, s', s.JobOf(t).req, s.JobOf(t).since, c, io, r)
    requires (c, r) == Section(cfg.Serially(s, s.JobOf(t).req.Key()), s.JobOf(t).req, io, cfg.backups)
    ensures Inv(cfg, s')
  {
    var e := Entry(t, s.JobOf(t).req, io, r);
    AnswerFrame(s, t, s', s.JobOf(t).req, s.JobOf(t).since, c, io, r);
    assert JobInv(cfg, s, t);
    LoggedSerially(cfg, s, s', e, c);
    AnsweredJob(cfg, s, t, s', e);
    LocalStep(cfg, s, t, s');
  }

  lemma CheckStep(cfg: Config, s: Sys, t: Thread, read: bool)
    requires Inv(cfg, s) && Enabled(s, t, Check(read))
    ensures Inv(cfg, Step(s, t, Check(read), cfg.backups))
  {
    var job := s.JobOf(t);
    var c, io := s.CellOf(job.req.Key()), SMOOTH.(read := read);
    var s' := Step(s, t, Check(read), cfg.backups);
    FindsSerialCell(cfg, s, t);
    match Decide(c, job.req, read)
    case Answer(r) => Answers(cfg, s, t, s', c, io, r);
    case Archive => GoesOn(cfg, s, t, s', c, AtArchive(job.req, job.since, io));
    case Store => GoesOn(cfg, s, t, s', c, s'.JobOf(t));
  }

  lemma FileStep(cfg: Config, s: Sys, t: Thread, l: Label)
    requires Inv(cfg, s) && Enabled(s, t, l) && (l.TryArchive? || l.TryBackup? || l.TryQueue?)
    ensures Inv(cfg, Step(s, t, l, cfg.backups))
  {
    var job := s.JobOf(t);
    assert JobInv(cfg, s, t);
    var c0, c := cfg.Serially(s, job.req.Key()), s.CellOf(job.req.Key());
    var s' := Step(s, t, l, cfg.backups);
    match l
    case TryArchive(ok) =>
      Answers(cfg, s, t, s', c, job.io.(archive := ok), if ok then ConflictKept else IoError);
    case TryBackup(ok) =>
      if BackupAborts(c, job.req, ok, cfg.backups) {
        Answers(cfg, s, t, s', c, job.io.(backup := ok), IoError);
      } else {
        GoesOn(cfg, s, t, s', Backed(c, ok, cfg.backups), s'.JobOf(t));
      }
    case TryQueue(ok) =>
      if ok {
        GoesOn(cfg, s, t, s', c, s'.JobOf(t));
      } else {
        Answers(cfg, s, t, s', c, job.io.(queue := ok), IoError);
      }
  }

  lemma StoreStep(cfg: Config, s: Sys, t: Thread, l: Label)
    requires Inv(cfg, s) && Enabled(s, t, l) && (l.TryWrite? || l.UpdateIndex?)
    ensures Inv(cfg, Step(s, t, l, cfg.backups))
  {
    var job := s.JobOf(t);
    assert JobInv(cfg, s, t);
    var c := s.CellOf(job.req.Key());
    var s' := Step(s, t, l, cfg.backups);
    match l
    case TryWrite(outcome) =>
      var io := job.io.(write := outcome);
      match outcome {
       case Written => GoesOn(cfg, s, t, s', c.(live := Some(job.req.body)), s'.JobOf(t));
       case NotWritten => Answers(cfg, s, t, s', c, io, IoError);
       case WrittenThenFailed => Answers(cfg, s, t, s', c.(live := Some(job.req.body)), io, IoError);
      }
    case UpdateIndex =>
      Answers(cfg, s, t, s', c.(meta := Some(job.req.body.AsMeta())), job.io, Committed);
  }

  /** Taking and releasing the lock, and new requests, touch no cell and no log entry. */
  lemma LockStep(cfg: Config, s: Sys, t: Thread, s': Sys)
    requires Inv(cfg, s) && KM.Inv(s'.mutex) && !Busy(s.JobOf(t)) && !Busy(s'.JobOf(t))
    requires s'.cells == s.cells && s'.log == s.log
    requires forall u | u != t :: s'.JobOf(u) == s.JobOf(u) && s'.mutex.At(u) == s.mutex.At(u)
    requires JobInv(cfg, s', t)
    ensures Inv(cfg, s')
  {
    forall u ensures JobInv(cfg, s', u) {
      assert JobInv(cfg, s, u);
    }
    forall r ensures RefInv(cfg, s', r) {
      assert RefInv(cfg, s, r);
      if exists u :: BusyOn(s, u, r) {
        var u :| BusyOn(s, u, r);
        assert BusyOn(s', u, r);
      }
    }
  }

  lemma CallStep(cfg: Config, s: Sys, t: Thread, req: Request)
    requires Inv(cfg, s) && Enabled(s, t, Call(req))
    ensures Inv(cfg, Step(s, t, Call(req), cfg.backups))
  {
    KM.InvStep(s.mutex, t, KM.CallLock(req.Key()));
    LockStep(cfg, s, t, Step(s, t, Call(req), cfg.backups));
  }

  lemma UnlockStep(cfg: Config, s: Sys, t: Thread)
    requires Inv(cfg, s) && Enabled(s, t, Unlock)
    ensures Inv(cfg, Step(s, t, Unlock, cfg.backups))
  {
    assert JobInv(cfg, s, t);
    KM.InvStep(s.mutex, t, KM.CallUnlock);
    LockStep(cfg, s, t, Step(s, t, Unlock, cfg.backups));
  }

  lemma AdvanceStep(cfg: Config, s: Sys, t: Thread)
    requires Inv(cfg, s) && Enabled(s, t, Lock)
    ensures Inv(cfg, Step(s, t, Lock, cfg.backups))
  {
    var s' := Step(s, t, Lock, cfg.backups);
    assert JobInv(cfg, s, t);
    KM.InvStep(s.mutex, t, KM.Advance);
    KM.Forward(s.mutex, t);
    LockStep(cfg, s, t, s');
  }

  lemma InvStep(cfg: Config, s: Sys, t: Thread, l: Label)
    requires Inv(cfg, s) && Enabled(s, t, l)
    ensures Inv(cfg, Step(s, t, l, cfg.backups))
  {
    match l
    case Check(read) => CheckStep(cfg, s, t, read);
    case TryArchive(_) => FileStep(cfg, s, t, l);
    case TryBackup(_) => FileStep(cfg, s, t, l);
    case TryQueue(_) => FileStep(cfg, s, t, l);
    case TryWrite(_) => StoreStep(cfg, s, t, l);
    case UpdateIndex => StoreStep(cfg, s, t, l);
    case Call(req) => CallStep(cfg, s, t, req);
    case Lock => AdvanceStep(cfg, s, t);
    case Unlock => UnlockStep(cfg, s, t);
  }

  // ---- Runs ----

  datatype Move = Move(thread: Thread, step: Label)

  predicate Schedule(s: Sys, moves: seq<Move>, backups: bool)
    decreases moves
  {
    moves != [] ==>
      && Enabled(s, moves[0].thread, moves[0].step)
      && Schedule(Step(s, moves[0].thread, moves[0].step, backups), moves[1..], backups)
  }

  function Run(s: Sys, moves: seq<Move>, backups: bool): Sys
    decreases moves
  {
    if moves == [] then s else Run(Step(s, moves[0].thread, moves[0].step, backups), moves[1..], backups)
  }

  lemma {:induction false} RunSplit(s: Sys, a: seq<Move>, b: seq<Move>, backups: bool)
    ensures Schedule(s, a + b, backups) <==> Schedule(s, a, backups) && Schedule(Run(s, a, backups), b, backups)
    ensures Run(s, a + b, backups) == Run(Run(s, a, backups), b, backups)
    decreases a
  {
    if a == [] {
      assert a + b == b;
    } else {
      assert (a + b)[0] == a[0] && (a + b)[1..] == a[1..] + b;
      RunSplit(Step(s, a[0].thread, a[0].step, backups), a[1..], b, backups);
    }
  }

  lemma {:induction false} InvRun(cfg: Config, s: Sys, moves: seq<Move>)
    requires Inv(cfg, s) && Schedule(s, moves, cfg.backups)
    ensures Inv(cfg, Run(s, moves, cfg.backups))
    decreases moves
  {
    if moves != [] {
      InvStep(cfg, s, moves[0].thread, moves[0].step);
      InvRun(cfg, Step(s, moves[0].thread, moves[0].step, cfg.backups), moves[1..]);
    }
  }

  // ---- The log holds the calls that were made, and no others ----

  /** The logged requests of one thread, in log order. */
  function Logged(log: seq<Entry>, t: Thread): seq<Request>
    decreases |log|
  {
    if log == [] then []
    else
      var last := log[|log| - 1];
      Logged(log[..|log| - 1], t) + (if last.thread == t then [last.req] else [])
  }

  /** The request a thread is serving without having answered it. */
  function Pending(s: Sys, t: Thread): seq<Request> {
    var job := s.JobOf(t);
    if job.Called? || Busy(job) then [job.req] else []
  }

  /** The request a step brings to thread u. */
  function CalledBy(t: Thread, l: Label, u: Thread): seq<Request> {
    if t == u && l.Call? then [l.req] else []
  }

  /** The requests that arrive at one thread during a run. */
  function CallsOf(moves: seq<Move>, t: Thread): seq<Request>
    decreases moves
  {
    if moves == [] then [] else CalledBy(moves[0].thread, moves[0].step, t) + CallsOf(moves[1..], t)
  }

  lemma LoggedAppend(log: seq<Entry>, e: Entry, t: Thread)
    ensures Logged(log + [e], t) == Logged(log, t) + (if e.thread == t then [e.req] else [])
  {
    assert (log + [e])[..|log|] == log;
  }

  /** What a step does to the log and to its own thread's pending request. */
  lemma StepAnswers(s: Sys, t: Thread, l: Label, backups: bool)
    requires Enabled(s, t, l)
    ensures var s' := Step(s, t, l, backups);
            if s'.log == s.log then Pending(s', t) == Pending(s, t) + (if l.Call? then [l.req] else [])
            else |s'.log| == |s.log| + 1 && s'.log == s.log + [s'.log[|s.log|]] && !l.Call?
                 && s'.log[|s.log|].thread == t && Pending(s, t) == [s'.log[|s.log|].req] && Pending(s', t) == []
  {
  }

  /** All requests of a thread that have arrived: those in the log and the one not yet answered. */
  function Arrived(s: Sys, t: Thread): seq<Request> {
    Logged(s.log, t) + Pending(s, t)
  }

  lemma Assoc(a: seq<Request>, b: seq<Request>, c: seq<Request>)
    ensures (a + b) + c == a + (b + c)
  {
  }

  lemma OwnStepKeepsCalls(s: Sys, t: Thread, l: Label, backups: bool)
    requires Enabled(s, t, l)
    ensures Arrived(Step(s, t, l, backups), t) == Arrived(s, t) + CalledBy(t, l, t)
  {
    var s' := Step(s, t, l, backups);
    StepAnswers(s, t, l, backups);
    if s'.log == s.log {
      Assoc(Logged(s.log, t), Pending(s, t), CalledBy(t, l, t));
    } else {
      LoggedAppend(s.log, s'.log[|s.log|], t);
    }
  }

  lemma OtherStepKeepsCalls(s: Sys, t: Thread, l: Label, u: Thread, backups: bool)
    requires Enabled(s, t, l) && u != t
    ensures Arrived(Step(s, t, l, backups), u) == Arrived(s, u)
  {
    var s' := Step(s, t, l, backups);
    StepAnswers(s, t, l, backups);
    StepJobs(s, t, l, backups);
    if s'.log != s.log {
      LoggedAppend(s.log, s'.log[|s.log|], u);
    }
  }

  lemma StepKeepsCalls(s: Sys, t: Thread, l: Label, u: Thread, backups: bool)
    requires Enabled(s, t, l)
    ensures Arrived(Step(s, t, l, backups), u) == Arrived(s, u) + CalledBy(t, l, u)
  {
    if u == t { OwnStepKeepsCalls(s, t, l, backups); } else { OtherStepKeepsCalls(s, t, l, u, backups); }
  }

  lemma {:induction false} RunKeepsCalls(s: Sys, moves: seq<Move>, t: Thread, backups: bool)
    requires Schedule(s, moves, backups)
    ensures Arrived(Run(s, moves, backups), t) == Arrived(s, t) + CallsOf(moves, t)
    decreases moves
  {
    if moves != [] {
      var u, l := moves[0].thread, moves[0].step;
      StepKeepsCalls(s, u, l, t, backups);
      RunKeepsCalls(Step(s, u, l, backups), moves[1..], t, backups);
      Assoc(Arrived(s, t), CalledBy(u, l, t), CallsOf(moves[1..], t));
    }
  }

  /** Outside running sections the volume is what the serial order leaves behind. */
  ghost predicate IdleIsSerial(cfg: Config, s: Sys) {
    forall ref | (forall t :: !BusyOn(s, t, ref)) :: s.CellOf(ref) == Replay(cfg.initial, s.log, ref, cfg.backups)
  }

  /** Every finished call owns one entry of the log, placed after the call's arrival. */
  ghost predicate FinishedAreLogged(s: Sys) {
    forall t | s.JobOf(t).Done? || s.JobOf(t).Returned? ::
      var job := s.JobOf(t);
      job.since <= job.position < |s.log| && s.log[job.position].thread == t && s.log[job.position].req == job.req
  }

  lemma InvMeansSerial(cfg: Config, s: Sys)
    requires Inv(cfg, s)
    ensures IdleIsSerial(cfg, s) && FinishedAreLogged(s)
    ensures forall t, u, ref | BusyOn(s, t, ref) && BusyOn(s, u, ref) :: t == u
  {
    forall ref | (forall t :: !BusyOn(s, t, ref))
        ensures s.CellOf(ref) == Replay(cfg.initial, s.log, ref, cfg.backups) {
      assert RefInv(cfg, s, ref);
    }
    forall t | s.JobOf(t).Done? || s.JobOf(t).Returned?
      ensures var job := s.JobOf(t);
              job.since <= job.position < |s.log| && s.log[job.position].thread == t
                  && s.log[job.position].req == job.req
    {
      assert JobInv(cfg, s, t);
    }
    forall t, u, ref | BusyOn(s, t, ref) && BusyOn(s, u, ref) ensures t == u {
      assert JobInv(cfg, s, t);
      OneBusy(cfg, s, t, u);
    }
  }

  /** Every interleaving is a serial order of the calls that were made: each thread's calls, in the
      order they arrived, are its logged requests followed by the one still unanswered, if any; the
      log is a sequence of whole sections whose answers are the ones given; each finished call's
      entry comes after the call's arrival; and outside running sections, of which there is at most
      one for each ref, the volume is what that order leaves behind. */
  lemma Linearizable(cfg: Config, moves: seq<Move>)
    requires Schedule(Start(cfg), moves, cfg.backups)
    ensures var s := Run(Start(cfg), moves, cfg.backups);
            && (forall t :: Arrived(s, t) == CallsOf(moves, t))
            && Serial(cfg.initial, s.log, cfg.backups)
            && FinishedAreLogged(s) && IdleIsSerial(cfg, s)
            && (forall t, u, ref | BusyOn(s, t, ref) && BusyOn(s, u, ref) :: t == u)
  {
    var s := Run(Start(cfg), moves, cfg.backups);
    InvInitial(cfg);
    InvRun(cfg, Start(cfg), moves);
    InvMeansSerial(cfg, s);
    forall t ensures Arrived(s, t) == CallsOf(moves, t) {
      RunKeepsCalls(Start(cfg), moves, t, cfg.backups);
    }
  }

  predicate NoCallBy(moves: seq<Move>, u: Thread) {
    forall i | 0 <= i < |moves| :: moves[i].thread == u ==> !moves[i].step.Call?
  }

  predicate InWrite(job: Job) {
    job.AtWrite? || job.AtIndex?
  }

  /** A step moves its own thread only, and only a call changes which request that thread serves. */
  lemma StepJobs(s: Sys, t: Thread, l: Label, backups: bool)
    requires Enabled(s, t, l)
    ensures var s' := Step(s, t, l, backups);
            && (forall u | u != t :: s'.JobOf(u) == s.JobOf(u))
            && (l.Call? ==> s'.JobOf(t) == Called(l.req, |s.log|))
            && (!l.Call? && s.JobOf(t).NoJob? ==> s'.JobOf(t).NoJob?)
            && (!l.Call? && !s.JobOf(t).NoJob? ==> !s'.JobOf(t).NoJob? && s'.JobOf(t).req == s.JobOf(t).req)
  {
  }

  lemma StepKeepsStages(s: Sys, t: Thread, l: Label, backups: bool)
    requires Enabled(s, t, l)
    ensures var s' := Step(s, t, l, backups);
            && (l != TryQueue(true) && InWrite(s'.JobOf(t)) && s'.JobOf(t).req.kind.OfflinePut? ==> InWrite(s.JobOf(t)))
            && (s'.JobOf(t).AtQueue? && !s.JobOf(t).AtQueue? ==> s'.JobOf(t).req.kind.OfflinePut?)
  {
  }

  /** A step logs at most one entry, at the end. */
  lemma StepLogs(s: Sys, t: Thread, l: Label, backups: bool)
    requires Enabled(s, t, l)
    ensures var s' := Step(s, t, l, backups);
            s'.log == s.log || (s'.log != [] && s'.log == s.log + [s'.log[|s'.log| - 1]])
  {
  }

  lemma {:induction false} LogGrows(s: Sys, moves: seq<Move>, backups: bool)
    requires Schedule(s, moves, backups)
    ensures s.log <= Run(s, moves, backups).log
    decreases moves
  {
    if moves != [] {
      StepLogs(s, moves[0].thread, moves[0].step, backups);
      LogGrows(Step(s, moves[0].thread, moves[0].step, backups), moves[1..], backups);
    }
  }

  lemma StepKeepsArrival(s: Sys, u: Thread, t: Thread, l: Label, backups: bool)
    requires Enabled(s, t, l) && (t == u ==> !l.Call?) && !s.JobOf(u).NoJob?
    ensures var s' := Step(s, t, l, backups);
            !s'.JobOf(u).NoJob? && s'.JobOf(u).since == s.JobOf(u).since && s.log <= s'.log
  {
  }

  /** The log only grows, and a call keeps its arrival time until it has returned. */
  lemma {:induction false} CallKeepsArrival(s: Sys, u: Thread, moves: seq<Move>, backups: bool)
    requires Schedule(s, moves, backups) && NoCallBy(moves, u) && !s.JobOf(u).NoJob?
    ensures var s' := Run(s, moves, backups);
            !s'.JobOf(u).NoJob? && s'.JobOf(u).since == s.JobOf(u).since && s.log <= s'.log
    decreases moves
  {
    if moves != [] {
      StepKeepsArrival(s, u, moves[0].thread, moves[0].step, backups);
      assert NoCallBy(moves[1..], u);
      CallKeepsArrival(Step(s, moves[0].thread, moves[0].step, backups), u, moves[1..], backups);
    }
  }

  /** The serial order respects real time: a call that arrives after another has returned comes later in the log. */
  lemma RealTimeOrder(cfg: Config, s: Sys, t: Thread, u: Thread, req: Request, moves: seq<Move>)
    requires Inv(cfg, s) && s.JobOf(t).Returned? && Enabled(s, u, Call(req))
    requires Schedule(Step(s, u, Call(req), cfg.backups), moves, cfg.backups) && NoCallBy(moves, u)
    ensures var s' := Run(Step(s, u, Call(req), cfg.backups), moves, cfg.backups);
            && s.log <= s'.log
            && (s'.JobOf(u).Done? || s'.JobOf(u).Returned? ==> s'.JobOf(u).position > s.JobOf(t).position)
  {
    var s1 := Step(s, u, Call(req), cfg.backups);
    var s' := Run(s1, moves, cfg.backups);
    assert JobInv(cfg, s, t);
    CallKeepsArrival(s1, u, moves, cfg.backups);
    InvStep(cfg, s, u, Call(req));
    InvRun(cfg, s1, moves);
    assert JobInv(cfg, s', u);
  }

  /** No deadlock: while a request is unanswered or still holds its lock, some thread can step. */
  lemma SomeoneCanMove(cfg: Config, s: Sys, t: Thread) returns (mover: Thread, l: Label)
    requires Inv(cfg, s) && !s.JobOf(t).NoJob? && !s.JobOf(t).Returned?
    ensures !l.Call? && Enabled(s, mover, l)
  {
    assert JobInv(cfg, s, t);
    mover := KM.SomeoneCanMove(s.mutex, t);
    assert JobInv(cfg, s, mover);
    if KM.Enabled(s.mutex, mover, KM.Advance) { return mover, Lock; }
    l := match s.JobOf(mover)
      case Called(_, _) => Check(true)
      case AtArchive(_, _, _) => TryArchive(true)
      case AtBackup(_, _, _) => TryBackup(true)
      case AtQueue(_, _, _) => TryQueue(true)
      case AtWrite(_, _, _) => TryWrite(Written)
      case AtIndex(_, _, _) => UpdateIndex
      case _ => Unlock;
  }

  // ---- Every request is short ----

  function StagesLeft(job: Job): nat {
    match job
    case NoJob => 0
    case Called(_, _) => 5
    case AtArchive(_, _, _) => 1
    case AtBackup(_, _, _) => 4
    case AtQueue(_, _, _) => 3
    case AtWrite(_, _, _) => 2
    case AtIndex(_, _, _) => 1
    case Done(_, _, _) => 0
    case Returned(_, _, _) => 0
  }

  /** A bound on the steps thread t has left in the request it serves. */
  function StepsLeft(s: Sys, t: Thread): nat {
    KM.StepsLeft(s.mutex.At(t)) + StagesLeft(s.JobOf(t))
  }

  lemma LockAdvances(cfg: Config, s: Sys, t: Thread, l: Label)
    requires Inv(cfg, s) && Enabled(s, t, l) && (l.Lock? || l.Unlock?)
    ensures StepsLeft(Step(s, t, l, cfg.backups), t) < StepsLeft(s, t)
    ensures forall u | u != t :: StepsLeft(Step(s, t, l, cfg.backups), u) == StepsLeft(s, u)
  {
    KM.EveryStepAdvances(s.mutex, t, if l.Lock? then KM.Advance else KM.CallUnlock);
  }

  lemma SectionAdvances(s: Sys, t: Thread, l: Label, backups: bool)
    requires Enabled(s, t, l) && !l.Call? && !l.Lock? && !l.Unlock?
    ensures var s' := Step(s, t, l, backups); s'.mutex == s.mutex && StagesLeft(s'.JobOf(t)) < StagesLeft(s.JobOf(t))
  {
  }

  lemma StepAdvances(cfg: Config, s: Sys, t: Thread, l: Label)
    requires Inv(cfg, s) && Enabled(s, t, l) && !l.Call?
    ensures StepsLeft(Step(s, t, l, cfg.backups), t) < StepsLeft(s, t)
    ensures forall u | u != t :: StepsLeft(Step(s, t, l, cfg.backups), u) == StepsLeft(s, u)
  {
    if l.Lock? || l.Unlock? {
      LockAdvances(cfg, s, t, l);
    } else {
      SectionAdvances(s, t, l, cfg.backups);
      StepJobs(s, t, l, cfg.backups);
    }
  }

  /** The moves of thread u. */
  function MovesBy(moves: seq<Move>, u: Thread): nat {
    if moves == [] then 0 else (if moves[0].thread == u then 1 else 0) + MovesBy(moves[1..], u)
  }

  lemma CallCosts(cfg: Config, s: Sys, t: Thread, req: Request)
    requires Enabled(s, t, Call(req))
    ensures StepsLeft(Step(s, t, Call(req), cfg.backups), t) == 17
    ensures forall u | u != t :: StepsLeft(Step(s, t, Call(req), cfg.backups), u) == StepsLeft(s, u)
  {
  }

  /** A request is never left running in circles: from any state of a run a thread that is not called
      again takes at most as many steps as it has left, which is seventeen after its call. With
      SomeoneCanMove, the requests that have arrived are all answered once no more arrive. */
  lemma {:induction false} RequestsAreShort(cfg: Config, s: Sys, u: Thread, moves: seq<Move>)
    requires Inv(cfg, s) && Schedule(s, moves, cfg.backups) && NoCallBy(moves, u)
    ensures MovesBy(moves, u) + StepsLeft(Run(s, moves, cfg.backups), u) <= StepsLeft(s, u)
    decreases moves
  {
    if moves != [] {
      var t, l := moves[0].thread, moves[0].step;
      if l.Call? { CallCosts(cfg, s, t, l.req); } else { StepAdvances(cfg, s, t, l); }
      InvStep(cfg, s, t, l);
      assert NoCallBy(moves[1..], u);
      RequestsAreShort(cfg, Step(s, t, l, cfg.backups), u, moves[1..]);
    }
  }
}
