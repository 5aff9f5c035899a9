/** The backup slots at every intermediate step of a run, running sections included: when they keep
    what they hold, and when what they hold has the revision they are named after (storage/store.go). */
module BackupSlots {
  import opened Decimal
  import opened Objects
  import opened WritePath
  import opened WriteSystem
  import opened WriteSafety

  /** What a move into a slot can do wrong: destroy what the slot holds, or file the object under a
      revision that is not its own. */
  datatype Fault = Overwriting | Mislabelling

  /** The live file of c does not belong in the slot of the indexed revision. */
  predicate Wrong(f: Fault, c: Cell) {
    && c.meta.Some? && c.live.Some?
    && var revision := c.meta.value.item.revision;
       match f
       case Overwriting => revision in c.bk && c.bk[revision] != c.live.value
       case Mislabelling => c.live.value.item.revision != revision
  }

  /** Finished call k moved such a file. */
  predicate FaultAt(f: Fault, cfg: Config, log: seq<Entry>, k: nat)
    requires k < |log|
  {
    var c := At(cfg, log, k, log[k].req.Key());
    Moves(c, log[k].req, log[k].io, cfg.backups) && Wrong(f, c)
  }

  predicate Logged(f: Fault, cfg: Config, log: seq<Entry>, ref: string) {
    exists k | 0 <= k < |log| :: log[k].req.Key() == ref && FaultAt(f, cfg, log, k)
  }

  /** A running section has moved such a file. */
  predicate FaultBy(f: Fault, cfg: Config, s: Sys, t: Thread, ref: string) {
    BusyOn(s, t, ref) && HasMoved(cfg, s.JobOf(t), cfg.Serially(s, ref)) && Wrong(f, cfg.Serially(s, ref))
  }

  ghost predicate Running(f: Fault, cfg: Config, s: Sys, ref: string) {
    exists t :: FaultBy(f, cfg, s, t, ref)
  }

  ghost predicate Faulty(f: Fault, cfg: Config, s: Sys, ref: string) {
    Logged(f, cfg, s.log, ref) || Running(f, cfg, s, ref)
  }

  // ---- One step ----

  /** The step moves the live file of the ref into its slot. */
  predicate MovesNow(s: Sys, t: Thread, l: Label, ref: string, backups: bool) {
    && l.TryBackup? && l.ok && s.JobOf(t).AtBackup? && s.JobOf(t).req.Key() == ref
    && s.CellOf(ref).meta.Some? && s.CellOf(ref).live.Some? && backups
  }

  predicate FaultNow(f: Fault, s: Sys, t: Thread, l: Label, ref: string, backups: bool) {
    MovesNow(s, t, l, ref, backups) && Wrong(f, s.CellOf(ref))
  }

  lemma SlotStep(s: Sys, t: Thread, l: Label, ref: string, backups: bool)
    requires Enabled(s, t, l)
    ensures var c, c' := s.CellOf(ref), Step(s, t, l, backups).CellOf(ref);
            c'.bk == if MovesNow(s, t, l, ref, backups) then c.bk[c.meta.value.item.revision := c.live.value] else c.bk
  {
  }

  lemma LabelStep(s: Sys, t: Thread, l: Label, ref: string, backups: bool)
    requires Enabled(s, t, l) && SlotsTrue(s.CellOf(ref))
    ensures SlotsTrue(Step(s, t, l, backups).CellOf(ref)) <==> !FaultNow(Mislabelling, s, t, l, ref, backups)
  {
    SlotStep(s, t, l, ref, backups);
    var c, c' := s.CellOf(ref), Step(s, t, l, backups).CellOf(ref);
    if MovesNow(s, t, l, ref, backups) {
      assert c.meta.value.item.revision in c'.bk;
    }
  }

  lemma KeepStep(s: Sys, t: Thread, l: Label, ref: string, backups: bool)
    requires Enabled(s, t, l)
    ensures KeepsSlots(s.CellOf(ref), Step(s, t, l, backups).CellOf(ref))
            <==> !FaultNow(Overwriting, s, t, l, ref, backups)
  {
    SlotStep(s, t, l, ref, backups);
    var c := s.CellOf(ref);
    if FaultNow(Overwriting, s, t, l, ref, backups) {
      assert c.meta.value.item.revision in c.bk;
    }
  }

  lemma LogStep(f: Fault, cfg: Config, log: seq<Entry>, e: Entry, ref: string)
    ensures var c0 := Replay(cfg.initial, log, ref, cfg.backups);
            Logged(f, cfg, log + [e], ref) <==>
            Logged(f, cfg, log, ref) || (e.req.Key() == ref && Moves(c0, e.req, e.io, cfg.backups) && Wrong(f, c0))
  {
    var log', n := log + [e], |log|;
    assert log'[..n] == log;
    forall k | 0 <= k < n ensures FaultAt(f, cfg, log', k) == FaultAt(f, cfg, log, k) {
      assert log'[..k] == log[..k];
    }
    if Logged(f, cfg, log, ref) {
      var k :| 0 <= k < n && log[k].req.Key() == ref && FaultAt(f, cfg, log, k);
      assert log'[k].req.Key() == ref && FaultAt(f, cfg, log', k);
    }
    if e.req.Key() == ref && FaultAt(f, cfg, log', n) {
      assert log'[n].req.Key() == ref;
    }
  }

  /** The fault of a section stays with it until its call takes it into the log. */
  ghost predicate Carries(f: Fault, cfg: Config, s: Sys, t: Thread, s': Sys, ref: string, fault: bool) {
    if s'.log == s.log then FaultBy(f, cfg, s', t, ref) <==> fault
    else
      && |s'.log| == |s.log| + 1
      && var e, c0 := s'.log[|s.log|], cfg.Serially(s, ref);
      && s'.log == s.log + [e] && e.req.Key() == ref && !Busy(s'.JobOf(t))
      && (Moves(c0, e.req, e.io, cfg.backups) && Wrong(f, c0) <==> fault)
  }

  lemma CheckCarries(f: Fault, cfg: Config, s: Sys, t: Thread, read: bool, ref: string)
    requires Inv(cfg, s) && Enabled(s, t, Check(read)) && s.JobOf(t).req.Key() == ref
    ensures Carries(f, cfg, s, t, Step(s, t, Check(read), cfg.backups), ref, false)
  {
    FindsSerialCell(cfg, s, t);
  }

  lemma BackupCarries(f: Fault, cfg: Config, s: Sys, t: Thread, ok: bool, ref: string)
    requires Inv(cfg, s) && Enabled(s, t, TryBackup(ok)) && s.JobOf(t).req.Key() == ref
    ensures Carries(f, cfg, s, t, Step(s, t, TryBackup(ok), cfg.backups), ref,
              FaultNow(f, s, t, TryBackup(ok), ref, cfg.backups))
  {
    assert JobInv(cfg, s, t);
  }

  lemma FileCarries(f: Fault, cfg: Config, s: Sys, t: Thread, l: Label, ref: string)
    requires Inv(cfg, s) && Enabled(s, t, l) && BusyOn(s, t, ref) && (l.TryArchive? || l.TryQueue?)
    ensures Carries(f, cfg, s, t, Step(s, t, l, cfg.backups), ref, FaultBy(f, cfg, s, t, ref))
  {
    assert JobInv(cfg, s, t);
  }

  lemma WriteCarries(f: Fault, cfg: Config, s: Sys, t: Thread, outcome: WriteIo, ref: string)
    requires Inv(cfg, s) && Enabled(s, t, TryWrite(outcome)) && BusyOn(s, t, ref)
    ensures Carries(f, cfg, s, t, Step(s, t, TryWrite(outcome), cfg.backups), ref, FaultBy(f, cfg, s, t, ref))
  {
    assert JobInv(cfg, s, t);
  }

  lemma IndexCarries(f: Fault, cfg: Config, s: Sys, t: Thread, ref: string)
    requires Inv(cfg, s) && Enabled(s, t, UpdateIndex) && BusyOn(s, t, ref)
    ensures Carries(f, cfg, s, t, Step(s, t, UpdateIndex, cfg.backups), ref, FaultBy(f, cfg, s, t, ref))
  {
    assert JobInv(cfg, s, t);
  }

  /** A step inside thread t's section on the ref. */
  predicate StepsInside(s: Sys, t: Thread, l: Label, ref: string) {
    !l.Call? && !l.Lock? && !l.Unlock? && !s.JobOf(t).NoJob? && s.JobOf(t).req.Key() == ref
  }

  lemma SectionCarries(f: Fault, cfg: Config, s: Sys, t: Thread, l: Label, ref: string)
    requires Inv(cfg, s) && Enabled(s, t, l) && StepsInside(s, t, l, ref)
    ensures Carries(f, cfg, s, t, Step(s, t, l, cfg.backups), ref,
              FaultBy(f, cfg, s, t, ref) || FaultNow(f, s, t, l, ref, cfg.backups))
    ensures HasLock(s, t) && (s.JobOf(t).Called? || Busy(s.JobOf(t)))
  {
    assert JobInv(cfg, s, t);
    match l
    case Check(read) => CheckCarries(f, cfg, s, t, read, ref);
    case TryBackup(ok) => BackupCarries(f, cfg, s, t, ok, ref);
    case TryWrite(outcome) => WriteCarries(f, cfg, s, t, outcome, ref);
    case UpdateIndex => IndexCarries(f, cfg, s, t, ref);
    case _ => FileCarries(f, cfg, s, t, l, ref);
  }

  lemma InsideStep(f: Fault, cfg: Config, s: Sys, t: Thread, l: Label, ref: string)
    requires Inv(cfg, s) && Enabled(s, t, l) && StepsInside(s, t, l, ref)
    ensures Faulty(f, cfg, Step(s, t, l, cfg.backups), ref) <==>
            Faulty(f, cfg, s, ref) || FaultNow(f, s, t, l, ref, cfg.backups)
  {
    var s' := Step(s, t, l, cfg.backups);
    SectionCarries(f, cfg, s, t, l, ref);
    StepJobs(s, t, l, cfg.backups);
    forall u | u != t ensures !BusyOn(s, u, ref) && !BusyOn(s', u, ref) {
      if BusyOn(s, u, ref) { OneBusy(cfg, s, t, u); }
    }
    if s'.log != s.log {
      LogStep(f, cfg, s.log, s'.log[|s.log|], ref);
    }
  }

  lemma OutsideLog(s: Sys, t: Thread, l: Label, ref: string, backups: bool)
    requires Enabled(s, t, l) && !StepsInside(s, t, l, ref)
    ensures var s' := Step(s, t, l, backups);
            s'.log == s.log || (|s'.log| == |s.log| + 1 && s'.log == s.log + [s'.log[|s.log|]]
                                && s'.log[|s.log|].req.Key() != ref)
  {
  }

  lemma OutsideJobs(s: Sys, t: Thread, l: Label, ref: string, backups: bool)
    requires Enabled(s, t, l) && !StepsInside(s, t, l, ref)
    ensures var s' := Step(s, t, l, backups);
            && (s'.JobOf(t) == s.JobOf(t) || (!BusyOn(s, t, ref) && !BusyOn(s', t, ref)))
            && (forall u | u != t :: s'.JobOf(u) == s.JobOf(u))
  {
    StepJobs(s, t, l, backups);
  }

  lemma OutsideSections(f: Fault, cfg: Config, s: Sys, t: Thread, l: Label, u: Thread, ref: string)
    requires Enabled(s, t, l) && !StepsInside(s, t, l, ref)
    requires cfg.Serially(Step(s, t, l, cfg.backups), ref) == cfg.Serially(s, ref)
    ensures FaultBy(f, cfg, Step(s, t, l, cfg.backups), u, ref) <==> FaultBy(f, cfg, s, u, ref)
  {
    OutsideJobs(s, t, l, ref, cfg.backups);
  }

  lemma OutsideStep(f: Fault, cfg: Config, s: Sys, t: Thread, l: Label, ref: string)
    requires Enabled(s, t, l) && !StepsInside(s, t, l, ref)
    ensures Faulty(f, cfg, Step(s, t, l, cfg.backups), ref) <==> Faulty(f, cfg, s, ref)
  {
    var s' := Step(s, t, l, cfg.backups);
    OutsideLog(s, t, l, ref, cfg.backups);
    if s'.log != s.log {
      LogStep(f, cfg, s.log, s'.log[|s.log|], ref);
      ReplayAppend(cfg.initial, s.log, s'.log[|s.log|], ref, cfg.backups);
    }
    forall u ensures FaultBy(f, cfg, s', u, ref) == FaultBy(f, cfg, s, u, ref) {
      OutsideSections(f, cfg, s, t, l, u, ref);
    }
  }

  lemma FaultStep(f: Fault, cfg: Config, s: Sys, t: Thread, l: Label, ref: string)
    requires Inv(cfg, s) && Enabled(s, t, l)
    ensures Faulty(f, cfg, Step(s, t, l, cfg.backups), ref) <==>
            Faulty(f, cfg, s, ref) || FaultNow(f, s, t, l, ref, cfg.backups)
  {
    if StepsInside(s, t, l, ref) { InsideStep(f, cfg, s, t, l, ref); } else { OutsideStep(f, cfg, s, t, l, ref); }
  }

  // ---- Runs ----

  /** The system after i steps of a run. */
  function After(cfg: Config, moves: seq<Move>, i: nat): Sys
    requires i <= |moves|
  {
    Run(Start(cfg), moves[..i], cfg.backups)
  }

  lemma OneMoreMove(s: Sys, moves: seq<Move>, m: Move, backups: bool)
    requires Schedule(s, moves + [m], backups)
    ensures var s' := Run(s, moves, backups);
            && Schedule(s, moves, backups) && Enabled(s', m.thread, m.step)
            && Run(s, moves + [m], backups) == Step(s', m.thread, m.step, backups)
  {
    RunSplit(s, moves, [m], backups);
    assert [m][0] == m && [m][1..] == [];
  }

  lemma Prefixed(s: Sys, moves: seq<Move>, i: nat, backups: bool)
    requires Schedule(s, moves, backups) && i <= |moves|
    ensures Schedule(s, moves[..i], backups)
  {
    assert moves == moves[..i] + moves[i..];
    RunSplit(s, moves[..i], moves[i..], backups);
  }

  lemma InvAfter(cfg: Config, moves: seq<Move>, i: nat)
    requires Schedule(Start(cfg), moves, cfg.backups) && i <= |moves|
    ensures Inv(cfg, After(cfg, moves, i))
  {
    Prefixed(Start(cfg), moves, i, cfg.backups);
    InvInitial(cfg);
    InvRun(cfg, Start(cfg), moves[..i]);
  }

  lemma StepAfter(cfg: Config, moves: seq<Move>, i: nat)
    requires Schedule(Start(cfg), moves, cfg.backups) && i < |moves|
    ensures var s, m := After(cfg, moves, i), moves[i];
            Enabled(s, m.thread, m.step) && After(cfg, moves, i + 1) == Step(s, m.thread, m.step, cfg.backups)
  {
    Prefixed(Start(cfg), moves, i + 1, cfg.backups);
    assert moves[..i + 1] == moves[..i] + [moves[i]];
    OneMoreMove(Start(cfg), moves[..i], moves[i], cfg.backups);
  }

  predicate FaultDuring(f: Fault, cfg: Config, moves: seq<Move>, k: nat, ref: string)
    requires k < |moves|
  {
    FaultNow(f, After(cfg, moves, k), moves[k].thread, moves[k].step, ref, cfg.backups)
  }

  ghost predicate FaultBefore(f: Fault, cfg: Config, moves: seq<Move>, i: nat, ref: string)
    requires i <= |moves|
  {
    exists k :: 0 <= k < i && FaultDuring(f, cfg, moves, k, ref)
  }

  lemma NextFault(f: Fault, cfg: Config, moves: seq<Move>, i: nat, ref: string)
    requires Schedule(Start(cfg), moves, cfg.backups) && i < |moves|
    ensures Faulty(f, cfg, After(cfg, moves, i + 1), ref) <==>
            Faulty(f, cfg, After(cfg, moves, i), ref) || FaultDuring(f, cfg, moves, i, ref)
  {
    InvAfter(cfg, moves, i);
    StepAfter(cfg, moves, i);
    FaultStep(f, cfg, After(cfg, moves, i), moves[i].thread, moves[i].step, ref);
  }

  lemma FaultBeforeNext(f: Fault, cfg: Config, moves: seq<Move>, i: nat, ref: string)
    requires i < |moves|
    ensures FaultBefore(f, cfg, moves, i + 1, ref) <==>
            FaultBefore(f, cfg, moves, i, ref) || FaultDuring(f, cfg, moves, i, ref)
  {
  }

  lemma NoFaultAtStart(f: Fault, cfg: Config, ref: string)
    ensures !Faulty(f, cfg, Start(cfg), ref)
  {
  }

  lemma {:induction false} FaultsAreSteps(f: Fault, cfg: Config, moves: seq<Move>, i: nat, ref: string)
    requires Schedule(Start(cfg), moves, cfg.backups) && i <= |moves|
    ensures Faulty(f, cfg, After(cfg, moves, i), ref) <==> FaultBefore(f, cfg, moves, i, ref)
  {
    if i == 0 {
      NoFaultAtStart(f, cfg, ref);
      assert After(cfg, moves, 0) == Start(cfg);
    } else {
      FaultsAreSteps(f, cfg, moves, i - 1, ref);
      NextFault(f, cfg, moves, i - 1, ref);
      FaultBeforeNext(f, cfg, moves, i - 1, ref);
    }
  }

  lemma {:induction false} SlotsKept(cfg: Config, moves: seq<Move>, i: nat, j: nat, ref: string)
    requires Schedule(Start(cfg), moves, cfg.backups) && i <= j <= |moves|
    requires forall k | i <= k < j :: !FaultDuring(Overwriting, cfg, moves, k, ref)
    ensures KeepsSlots(After(cfg, moves, i).CellOf(ref), After(cfg, moves, j).CellOf(ref))
    decreases j - i
  {
    if i < j {
      SlotsKept(cfg, moves, i, j - 1, ref);
      StepAfter(cfg, moves, j - 1);
      assert !FaultDuring(Overwriting, cfg, moves, j - 1, ref);
      KeepStep(After(cfg, moves, j - 1), moves[j - 1].thread, moves[j - 1].step, ref, cfg.backups);
    }
  }

  /** Between any two steps of a run, running sections included, what a slot holds at the first it
      holds at the second, exactly when no finished call moved a file into a slot that held another,
      and no running section has. */
  lemma BackupsAreWriteOnce(cfg: Config, moves: seq<Move>, ref: string)
    requires Schedule(Start(cfg), moves, cfg.backups)
    ensures (forall i, j | 0 <= i <= j <= |moves| ::
               KeepsSlots(After(cfg, moves, i).CellOf(ref), After(cfg, moves, j).CellOf(ref)))
            <==> !Faulty(Overwriting, cfg, Run(Start(cfg), moves, cfg.backups), ref)
  {
    FaultsAreSteps(Overwriting, cfg, moves, |moves|, ref);
    assert moves[..|moves|] == moves;
    if k :| 0 <= k < |moves| && FaultDuring(Overwriting, cfg, moves, k, ref) {
      StepAfter(cfg, moves, k);
      KeepStep(After(cfg, moves, k), moves[k].thread, moves[k].step, ref, cfg.backups);
      assert !KeepsSlots(After(cfg, moves, k).CellOf(ref), After(cfg, moves, k + 1).CellOf(ref));
    } else {
      forall i, j | 0 <= i <= j <= |moves|
        ensures KeepsSlots(After(cfg, moves, i).CellOf(ref), After(cfg, moves, j).CellOf(ref))
      {
        SlotsKept(cfg, moves, i, j, ref);
      }
    }
  }

  lemma {:induction false} LabelsHold(cfg: Config, moves: seq<Move>, i: nat, ref: string)
    requires Schedule(Start(cfg), moves, cfg.backups) && i <= |moves| && SlotsTrue(Start(cfg).CellOf(ref))
    requires forall k | 0 <= k < i :: !FaultDuring(Mislabelling, cfg, moves, k, ref)
    ensures SlotsTrue(After(cfg, moves, i).CellOf(ref))
  {
    if i > 0 {
      LabelsHold(cfg, moves, i - 1, ref);
      StepAfter(cfg, moves, i - 1);
      assert !FaultDuring(Mislabelling, cfg, moves, i - 1, ref);
      LabelStep(After(cfg, moves, i - 1), moves[i - 1].thread, moves[i - 1].step, ref, cfg.backups);
    }
  }

  /** And at every step of a run every slot holds an object of its own revision, exactly when it does
      at the start, no finished call moved an object of another revision, and no running section has. */
  lemma BackupsAreLabelled(cfg: Config, moves: seq<Move>, ref: string)
    requires Schedule(Start(cfg), moves, cfg.backups)
    ensures (forall i | 0 <= i <= |moves| :: SlotsTrue(After(cfg, moves, i).CellOf(ref)))
            <==>
            SlotsTrue(Start(cfg).CellOf(ref)) && !Faulty(Mislabelling, cfg, Run(Start(cfg), moves, cfg.backups), ref)
  {
    FaultsAreSteps(Mislabelling, cfg, moves, |moves|, ref);
    assert moves[..|moves|] == moves && After(cfg, moves, 0) == Start(cfg);
    if k :| 0 <= k < |moves| && FaultDuring(Mislabelling, cfg, moves, k, ref) {
      StepAfter(cfg, moves, k);
      if SlotsTrue(After(cfg, moves, k).CellOf(ref)) {
        LabelStep(After(cfg, moves, k), moves[k].thread, moves[k].step, ref, cfg.backups);
        assert !SlotsTrue(After(cfg, moves, k + 1).CellOf(ref));
      }
    } else if SlotsTrue(Start(cfg).CellOf(ref)) {
      forall i | 0 <= i <= |moves| ensures SlotsTrue(After(cfg, moves, i).CellOf(ref)) {
        LabelsHold(cfg, moves, i, ref);
      }
    }
  }

  /** Neither happens in a run from intact volumes in which no write fails after its rename. */
  lemma SmoothRunsBackUpSoundly(f: Fault, cfg: Config, moves: seq<Move>, ref: string)
    requires IntactStart(cfg) && Schedule(Start(cfg), moves, cfg.backups)
    requires var log := Run(Start(cfg), moves, cfg.backups).log; NoLateFailure(cfg, log, |log|, ref)
    ensures !Faulty(f, cfg, Run(Start(cfg), moves, cfg.backups), ref)
  {
    var s := Run(Start(cfg), moves, cfg.backups);
    forall k | 0 <= k < |s.log| && s.log[k].req.Key() == ref ensures !FaultAt(f, cfg, s.log, k) {
      StaysIntact(cfg, s.log, k, ref);
    }
    StaysIntact(cfg, s.log, |s.log|, ref);
    assert s.log[..|s.log|] == s.log;
  }
}
