/** One proxy, step by step: its concurrent write sections, the queue they feed, the drain that
    empties it one network or file operation at a time, and the background pushes
    (serving/proxy.go, upstream/sync.go). */
module ProxySystem {
  import opened Decimal
  import opened Objects
  import opened WritePath
  import opened Archive
  import opened SyncQueue
  import WS = WriteSystem

  type Thread = WS.Thread

  /** pushOne, one operation per state. `data` is the copy read when the attempt began. */
  datatype Drain =
    | Resting
    | Uploading(ref: string, data: Body)
    | Fetching(ref: string, data: Body)
    | Preserving(ref: string, data: Body, conflict: bool)
    | Acknowledging(ref: string, data: Body)

  /** The last five fields are bookkeeping that no step reads: edits answered 202, edits the
      upstream answered 200 or 201, edits for which it served the same item, queue entries
      overwritten by another, and every body ever put on the wire to the upstream. */
  datatype Proxy = Proxy(
    node: WS.Sys,
    pending: Pending,
    conflicts: Files,
    rejected: Files,
    drain: Drain,
    pushes: set<Body>,
    acked: set<Body>,
    accepted: set<Body>,
    matched: set<Body>,
    replaced: set<(Body, Body)>,
    sent: set<Body>
  )

  datatype Setup = Setup(cfg: WS.Config, digest: Body -> Digest, pushAll: bool) {
    /** UpstreamPush: only global objects leave the proxy unless it is "all". */
    predicate MayLeave(b: Body) {
      b.IsGlobal() || pushAll
    }
  }

  datatype Event =
    | Section(t: Thread, l: WS.Label)       // a step of a write section, see WriteSystem
    | Forward(b: Body)                      // a PUT passed on to the upstream
    | FindMissing(ref: string)              // the upstream answered 404 for an object we hold
    | Push(b: Body)                         // a background push goes out
    | BeginAttempt(ref: string)
    | UploadAnswered(status: Option<int>)
    | FetchAnswered(answer: Option<Body>)
    | ArchiveDone(io: PublishIo)
    | Removed(ok: bool)

  /** Where handlePutObject sends a request; the hub's own path is not taken on a proxy. */
  predicate Routed(su: Setup, req: Request) {
    match req.kind
    case HubPut(_) => false
    case PrivatePut(_) => !su.MayLeave(req.body)
    case OfflinePut(_) => su.MayLeave(req.body)
    case CacheIn => true
  }

  predicate Enabled(su: Setup, p: Proxy, e: Event) {
    match e
    case Section(t, l) => WS.Enabled(p.node, t, l) && (l.Call? ==> Routed(su, l.req))
    case Forward(b) => su.MayLeave(b)
    case FindMissing(ref) => p.node.CellOf(ref).live.Some?
    case Push(b) => b in p.pushes
    case BeginAttempt(ref) => p.drain.Resting? && ref in p.pending
    case UploadAnswered(_) => p.drain.Uploading?
    case FetchAnswered(_) => p.drain.Fetching?
    case ArchiveDone(_) => p.drain.Preserving?
    case Removed(_) => p.drain.Acknowledging?
  }

  /** What a section step does outside the volume: queueing, answering 202, spawning a push. */
  function SectionStep(su: Setup, p: Proxy, t: Thread, l: WS.Label): Proxy {
    var job := p.node.JobOf(t);
    var p' := p.(node := WS.Step(p.node, t, l, su.cfg.backups));
    match l
    case TryQueue(ok) =>
      if !job.AtQueue? || !ok then p' else
        var ref, b := job.req.Key(), job.req.body;
        p'.(pending := p.pending[ref := b],
            replaced := if ref in p.pending then p.replaced + {(p.pending[ref], b)} else p.replaced)
    case UpdateIndex =>
      if job.AtIndex? && job.req.kind.OfflinePut? then p'.(acked := p.acked + {job.req.body}) else p'
    case Check(read) =>
      if !job.Called? then p' else
        (match Decide(p.node.CellOf(job.req.Key()), job.req, read)
         case Answer(r) => if r.LocalNewer? && r.push.Some? then p'.(pushes := p.pushes + {r.push.value}) else p'
         case _ => p')
    case _ => p'
  }

  function AfterUpload(p: Proxy, ref: string, data: Body, outcome: Outcome): Proxy {
    match outcome
    case Accepted => p.(drain := Acknowledging(ref, data), accepted := p.accepted + {data})
    case Conflicted => p.(drain := Fetching(ref, data))
    case Rejected => p.(drain := Preserving(ref, data, false))
    case Retry => p.(drain := Resting)
  }

  function AfterFetch(p: Proxy, ref: string, data: Body, remote: Option<Body>): Proxy {
    if remote.None? then p.(drain := Resting)
    else if SameItem(data, remote.value) then p.(drain := Acknowledging(ref, data), matched := p.matched + {data})
    else p.(drain := Preserving(ref, data, true))
  }

  function AfterArchive(p: Proxy, ref: string, data: Body, conflict: bool, digest: Body -> Digest,
                        io: PublishIo): Proxy {
    var (files, ok) := Preserve(if conflict then p.conflicts else p.rejected, digest, data, io);
    var p' := if conflict then p.(conflicts := files) else p.(rejected := files);
    p'.(drain := if ok then Acknowledging(ref, data) else Resting)
  }

  function Step(su: Setup, p: Proxy, e: Event): Proxy {
    match e
    case Section(t, l) => SectionStep(su, p, t, l)
    case Forward(b) => p.(sent := p.sent + {b})
    case FindMissing(ref) =>
      var live := p.node.CellOf(ref).live;
      if live.Some? then p.(pushes := p.pushes + {live.value}) else p
    case Push(b) =>
      p.(pushes := p.pushes - {b}, sent := if su.MayLeave(b) then p.sent + {b} else p.sent)
    case BeginAttempt(ref) =>
      if ref !in p.pending then p
      else p.(drain := Uploading(ref, p.pending[ref]), sent := p.sent + {p.pending[ref]})
    case UploadAnswered(status) =>
      if p.drain.Uploading? then AfterUpload(p, p.drain.ref, p.drain.data, Classify(status)) else p
    case FetchAnswered(answer) =>
      if p.drain.Fetching? then AfterFetch(p, p.drain.ref, p.drain.data, Fetched(p.drain.ref, answer)) else p
    case ArchiveDone(io) =>
      if p.drain.Preserving? then AfterArchive(p, p.drain.ref, p.drain.data, p.drain.conflict, su.digest, io) else p
    case Removed(ok) =>
      if p.drain.Acknowledging?
      then p.(pending := Acknowledge(p.pending, p.drain.ref, p.drain.data, ok), drain := Resting)
      else p
  }

  /** The drain's next operation, when the network and the disk answer as `a` says. */
  function NextOf(d: Drain, a: Attempt): Event
    requires !d.Resting?
  {
    match d
    case Uploading(_, _) => UploadAnswered(a.status)
    case Fetching(_, _) => FetchAnswered(a.remote)
    case Preserving(_, _, _) => ArchiveDone(a.publish)
    case Acknowledging(_, _) => Removed(a.Drops())
  }

  /** The drain's next step by itself. */
  function Operate(su: Setup, p: Proxy, a: Attempt): Proxy {
    match p.drain
    case Resting => p
    case Uploading(ref, data) => AfterUpload(p, ref, data, Classify(a.status))
    case Fetching(ref, data) => AfterFetch(p, ref, data, Fetched(ref, a.remote))
    case Preserving(ref, data, conflict) => AfterArchive(p, ref, data, conflict, su.digest, a.publish)
    case Acknowledging(ref, data) => p.(pending := Acknowledge(p.pending, ref, data, a.Drops()), drain := Resting)
  }

  lemma OperateIsStep(su: Setup, p: Proxy, a: Attempt)
    requires !p.drain.Resting?
    ensures Enabled(su, p, NextOf(p.drain, a)) && Operate(su, p, a) == Step(su, p, NextOf(p.drain, a))
  {
  }

  /** The drain alone, run to the end of its attempt. */
  function Undisturbed(su: Setup, p: Proxy, a: Attempt, n: nat): Proxy
    decreases n
  {
    if n == 0 || p.drain.Resting? then p else Undisturbed(su, Operate(su, p, a), a, n - 1)
  }

  function DrainEvents(su: Setup, p: Proxy, a: Attempt, n: nat): seq<Event>
    decreases n
  {
    if n == 0 || p.drain.Resting? then [] else [NextOf(p.drain, a)] + DrainEvents(su, Operate(su, p, a), a, n - 1)
  }

  /** And that is a run of the system. */
  lemma {:induction false} UndisturbedIsARun(su: Setup, p: Proxy, a: Attempt, n: nat)
    ensures Schedule(su, p, DrainEvents(su, p, a, n))
            && Run(su, p, DrainEvents(su, p, a, n)) == Undisturbed(su, p, a, n)
    decreases n
  {
    if n > 0 && !p.drain.Resting? {
      OperateIsStep(su, p, a);
      UndisturbedIsARun(su, Operate(su, p, a), a, n - 1);
      assert DrainEvents(su, p, a, n)[1..] == DrainEvents(su, Operate(su, p, a), a, n - 1);
    }
  }

  function QueueOf(p: Proxy): Queue {
    Queue(p.pending, p.conflicts, p.rejected)
  }

  predicate Ended(p: Proxy, end: Proxy, q: Queue) {
    end.drain.Resting? && end.node == p.node && QueueOf(end) == q
  }

  lemma EndFromAcknowledging(su: Setup, p: Proxy, a: Attempt, n: nat)
    requires p.drain.Acknowledging? && n >= 1
    ensures Ended(p, Undisturbed(su, p, a, n),
                  QueueOf(p).(pending := Acknowledge(p.pending, p.drain.ref, p.drain.data, a.Drops())))
  {
    assert Undisturbed(su, p, a, n) == Operate(su, p, a);
  }

  /** The queue after an archiving attempt and what follows it. */
  function AfterPreserving(q: Queue, digest: Body -> Digest, ref: string, data: Body, conflict: bool,
                           a: Attempt): Queue {
    var (files, ok) := Preserve(if conflict then q.conflicts else q.rejected, digest, data, a.publish);
    var q' := if conflict then q.(conflicts := files) else q.(rejected := files);
    if ok then q'.(pending := Acknowledge(q.pending, ref, data, a.Drops())) else q'
  }

  lemma EndFromPreserving(su: Setup, p: Proxy, a: Attempt, n: nat)
    requires p.drain.Preserving? && n >= 2
    ensures var d := p.drain;
            Ended(p, Undisturbed(su, p, a, n), AfterPreserving(QueueOf(p), su.digest, d.ref, d.data, d.conflict, a))
  {
    var p' := AfterArchive(p, p.drain.ref, p.drain.data, p.drain.conflict, su.digest, a.publish);
    assert Undisturbed(su, p, a, n) == Undisturbed(su, p', a, n - 1);
    if p'.drain.Acknowledging? { EndFromAcknowledging(su, p', a, n - 1); }
  }

  lemma FetchGoesOn(su: Setup, p: Proxy, a: Attempt, n: nat)
    requires p.drain.Fetching? && n >= 1
    ensures var p' := AfterFetch(p, p.drain.ref, p.drain.data, Fetched(p.drain.ref, a.remote));
            Undisturbed(su, p, a, n) == Undisturbed(su, p', a, n - 1)
  {
  }

  /** Whichever way the fetched copy sends the drain, its end is the end of the conflict. */
  lemma FetchEnds(p: Proxy, end: Proxy, digest: Body -> Digest, a: Attempt)
    requires p.drain.Fetching?
    requires var d := p.drain; var p' := AfterFetch(p, d.ref, d.data, Fetched(d.ref, a.remote));
             && (p'.drain.Resting? ==> end == p')
             && (p'.drain.Acknowledging?
                ==> Ended(p', end, QueueOf(p').(pending := Acknowledge(p.pending, d.ref, d.data, a.Drops()))))
             && (p'.drain.Preserving? ==> Ended(p', end, AfterPreserving(QueueOf(p'), digest, d.ref, d.data, true, a)))
    ensures Ended(p, end, AfterConflict(QueueOf(p), digest, p.drain.ref, p.drain.data, Fetched(p.drain.ref, a.remote),
            a).0)
  {
  }

  lemma EndFromFetching(su: Setup, p: Proxy, a: Attempt, n: nat)
    requires p.drain.Fetching? && n >= 3
    ensures var d := p.drain;
            Ended(p, Undisturbed(su, p, a, n),
                AfterConflict(QueueOf(p), su.digest, d.ref, d.data, Fetched(d.ref, a.remote), a).0)
  {
    var p' := AfterFetch(p, p.drain.ref, p.drain.data, Fetched(p.drain.ref, a.remote));
    FetchGoesOn(su, p, a, n);
    if p'.drain.Acknowledging? { EndFromAcknowledging(su, p', a, n - 1); }
    if p'.drain.Preserving? { EndFromPreserving(su, p', a, n - 1); }
    FetchEnds(p, Undisturbed(su, p', a, n - 1), su.digest, a);
  }

  /** An attempt nothing interferes with is PushOne: the steps refine the whole operation. When the
      file cannot be read or no request can be built, there is no step and PushOne changes nothing. */
  lemma UndisturbedAttemptIsPushOne(su: Setup, p: Proxy, ref: string, a: Attempt)
    requires p.drain.Resting? && ref in p.pending
    ensures Enabled(su, p, BeginAttempt(ref))
    ensures var end := if a.Starts() then Undisturbed(su, Step(su, p, BeginAttempt(ref)), a, 4) else p;
            Ended(p, end, PushOne(QueueOf(p), su.digest, ref, a).0)
  {
    if a.Starts() {
      var p1 := Step(su, p, BeginAttempt(ref));
      var data := p.pending[ref];
      var p2 := AfterUpload(p1, ref, data, Classify(a.status));
      assert Undisturbed(su, p1, a, 4) == Undisturbed(su, p2, a, 3);
      match Classify(a.status)
      case Retry =>
      case Accepted => EndFromAcknowledging(su, p2, a, 3);
      case Rejected => EndFromPreserving(su, p2, a, 3);
      case Conflicted => EndFromFetching(su, p2, a, 3);
    }
  }

  /** An edit that took the entry while its predecessor was being uploaded is never taken out by that
      attempt, whatever the upload's answer: the pass goes on and the newer edit stays queued. */
  lemma {:induction false} NewerEditStaysQueued(su: Setup, p: Proxy, a: Attempt, n: nat)
    requires !p.drain.Resting? && p.drain.ref in p.pending && p.pending[p.drain.ref] != p.drain.data
    ensures Undisturbed(su, p, a, n).pending == p.pending
    decreases n
  {
    if n > 0 {
      var p' := Operate(su, p, a);
      OneOperation(su, p, a);
      if !p'.drain.Resting? {
        NewerEditStaysQueued(su, p', a, n - 1);
      }
    }
  }

  lemma OneOperation(su: Setup, p: Proxy, a: Attempt)
    requires !p.drain.Resting? && p.drain.ref in p.pending && p.pending[p.drain.ref] != p.drain.data
    ensures var p' := Operate(su, p, a);
            && p'.pending == p.pending
            && (!p'.drain.Resting? ==> p'.drain.ref == p.drain.ref && p'.drain.data == p.drain.data)
  {
  }

  // ---- No acknowledged edit is lost ----

  predicate Settled(p: Proxy, e: Body) {
    e in p.accepted || e in p.matched || e in p.conflicts.Values || e in p.rejected.Values
  }

  predicate Queued(p: Proxy, e: Body) {
    e.Ref() in p.pending && p.pending[e.Ref()] == e
  }

  /** A later edit of the same object, of strictly higher revision, took its place in the queue. */
  ghost predicate Superseded(p: Proxy, e: Body) {
    exists n :: (e, n) in p.replaced && n.Ref() == e.Ref() && n.item.revision > e.item.revision
  }

  /** An edit of the same object and strictly higher revision is queued or settled now. */
  ghost predicate Outlived(p: Proxy, e: Body) {
    exists f :: Outlives(p, f, e)
  }

  predicate Outlives(p: Proxy, f: Body, e: Body) {
    f.Ref() == e.Ref() && f.item.revision > e.item.revision && (Queued(p, f) || Settled(p, f))
  }

  /** The edit is still there, or it gave way to later edits of which one is. */
  ghost predicate Safe(p: Proxy, e: Body) {
    Queued(p, e) || Settled(p, e) || (Superseded(p, e) && Outlived(p, e))
  }

  /** The index has reached the edit's revision. */
  predicate Indexed(su: Setup, p: Proxy, e: Body) {
    var c := su.cfg.Serially(p.node, e.Ref());
    c.meta.Some? && c.meta.value.item.revision >= e.item.revision
  }

  /** The thread has queued its offline edit and not yet answered 202. */
  predicate JustQueued(p: Proxy, t: Thread) {
    var job := p.node.JobOf(t);
    (job.AtWrite? || job.AtIndex?) && job.req.kind.OfflinePut?
  }

  ghost predicate Inv(su: Setup, p: Proxy) {
    && WS.Inv(su.cfg, p.node)
    && (forall e | e in p.acked :: Indexed(su, p, e) && Safe(p, e))
    && (forall t | JustQueued(p, t) :: Safe(p, p.node.JobOf(t).req.body))
    && (p.drain.Acknowledging? ==> Settled(p, p.drain.data))
  }

  /** The queue is what earlier runs left; every other bookkeeping field starts empty. */
  predicate Starts(su: Setup, p: Proxy) {
    p.node == WS.Start(su.cfg) && p.drain == Resting && p.pushes == {} && p.acked == {} && p.accepted == {}
    && p.matched == {} && p.replaced == {} && p.sent == {}
  }

  lemma InvInitial(su: Setup, p: Proxy)
    requires Starts(su, p)
    ensures Inv(su, p)
  {
    WS.InvInitial(su.cfg);
  }

  predicate Forgets(p: Proxy, p': Proxy) {
    !(p.accepted <= p'.accepted && p.matched <= p'.matched && p.replaced <= p'.replaced
      && p.conflicts.Values <= p'.conflicts.Values && p.rejected.Values <= p'.rejected.Values)
  }

  /** What is queued for the ref stays queued or has been settled. */
  ghost predicate QueueHolds(p: Proxy, p': Proxy, ref: string) {
    forall f: Body | f.Ref() == ref && Queued(p, f) :: Queued(p', f) || Settled(p', f)
  }

  /** Steps that keep the queue's entry for the ref, or settle it, and forget no bookkeeping keep e safe. */
  lemma SafeIsStable(p: Proxy, p': Proxy, e: Body)
    requires Safe(p, e) && !Forgets(p, p') && QueueHolds(p, p', e.Ref())
    ensures Safe(p', e)
  {
    if !Queued(p, e) && !Settled(p, e) {
      var n :| (e, n) in p.replaced && n.Ref() == e.Ref() && n.item.revision > e.item.revision;
      assert (e, n) in p'.replaced;
      var f :| Outlives(p, f, e);
      assert Outlives(p', f, e);
    }
  }

  /** A strictly later edit may take the queue's entry. */
  lemma SafeWhenReplaced(p: Proxy, p': Proxy, e: Body, b: Body)
    requires Safe(p, e) && !Forgets(p, p') && Queued(p', b) && b.Ref() == e.Ref() && b.item.revision > e.item.revision
    requires Queued(p, e) ==> (e, b) in p'.replaced
    ensures Safe(p', e)
  {
    assert Outlives(p', b, e);
    if !Queued(p, e) && !Settled(p, e) {
      var n :| (e, n) in p.replaced && n.Ref() == e.Ref() && n.item.revision > e.item.revision;
      assert (e, n) in p'.replaced;
    }
  }

  /** The log never takes an index below a revision it has reached. */
  lemma IndexedIsStable(su: Setup, p: Proxy, t: Thread, l: WS.Label, e: Body)
    requires WS.Inv(su.cfg, p.node) && WS.Enabled(p.node, t, l) && Indexed(su, p, e)
    ensures Indexed(su, p.(node := WS.Step(p.node, t, l, su.cfg.backups)), e)
  {
    var s, s' := p.node, WS.Step(p.node, t, l, su.cfg.backups);
    WS.StepLogs(s, t, l, su.cfg.backups);
    if s'.log != s.log {
      var last := s'.log[|s'.log| - 1];
      WS.ReplayAppend(su.cfg.initial, s.log, last, e.Ref(), su.cfg.backups);
      SectionNeverLowers(su.cfg.Serially(s, e.Ref()), last.req, last.io, su.cfg.backups);
    }
  }

  /** Queueing an edit replaces only edits of strictly lower revision among the acknowledged ones. */
  lemma QueueKeepsAcknowledged(su: Setup, p: Proxy, t: Thread, e: Body)
    requires Inv(su, p) && WS.Enabled(p.node, t, WS.TryQueue(true)) && e in p.acked
    ensures var p' := SectionStep(su, p, t, WS.TryQueue(true)); Indexed(su, p', e) && Safe(p', e)
  {
    var l := WS.TryQueue(true);
    var p' := SectionStep(su, p, t, l);
    var req := p.node.JobOf(t).req;
    assert WS.JobInv(su.cfg, p.node, t);
    IndexedIsStable(su, p, t, l, e);
    if e.Ref() == req.Key() {
      StoreMeansNewer(su.cfg.Serially(p.node, req.Key()), req, p.node.JobOf(t).io.read);
      SafeWhenReplaced(p, p', e, req.body);
    } else {
      SafeIsStable(p, p', e);
    }
  }

  lemma QueueKeepsQueued(su: Setup, p: Proxy, t: Thread, u: Thread)
    requires Inv(su, p) && WS.Enabled(p.node, t, WS.TryQueue(true)) && u != t && JustQueued(p, u)
    ensures Safe(SectionStep(su, p, t, WS.TryQueue(true)), p.node.JobOf(u).req.body)
  {
    var p' := SectionStep(su, p, t, WS.TryQueue(true));
    var e := p.node.JobOf(u).req.body;
    assert WS.JobInv(su.cfg, p.node, t);
    if e.Ref() == p.node.JobOf(t).req.Key() { WS.OneBusy(su.cfg, p.node, t, u); }
    SafeIsStable(p, p', e);
  }

  lemma QueueStep(su: Setup, p: Proxy, t: Thread)
    requires Inv(su, p) && WS.Enabled(p.node, t, WS.TryQueue(true))
    ensures Inv(su, SectionStep(su, p, t, WS.TryQueue(true)))
  {
    var p' := SectionStep(su, p, t, WS.TryQueue(true));
    WS.InvStep(su.cfg, p.node, t, WS.TryQueue(true));
    WS.StepJobs(p.node, t, WS.TryQueue(true), su.cfg.backups);
    WS.StepKeepsStages(p.node, t, WS.TryQueue(true), su.cfg.backups);
    forall e | e in p'.acked ensures Indexed(su, p', e) && Safe(p', e) {
      QueueKeepsAcknowledged(su, p, t, e);
    }
    forall u | JustQueued(p', u) ensures Safe(p', p'.node.JobOf(u).req.body) {
      if u != t { QueueKeepsQueued(su, p, t, u); }
    }
  }

  /** Section steps other than queueing keep every edit that was safe, safe. */
  lemma QueuedStaySafe(su: Setup, p: Proxy, t: Thread, l: WS.Label, p': Proxy)
    requires Inv(su, p) && WS.Enabled(p.node, t, l) && l != WS.TryQueue(true)
    requires p'.node == WS.Step(p.node, t, l, su.cfg.backups) && p'.pending == p.pending && p'.replaced == p.replaced
    requires p'.accepted == p.accepted && p'.matched == p.matched && p'.conflicts == p.conflicts
             && p'.rejected == p.rejected
    ensures forall e | e in p.acked :: Indexed(su, p', e) && Safe(p', e)
    ensures forall u | JustQueued(p', u) :: Safe(p', p'.node.JobOf(u).req.body)
  {
    forall e | e in p.acked ensures Indexed(su, p', e) && Safe(p', e) {
      IndexedIsStable(su, p, t, l, e);
      SafeIsStable(p, p', e);
    }
    WS.StepJobs(p.node, t, l, su.cfg.backups);
    WS.StepKeepsStages(p.node, t, l, su.cfg.backups);
    forall u | JustQueued(p', u) ensures Safe(p', p'.node.JobOf(u).req.body) {
      assert JustQueued(p, u) && p'.node.JobOf(u).req == p.node.JobOf(u).req;
      SafeIsStable(p, p', p.node.JobOf(u).req.body);
    }
  }

  lemma CommitIsIndexed(su: Setup, p: Proxy, t: Thread)
    requires WS.Inv(su.cfg, p.node) && WS.Enabled(p.node, t, WS.UpdateIndex)
    ensures Indexed(su, p.(node := WS.Step(p.node, t, WS.UpdateIndex, su.cfg.backups)), p.node.JobOf(t).req.body)
  {
    var s, s' := p.node, WS.Step(p.node, t, WS.UpdateIndex, su.cfg.backups);
    WS.InvStep(su.cfg, s, t, WS.UpdateIndex);
    var req := s.JobOf(t).req;
    var last := WS.Entry(t, req, s.JobOf(t).io, Committed);
    assert s'.log == s.log + [last];
    assert s'.log[..|s.log|] == s.log && s'.log[|s.log|] == last;
    WS.ReplayAppend(su.cfg.initial, s.log, last, req.Key(), su.cfg.backups);
    CommittedSection(su.cfg.Serially(s, req.Key()), req, last.io, su.cfg.backups);
  }

  lemma NewlyAcknowledged(su: Setup, p: Proxy, t: Thread, p': Proxy)
    requires Inv(su, p) && WS.Enabled(p.node, t, WS.UpdateIndex) && p.node.JobOf(t).req.kind.OfflinePut?
    requires p'.node == WS.Step(p.node, t, WS.UpdateIndex, su.cfg.backups) && p'.pending == p.pending
             && p'.replaced == p.replaced
    requires p'.accepted == p.accepted && p'.matched == p.matched && p'.conflicts == p.conflicts
             && p'.rejected == p.rejected
    ensures Indexed(su, p', p.node.JobOf(t).req.body) && Safe(p', p.node.JobOf(t).req.body)
  {
    CommitIsIndexed(su, p, t);
    assert JustQueued(p, t);
    SafeIsStable(p, p', p.node.JobOf(t).req.body);
  }

  /** The 202 is sent after the index update, when the edit has been safe since it was queued. */
  lemma AcknowledgeStep(su: Setup, p: Proxy, t: Thread, p': Proxy)
    requires Inv(su, p) && WS.Enabled(p.node, t, WS.UpdateIndex)
    requires var b := p.node.JobOf(t).req.body;
             p' == p.(node := WS.Step(p.node, t, WS.UpdateIndex, su.cfg.backups),
                      acked := if p.node.JobOf(t).req.kind.OfflinePut? then p.acked + {b} else p.acked)
    ensures Inv(su, p')
  {
    WS.InvStep(su.cfg, p.node, t, WS.UpdateIndex);
    QueuedStaySafe(su, p, t, WS.UpdateIndex, p');
    forall e | e in p'.acked ensures Indexed(su, p', e) && Safe(p', e) {
      if e !in p.acked { NewlyAcknowledged(su, p, t, p'); }
    }
  }

  /** Queueing and answering 202 aside, a section step changes nothing outside the volume but the pushes. */
  lemma SectionFrame(su: Setup, p: Proxy, t: Thread, l: WS.Label)
    requires l != WS.TryQueue(true) && l != WS.UpdateIndex
    ensures var p' := SectionStep(su, p, t, l);
            p' == p.(node := WS.Step(p.node, t, l, su.cfg.backups), pushes := p'.pushes)
  {
  }

  lemma OtherSectionStep(su: Setup, p: Proxy, t: Thread, l: WS.Label)
    requires Inv(su, p) && WS.Enabled(p.node, t, l) && l != WS.TryQueue(true) && l != WS.UpdateIndex
    ensures Inv(su, SectionStep(su, p, t, l))
  {
    var p' := SectionStep(su, p, t, l);
    SectionFrame(su, p, t, l);
    WS.InvStep(su.cfg, p.node, t, l);
    QueuedStaySafe(su, p, t, l, p');
  }

  /** Events outside the write sections keep the invariant when they keep safe edits safe. */
  lemma OutsideStep(su: Setup, p: Proxy, p': Proxy)
    requires Inv(su, p) && p'.node == p.node && p'.acked == p.acked
    requires forall b | Safe(p, b) :: Safe(p', b)
    requires p'.drain.Acknowledging? ==> Settled(p', p'.drain.data)
    ensures Inv(su, p')
  {
    forall e | e in p'.acked ensures Indexed(su, p', e) && Safe(p', e) {
      assert Indexed(su, p, e) && Safe(p, e);
    }
    forall u | JustQueued(p', u) ensures Safe(p', p'.node.JobOf(u).req.body) {
      assert JustQueued(p, u);
    }
  }

  lemma ArchiveStep(su: Setup, p: Proxy, io: PublishIo)
    requires Inv(su, p) && p.drain.Preserving?
    ensures Inv(su, Step(su, p, ArchiveDone(io)))
  {
    var p' := Step(su, p, ArchiveDone(io));
    ArchiveOnlyGrows(if p.drain.conflict then p.conflicts else p.rejected, su.digest, p.drain.data, io);
    ValuesGrow(p.conflicts, p'.conflicts);
    ValuesGrow(p.rejected, p'.rejected);
    forall b | Safe(p, b) ensures Safe(p', b) {
      SafeIsStable(p, p', b);
    }
    OutsideStep(su, p, p');
  }

  /** The drain removes an entry only after the very bytes it removes were settled. */
  lemma RemoveStep(su: Setup, p: Proxy, ok: bool)
    requires Inv(su, p) && p.drain.Acknowledging?
    ensures Inv(su, Step(su, p, Removed(ok)))
  {
    var p' := Step(su, p, Removed(ok));
    forall b | Safe(p, b) ensures Safe(p', b) {
      SafeIsStable(p, p', b);
    }
    OutsideStep(su, p, p');
  }

  lemma NetworkFrame(su: Setup, p: Proxy, p': Proxy)
    requires Inv(su, p) && p'.node == p.node && p'.acked == p.acked && p'.pending == p.pending
    requires p'.replaced == p.replaced && p'.conflicts == p.conflicts && p'.rejected == p.rejected
    requires p.accepted <= p'.accepted && p.matched <= p'.matched
    requires p'.drain.Acknowledging? ==> Settled(p', p'.drain.data)
    ensures Inv(su, p')
  {
    forall b | Safe(p, b) ensures Safe(p', b) {
      SafeIsStable(p, p', b);
    }
    OutsideStep(su, p, p');
  }

  lemma PushStep(su: Setup, p: Proxy, e: Event)
    requires Inv(su, p) && (e.Forward? || e.FindMissing? || e.Push? || e.BeginAttempt?)
    ensures Inv(su, Step(su, p, e))
  {
    NetworkFrame(su, p, Step(su, p, e));
  }

  lemma AnswerStep(su: Setup, p: Proxy, ref: string, data: Body, outcome: Outcome, remote: Option<Body>)
    requires Inv(su, p)
    ensures Inv(su, AfterUpload(p, ref, data, outcome)) && Inv(su, AfterFetch(p, ref, data, remote))
  {
    NetworkFrame(su, p, AfterUpload(p, ref, data, outcome));
    NetworkFrame(su, p, AfterFetch(p, ref, data, remote));
  }

  lemma ValuesGrow(a: Files, b: Files)
    requires forall k | k in a :: k in b && b[k] == a[k]
    ensures a.Values <= b.Values
  {
    forall v | v in a.Values ensures v in b.Values {
      var k :| k in a && a[k] == v;
      assert k in b && b[k] == v;
    }
  }

  lemma InvStep(su: Setup, p: Proxy, e: Event)
    requires Inv(su, p) && Enabled(su, p, e)
    ensures Inv(su, Step(su, p, e))
  {
    match e
    case Section(t, l) =>
      if l == WS.TryQueue(true) { QueueStep(su, p, t); }
      else if l.UpdateIndex? { AcknowledgeStep(su, p, t, SectionStep(su, p, t, l)); }
      else { OtherSectionStep(su, p, t, l); }
    case ArchiveDone(io) => ArchiveStep(su, p, io);
    case Removed(ok) => RemoveStep(su, p, ok);
    case UploadAnswered(status) => AnswerStep(su, p, p.drain.ref, p.drain.data, Classify(status), None);
    case FetchAnswered(answer) => AnswerStep(su, p, p.drain.ref, p.drain.data, Retry, Fetched(p.drain.ref, answer));
    case _ => PushStep(su, p, e);
  }

  predicate Schedule(su: Setup, p: Proxy, events: seq<Event>)
    decreases events
  {
    events != [] ==> Enabled(su, p, events[0]) && Schedule(su, Step(su, p, events[0]), events[1..])
  }

  function Run(su: Setup, p: Proxy, events: seq<Event>): Proxy
    decreases events
  {
    if events == [] then p else Run(su, Step(su, p, events[0]), events[1..])
  }

  lemma {:induction false} InvRun(su: Setup, p: Proxy, events: seq<Event>)
    requires Inv(su, p) && Schedule(su, p, events)
    ensures Inv(su, Run(su, p, events))
    decreases events
  {
    if events != [] {
      InvStep(su, p, events[0]);
      InvRun(su, Step(su, p, events[0]), events[1..]);
    }
  }

  /** Every acknowledged edit is safe in every state of every run. */
  lemma AcknowledgedAreSafe(su: Setup, start: Proxy, events: seq<Event>, e: Body)
    requires Starts(su, start) && Schedule(su, start, events)
    requires e in Run(su, start, events).acked
    ensures Safe(Run(su, start, events), e)
  {
    InvInitial(su, start);
    InvRun(su, start, events);
  }

  // ---- Propagation ----

  predicate Outbound(job: WS.Job) {
    !job.NoJob? && (job.req.kind.OfflinePut? || job.AtQueue?)
  }

  ghost predicate OnlyPermittedLeave(su: Setup, p: Proxy) {
    && (forall b | b in p.sent :: su.MayLeave(b))
    && (forall ref | ref in p.pending :: su.MayLeave(p.pending[ref]))
    && (forall t | Outbound(p.node.JobOf(t)) :: su.MayLeave(p.node.JobOf(t).req.body))
  }

  lemma PermittedSection(su: Setup, p: Proxy, t: Thread, l: WS.Label)
    requires OnlyPermittedLeave(su, p) && Enabled(su, p, Section(t, l))
    ensures OnlyPermittedLeave(su, SectionStep(su, p, t, l))
  {
    var p' := SectionStep(su, p, t, l);
    WS.StepJobs(p.node, t, l, su.cfg.backups);
    WS.StepKeepsStages(p.node, t, l, su.cfg.backups);
    assert p'.node == WS.Step(p.node, t, l, su.cfg.backups) && p'.sent == p.sent;
    forall u | Outbound(p'.node.JobOf(u)) ensures su.MayLeave(p'.node.JobOf(u).req.body) {
      assert !(l.Call? && u == t) ==> Outbound(p.node.JobOf(u)) && p'.node.JobOf(u).req == p.node.JobOf(u).req;
    }
    assert l.TryQueue? ==> Outbound(p.node.JobOf(t));
  }

  lemma PermittedFrame(su: Setup, p: Proxy, p': Proxy)
    requires OnlyPermittedLeave(su, p) && p'.node == p.node
    requires forall ref | ref in p'.pending :: ref in p.pending && p'.pending[ref] == p.pending[ref]
    requires forall b | b in p'.sent :: b in p.sent || su.MayLeave(b)
    ensures OnlyPermittedLeave(su, p')
  {
    assert forall ref | ref in p'.pending :: su.MayLeave(p.pending[ref]);
  }

  lemma PermittedPush(su: Setup, p: Proxy, e: Event)
    requires OnlyPermittedLeave(su, p) && Enabled(su, p, e)
             && (e.Forward? || e.FindMissing? || e.Push? || e.BeginAttempt?)
    ensures OnlyPermittedLeave(su, Step(su, p, e))
  {
    PermittedFrame(su, p, Step(su, p, e));
  }

  lemma PermittedAnswer(su: Setup, p: Proxy, ref: string, data: Body, outcome: Outcome, remote: Option<Body>)
    requires OnlyPermittedLeave(su, p)
    ensures OnlyPermittedLeave(su, AfterUpload(p, ref, data, outcome))
            && OnlyPermittedLeave(su, AfterFetch(p, ref, data, remote))
  {
    PermittedFrame(su, p, AfterUpload(p, ref, data, outcome));
    PermittedFrame(su, p, AfterFetch(p, ref, data, remote));
  }

  lemma PermittedFiles(su: Setup, p: Proxy, e: Event)
    requires OnlyPermittedLeave(su, p) && (e.ArchiveDone? || e.Removed?)
    ensures OnlyPermittedLeave(su, Step(su, p, e))
  {
    PermittedFrame(su, p, Step(su, p, e));
  }

  lemma PermittedStep(su: Setup, p: Proxy, e: Event)
    requires OnlyPermittedLeave(su, p) && Enabled(su, p, e)
    ensures OnlyPermittedLeave(su, Step(su, p, e))
  {
    match e
    case Section(t, l) => PermittedSection(su, p, t, l);
    case UploadAnswered(status) => PermittedAnswer(su, p, p.drain.ref, p.drain.data, Classify(status), None);
    case FetchAnswered(answer) => PermittedAnswer(su, p, p.drain.ref, p.drain.data, Retry,
        Fetched(p.drain.ref, answer));
    case ArchiveDone(_) => PermittedFiles(su, p, e);
    case Removed(_) => PermittedFiles(su, p, e);
    case _ => PermittedPush(su, p, e);
  }

  lemma {:induction false} PermittedRun(su: Setup, p: Proxy, events: seq<Event>)
    requires OnlyPermittedLeave(su, p) && Schedule(su, p, events)
    ensures OnlyPermittedLeave(su, Run(su, p, events))
    decreases events
  {
    if events != [] {
      PermittedStep(su, p, events[0]);
      PermittedRun(su, Step(su, p, events[0]), events[1..]);
    }
  }

  // ---- The bookkeeping says what happened ----

  /** The edit an upload answered 200 or 201 in this event. */
  function Accepts(p: Proxy, e: Event): set<Body> {
    if p.drain.Uploading? && e in {UploadAnswered(Some(200)), UploadAnswered(Some(201))} then {p.drain.data} else {}
  }

  /** The edit whose item a genuine upstream copy, served in this event, turns out to be. */
  function Matches(p: Proxy, e: Event): set<Body> {
    if p.drain.Fetching? && e.FetchAnswered? && Genuine(e.answer, p.drain.ref)
       && e.answer.value.item == p.drain.data.item
    then {p.drain.data} else {}
  }

  /** What this event puts on the wire to the upstream. */
  function Emits(su: Setup, p: Proxy, e: Event): set<Body> {
    match e
    case Forward(b) => {b}
    case Push(b) => if b.IsGlobal() || su.pushAll then {b} else {}
    case BeginAttempt(ref) => if ref in p.pending then {p.pending[ref]} else {}
    case _ => {}
  }

  /** The three sets, gathered over a run. */
  function Accepted(su: Setup, p: Proxy, events: seq<Event>): set<Body>
    decreases events
  {
    if events == [] then {} else Accepts(p, events[0]) + Accepted(su, Step(su, p, events[0]), events[1..])
  }

  function Matched(su: Setup, p: Proxy, events: seq<Event>): set<Body>
    decreases events
  {
    if events == [] then {} else Matches(p, events[0]) + Matched(su, Step(su, p, events[0]), events[1..])
  }

  function Emitted(su: Setup, p: Proxy, events: seq<Event>): set<Body>
    decreases events
  {
    if events == [] then {} else Emits(su, p, events[0]) + Emitted(su, Step(su, p, events[0]), events[1..])
  }

  predicate BooksAfter(su: Setup, p: Proxy, e: Event, p': Proxy) {
    && p'.accepted == p.accepted + Accepts(p, e)
    && p'.matched == p.matched + Matches(p, e)
    && p'.sent == p.sent + Emits(su, p, e)
  }

  lemma BooksOfSection(su: Setup, p: Proxy, t: Thread, l: WS.Label)
    ensures BooksAfter(su, p, Section(t, l), SectionStep(su, p, t, l))
  {
  }

  lemma BooksOfAnswer(su: Setup, p: Proxy, e: Event)
    requires Enabled(su, p, e) && (e.UploadAnswered? || e.FetchAnswered?)
    ensures BooksAfter(su, p, e, Step(su, p, e))
  {
  }

  lemma BooksOfTheRest(su: Setup, p: Proxy, e: Event)
    requires Enabled(su, p, e) && !e.Section? && !e.UploadAnswered? && !e.FetchAnswered?
    ensures BooksAfter(su, p, e, Step(su, p, e))
  {
  }

  lemma BooksStep(su: Setup, p: Proxy, e: Event)
    requires Enabled(su, p, e)
    ensures BooksAfter(su, p, e, Step(su, p, e))
  {
    if e.Section? { BooksOfSection(su, p, e.t, e.l); }
    else if e.UploadAnswered? || e.FetchAnswered? { BooksOfAnswer(su, p, e); }
    else { BooksOfTheRest(su, p, e); }
  }

  /** An edit counts as accepted only if an upload of it was answered 200 or 201, as matched only if a
      genuine copy of the same item was served, and as sent exactly if it went out: nothing else
      enters the books, and nothing that happened is missing from them. */
  lemma {:induction false} BooksAreTrue(su: Setup, p: Proxy, events: seq<Event>)
    requires Schedule(su, p, events)
    ensures var p' := Run(su, p, events);
            && p'.accepted == p.accepted + Accepted(su, p, events)
            && p'.matched == p.matched + Matched(su, p, events)
            && p'.sent == p.sent + Emitted(su, p, events)
    decreases events
  {
    if events != [] {
      BooksStep(su, p, events[0]);
      BooksAreTrue(su, Step(su, p, events[0]), events[1..]);
    }
  }

  /** An offline PUT of b is in the log as committed, which the client sees as 202. */
  predicate Answered202(log: seq<WS.Entry>, b: Body) {
    exists i :: 0 <= i < |log| && log[i].response == Committed && log[i].req.kind.OfflinePut? && log[i].req.body == b
  }

  lemma Answered202Extends(log: seq<WS.Entry>, last: WS.Entry, b: Body)
    ensures Answered202(log + [last], b) <==>
            Answered202(log, b) || (last.response == Committed && last.req.kind.OfflinePut? && last.req.body == b)
  {
    var log' := log + [last];
    assert log'[|log|] == last;
    if i :| 0 <= i < |log| && log[i].response == Committed && log[i].req.kind.OfflinePut? && log[i].req.body == b {
      assert log'[i] == log[i];
    }
  }

  /** Which steps log a commit. */
  lemma CommitsAreIndexUpdates(s: WS.Sys, t: Thread, l: WS.Label, backups: bool)
    requires WS.Enabled(s, t, l)
    ensures var s' := WS.Step(s, t, l, backups);
            if l.UpdateIndex? then s'.log == s.log + [WS.Entry(t, s.JobOf(t).req, s.JobOf(t).io, Committed)]
            else s'.log == s.log || (|s'.log| == |s.log| + 1 && s'.log == s.log + [s'.log[|s.log|]]
                                     && s'.log[|s.log|].response != Committed)
  {
  }

  /** The acknowledged edits are the committed offline PUTs. */
  ghost predicate AckedInLog(p: Proxy) {
    forall b :: b in p.acked <==> Answered202(p.node.log, b)
  }

  lemma SectionAcks(su: Setup, p: Proxy, t: Thread, l: WS.Label)
    requires WS.Enabled(p.node, t, l)
    ensures var p' := SectionStep(su, p, t, l);
            && p'.node == WS.Step(p.node, t, l, su.cfg.backups)
            && p'.acked == p.acked + (if l.UpdateIndex? && p.node.JobOf(t).req.kind.OfflinePut?
                                      then {p.node.JobOf(t).req.body} else {})
  {
  }

  lemma AckedSection(su: Setup, p: Proxy, t: Thread, l: WS.Label)
    requires AckedInLog(p) && WS.Enabled(p.node, t, l)
    ensures AckedInLog(SectionStep(su, p, t, l))
  {
    var p' := SectionStep(su, p, t, l);
    SectionAcks(su, p, t, l);
    CommitsAreIndexUpdates(p.node, t, l, su.cfg.backups);
    if p'.node.log != p.node.log {
      var last := p'.node.log[|p.node.log|];
      assert p'.node.log == p.node.log + [last];
      forall b ensures b in p'.acked <==> Answered202(p'.node.log, b) {
        Answered202Extends(p.node.log, last, b);
      }
    }
  }

  lemma AckedStep(su: Setup, p: Proxy, e: Event)
    requires AckedInLog(p) && Enabled(su, p, e)
    ensures AckedInLog(Step(su, p, e))
  {
    if e.Section? {
      AckedSection(su, p, e.t, e.l);
    } else {
      OutsideAcksNothing(su, p, e);
    }
  }

  lemma OutsideAcksNothing(su: Setup, p: Proxy, e: Event)
    requires Enabled(su, p, e) && !e.Section?
    ensures Step(su, p, e).acked == p.acked && Step(su, p, e).node == p.node
  {
  }

  /** In every state of every run the edits counted as acknowledged are exactly those whose offline
      PUT was answered 202. */
  lemma {:induction false} AcknowledgedMeansAnswered202(su: Setup, p: Proxy, events: seq<Event>)
    requires AckedInLog(p) && Schedule(su, p, events)
    ensures AckedInLog(Run(su, p, events))
    decreases events
  {
    if events != [] {
      AckedStep(su, p, events[0]);
      AcknowledgedMeansAnswered202(su, Step(su, p, events[0]), events[1..]);
    }
  }

  // ---- What a proxy does with a PUT, and what it pushes on its own ----

  /** While the upstream is away a PUT goes one way: into the queue when the object may leave the
      proxy, and otherwise into the store alone. The hub's own path is not taken, and copies that were
      fetched are always taken in. */
  lemma EveryPutHasOneRoute(su: Setup, p: Proxy, t: Thread, h: string, b: Body)
    requires p.node.JobOf(t).NoJob? && p.node.mutex.At(t).Idle?
    ensures var leaves := GLOBAL_REALM in b.Realms() || su.pushAll;
            && (Enabled(su, p, Section(t, WS.Call(Request(OfflinePut(h), b)))) <==> leaves)
            && (Enabled(su, p, Section(t, WS.Call(Request(PrivatePut(h), b)))) <==> !leaves)
            && Enabled(su, p, Section(t, WS.Call(Request(CacheIn, b))))
            && !Enabled(su, p, Section(t, WS.Call(Request(HubPut(h), b))))
  {
  }

  /** The pushes a step spawns: the live object that the upstream turned out not to have, and the one
      that turned out to be newer than the upstream's. */
  function Spawns(su: Setup, p: Proxy, e: Event): set<Body> {
    match e
    case FindMissing(ref) => (match p.node.CellOf(ref).live case Some(b) => {b} case None => {})
    case Section(t, l) =>
      var log := WS.Step(p.node, t, l, su.cfg.backups).log;
      if |log| > |p.node.log| then
        (match log[|log| - 1].response case LocalNewer(Some(b)) => {b} case _ => {})
      else {}
    case _ => {}
  }

  lemma SectionSpawns(su: Setup, p: Proxy, t: Thread, l: WS.Label)
    requires WS.Enabled(p.node, t, l)
    ensures SectionStep(su, p, t, l).pushes == p.pushes + Spawns(su, p, Section(t, l))
  {
  }

  /** Nothing is pushed in the background but what a step spawned, and nothing spawned is forgotten
      before it has gone out. */
  lemma PushesAreSpawned(su: Setup, p: Proxy, e: Event)
    requires Enabled(su, p, e)
    ensures Step(su, p, e).pushes == p.pushes + Spawns(su, p, e) - (if e.Push? then {e.b} else {})
  {
    if e.Section? {
      SectionSpawns(su, p, e.t, e.l);
    } else {
      assert p.pushes + Spawns(su, p, e) == if e.FindMissing? then p.pushes + Spawns(su, p, e) else p.pushes;
    }
  }

  // ---- The two promises ----

  /** During the run an upload of the edit was answered 200 or 201, or the upstream served a genuine
      copy of the same item; or its bytes are archived now. */
  predicate SettledBy(su: Setup, start: Proxy, events: seq<Event>, e: Body) {
    var p := Run(su, start, events);
    || e in Accepted(su, start, events) || e in Matched(su, start, events)
    || e in p.conflicts.Values || e in p.rejected.Values
  }

  lemma SettledMeansSettledBy(su: Setup, start: Proxy, events: seq<Event>, e: Body)
    requires Starts(su, start) && Schedule(su, start, events)
    ensures Settled(Run(su, start, events), e) <==> SettledBy(su, start, events, e)
  {
    BooksAreTrue(su, start, events);
  }

  /** No edit answered 202 is ever lost: in every state of every run it is still queued, or settled;
      or an edit of strictly higher revision took its place in the queue, and one such edit of the
      same object is itself still queued or settled. */
  lemma NoAcknowledgedEditIsLost(su: Setup, start: Proxy, events: seq<Event>, e: Body)
    requires Starts(su, start) && Schedule(su, start, events)
    requires Answered202(Run(su, start, events).node.log, e)
    ensures var p := Run(su, start, events);
            || Queued(p, e) || SettledBy(su, start, events, e)
            || (&& (exists n :: (e, n) in p.replaced && n.Ref() == e.Ref() && n.item.revision > e.item.revision)
                && (exists f: Body :: f.Ref() == e.Ref() && f.item.revision > e.item.revision
                     && (Queued(p, f) || SettledBy(su, start, events, f))))
  {
    var p := Run(su, start, events);
    AcknowledgedMeansAnswered202(su, start, events);
    AcknowledgedAreSafe(su, start, events, e);
    SettledMeansSettledBy(su, start, events, e);
    if Outlived(p, e) {
      var f :| Outlives(p, f, e);
      SettledMeansSettledBy(su, start, events, f);
    }
  }

  /** Unless the operator asked for everything to be pushed, only dataverse001 objects are ever put
      to the upstream, by forwarding, by background push or from the queue, and the queue stays global. */
  lemma OnlyGlobalObjectsLeave(su: Setup, start: Proxy, events: seq<Event>)
    requires !su.pushAll && Starts(su, start) && Schedule(su, start, events)
    requires forall ref | ref in start.pending :: GLOBAL_REALM in start.pending[ref].Realms()
    ensures forall b | b in Emitted(su, start, events) :: GLOBAL_REALM in b.Realms()
    ensures var p := Run(su, start, events);
            forall ref | ref in p.pending :: GLOBAL_REALM in p.pending[ref].Realms()
  {
    PermittedRun(su, start, events);
    BooksAreTrue(su, start, events);
    var p := Run(su, start, events);
    assert forall b | b in p.sent :: su.MayLeave(b);
    assert forall ref | ref in p.pending :: su.MayLeave(p.pending[ref]);
  }
}
