/** The queue of edits accepted while the upstream was unreachable (upstream/sync.go). */
module SyncQueue {
  import opened Decimal
  import opened Objects
  import opened Archive

  type Pending = map<string, Body>

  /** What an upload's answer means to the queue. */
  datatype Outcome = Accepted | Conflicted | Rejected | Retry

  /** The switch of pushOne: None is a transport error, and 429 is a client error like any other. */
  function Classify(status: Option<int>): Outcome {
    if status.None? then Retry
    else if status.value == 200 || status.value == 201 then Accepted
    else if status.value == 409 then Conflicted
    else if 400 <= status.value < 500 then Rejected
    else Retry
  }

  /** acknowledge: only the version actually sent is removed, never a newer queued edit. */
  function Acknowledge(pending: Pending, ref: string, sent: Body, ok: bool): Pending {
    if ref in pending && pending[ref] == sent && ok then pending - {ref} else pending
  }

  /** fetchObject: the upstream copy, when it was read, verifies, and is the object asked for. */
  function Fetched(ref: string, answer: Option<Body>): Option<Body> {
    if answer.Some? && answer.value.verified && answer.value.Ref() == ref then answer else None
  }

  /** What one attempt meets, in order: reading the queued file, building the request, the upload's
      status, the copy after a 409 (None when it cannot be fetched, parsed or compared), publishing in
      an archive, and acknowledge's own read and removal; and whether the pause after it is cut short. */
  datatype Attempt = Attempt(
    read: bool,
    built: bool,
    status: Option<int>,
    remote: Option<Body>,
    publish: PublishIo,
    reread: bool,
    remove: bool,
    stop: bool
  ) {
    /** The upload goes out; otherwise the loop passes on to the next ref. */
    predicate Starts() {
      read && built
    }

    /** acknowledge can do its work. */
    predicate Drops() {
      reread && remove
    }
  }

  datatype Queue = Queue(pending: Pending, conflicts: Files, rejected: Files)

  /** One pushOne during which no edit arrives; the flag says whether the drain loop goes on to the
      next ref. An entry whose file cannot be read is skipped and stays. */
  function PushOne(q: Queue, digest: Body -> Digest, ref: string, a: Attempt): (Queue, bool) {
    if ref !in q.pending || !a.Starts() then (q, true) else
    var data := q.pending[ref];
    var removed := Acknowledge(q.pending, ref, data, a.Drops());
    match Classify(a.status)
    case Retry => (q, false)
    case Accepted => (q.(pending := removed), a.Drops())
    case Rejected =>
      var (files, ok) := Preserve(q.rejected, digest, data, a.publish);
      (q.(rejected := files, pending := if ok then removed else q.pending), ok && a.Drops())
    case Conflicted => AfterConflict(q, digest, ref, data, Fetched(ref, a.remote), a)
  }

  /** What an attempt answered 409 does with the copy it fetched. */
  function AfterConflict(q: Queue, digest: Body -> Digest, ref: string, data: Body, remote: Option<Body>,
                         a: Attempt): (Queue, bool) {
    var removed := Acknowledge(q.pending, ref, data, a.Drops());
    if remote.None? then (q, false)
    else if SameItem(data, remote.value) then (q.(pending := removed), a.Drops())
    else
      var (files, ok) := Preserve(q.conflicts, digest, data, a.publish);
      (q.(conflicts := files, pending := if ok then removed else q.pending), ok && a.Drops())
  }

  /** The archive has the bytes already, or takes them. */
  predicate Archives(files: Files, digest: Body -> Digest, data: Body, io: PublishIo) {
    io == Linked(true) && (digest(data) in files ==> files[digest(data)] == data)
  }

  /** The upstream has refused the edit for good: a client error other than a conflict. */
  predicate RefusedFor(status: Option<int>) {
    status.Some? && 400 <= status.value < 500 && status.value != 409
  }

  /** A copy of the object that the upstream serves and that verifies. */
  predicate Genuine(remote: Option<Body>, ref: string) {
    remote.Some? && remote.value.verified && remote.value.Ref() == ref
  }

  /** An attempt takes the edit out of the queue exactly when its upload went out, acknowledge could
      do its work, and the upstream answered 200 or 201; or 409 while it serves a genuine copy of the
      object that is the same item, or the edit is archived as a conflict; or another client error and
      the edit is archived as rejected. Nothing else is archived, and no other ref's edit is touched. */
  lemma PushOneSettles(q: Queue, digest: Body -> Digest, ref: string, a: Attempt)
    requires ref in q.pending
    ensures var (q', _) := PushOne(q, digest, ref, a);
            var data := q.pending[ref];
            && q'.pending - {ref} == q.pending - {ref}
            && (ref in q'.pending ==> q'.pending[ref] == data)
            && (ref !in q'.pending <==>
                  a.read && a.built && a.reread && a.remove && (
                    || a.status == Some(200) || a.status == Some(201)
                    || (a.status == Some(409) && Genuine(a.remote, ref)
                        && (a.remote.value.item == data.item || Archives(q.conflicts, digest, data, a.publish)))
                    || (RefusedFor(a.status) && Archives(q.rejected, digest, data, a.publish))))
            && (ref !in q'.pending && RefusedFor(a.status) ==> data in q'.rejected.Values)
            && (ref !in q'.pending && a.status == Some(409) && a.remote.value.item != data.item
                ==> data in q'.conflicts.Values)
            && (q'.rejected != q.rejected ==> a.Starts() && RefusedFor(a.status))
            && (q'.conflicts != q.conflicts
                ==> a.Starts() && a.status == Some(409) && Genuine(a.remote, ref) && a.remote.value.item != data.item)
  {
    ArchiveOnlyGrows(q.rejected, digest, q.pending[ref], a.publish);
    ArchiveOnlyGrows(q.conflicts, digest, q.pending[ref], a.publish);
  }

  /** One pass of the drain loop over the refs it listed, while no edit arrives: it ends at the first
      attempt that fails, or when told to stop in a pause; the number counts the attempts that did not fail. */
  function DrainPass(q: Queue, digest: Body -> Digest, refs: seq<string>, attempts: seq<Attempt>): (Queue, nat)
    requires |attempts| == |refs|
    decreases |refs|
  {
    if refs == [] then (q, 0)
    else
      var (q', goOn) := PushOne(q, digest, refs[0], attempts[0]);
      if !goOn then (q', 0)
      else if attempts[0].stop then (q', 1)
      else
        var (rest, done) := DrainPass(q', digest, refs[1..], attempts[1..]);
        (rest, done + 1)
  }

  /** The loop goes on exactly when the upload never went out or the ref is no longer queued. */
  lemma GoesOnWhenSkippedOrSettled(q: Queue, digest: Body -> Digest, ref: string, a: Attempt)
    ensures var (q', goOn) := PushOne(q, digest, ref, a); goOn <==> !a.Starts() || ref !in q'.pending
  {
  }

  lemma PushOneArchives(q: Queue, digest: Body -> Digest, ref: string, a: Attempt)
    requires ref in q.pending
    ensures var q' := PushOne(q, digest, ref, a).0;
            q.conflicts.Values <= q'.conflicts.Values && q.rejected.Values <= q'.rejected.Values
  {
    ArchiveKeeps(q.rejected, digest, q.pending[ref], a.publish);
    ArchiveKeeps(q.conflicts, digest, q.pending[ref], a.publish);
  }

  lemma ArchiveKeeps(files: Files, digest: Body -> Digest, data: Body, io: PublishIo)
    ensures files.Values <= Preserve(files, digest, data, io).0.Values
  {
    var files' := Preserve(files, digest, data, io).0;
    ArchiveOnlyGrows(files, digest, data, io);
    forall v | v in files.Values ensures v in files'.Values {
      var k :| k in files && files[k] == v;
      assert k in files' && files'[k] == v;
    }
  }

  /** The refs before position n whose upload went out. */
  function Taken(refs: seq<string>, attempts: seq<Attempt>, n: nat): set<string>
    requires n <= |refs| == |attempts|
  {
    set i | 0 <= i < n && attempts[i].Starts() :: refs[i]
  }

  lemma TakenStep(refs: seq<string>, attempts: seq<Attempt>, n: nat)
    requires n < |refs| == |attempts|
    ensures Taken(refs, attempts, n + 1)
            == (if attempts[0].Starts() then {refs[0]} else {}) + Taken(refs[1..], attempts[1..], n)
  {
    var all, rest := Taken(refs, attempts, n + 1), Taken(refs[1..], attempts[1..], n);
    forall r | r in all && !(attempts[0].Starts() && r == refs[0]) ensures r in rest {
      var i :| 0 <= i < n + 1 && attempts[i].Starts() && refs[i] == r;
      assert refs[1..][i - 1] == r && attempts[1..][i - 1] == attempts[i];
    }
    forall r | r in rest ensures r in all {
      var i :| 0 <= i < n && attempts[1..][i].Starts() && refs[1..][i] == r;
      assert refs[i + 1] == r && attempts[i + 1] == attempts[1..][i];
    }
  }

  lemma PushOneEffect(q: Queue, digest: Body -> Digest, ref: string, a: Attempt)
    ensures var (q', goOn) := PushOne(q, digest, ref, a);
            && q'.pending == (if goOn && a.Starts() then q.pending - {ref} else q.pending)
            && (!goOn ==> ref in q.pending && a.Starts())
            && q.conflicts.Values <= q'.conflicts.Values && q.rejected.Values <= q'.rejected.Values
  {
    GoesOnWhenSkippedOrSettled(q, digest, ref, a);
    if ref in q.pending {
      PushOneSettles(q, digest, ref, a);
      PushOneArchives(q, digest, ref, a);
    }
  }

  /** A pass takes out exactly the refs whose upload went out before it ended, and it ends early only
      at an attempt that left its entry queued or in a pause cut short. */
  lemma {:induction false} PassTakesWhatItSent(q: Queue, digest: Body -> Digest, refs: seq<string>,
                                               attempts: seq<Attempt>)
    requires |attempts| == |refs|
    ensures var (r, done) := DrainPass(q, digest, refs, attempts);
            && done <= |refs|
            && r.pending == q.pending - Taken(refs, attempts, done)
            && (done < |refs| ==> || (done > 0 && attempts[done - 1].stop)
                                  || (attempts[done].Starts() && refs[done] in r.pending))
            && q.conflicts.Values <= r.conflicts.Values && q.rejected.Values <= r.rejected.Values
    decreases |refs|
  {
    if refs != [] {
      var (q', goOn) := PushOne(q, digest, refs[0], attempts[0]);
      PushOneEffect(q, digest, refs[0], attempts[0]);
      if goOn {
        if attempts[0].stop {
          TakenStep(refs, attempts, 0);
        } else {
          PassTakesWhatItSent(q', digest, refs[1..], attempts[1..]);
          TakenStep(refs, attempts, DrainPass(q', digest, refs[1..], attempts[1..]).1);
        }
      }
    }
  }

  lemma NothingLeft(m: Pending, s: set<string>)
    ensures m - s == map[] <==> m.Keys <= s
  {
    var rest := m - s;
    var none: Pending := map[];
    assert rest.Keys == m.Keys - s;
    if m.Keys <= s {
      assert rest.Keys == none.Keys;
      assert rest == none;
    }
    if rest == none {
      forall k | k in m ensures k in s {
        assert k !in rest.Keys;
      }
    }
  }

  predicate NoRepeats(refs: seq<string>) {
    forall i, j | 0 <= i < j < |refs| :: refs[i] != refs[j]
  }

  /** A pass that gets to the end of a full listing leaves the queue empty exactly when the file of
      every queued entry could be read and its upload went out. */
  lemma CompletePassEmptiesTheQueue(q: Queue, digest: Body -> Digest, refs: seq<string>, attempts: seq<Attempt>)
    requires |attempts| == |refs| && NoRepeats(refs) && (forall ref | ref in q.pending :: ref in refs)
    ensures var (r, done) := DrainPass(q, digest, refs, attempts);
            done == |refs| ==>
              (r.pending == map[] <==> forall i | 0 <= i < |refs| && refs[i] in q.pending :: attempts[i].Starts())
  {
    PassTakesWhatItSent(q, digest, refs, attempts);
    var taken := Taken(refs, attempts, |refs|);
    NothingLeft(q.pending, taken);
    if q.pending.Keys <= taken {
      forall i | 0 <= i < |refs| && refs[i] in q.pending ensures attempts[i].Starts() {
        assert refs[i] in taken;
        var j :| 0 <= j < |refs| && attempts[j].Starts() && refs[j] == refs[i];
        assert i == j;
      }
    }
    if forall i | 0 <= i < |refs| && refs[i] in q.pending :: attempts[i].Starts() {
      forall ref | ref in q.pending ensures ref in taken {
        var i :| 0 <= i < |refs| && refs[i] == ref;
        assert attempts[i].Starts();
      }
    }
  }

  /** The failing input: one queued entry whose file cannot be read. The pass gets to its end, every
      other operation would have succeeded, and the entry is still queued. */
  lemma UnreadableEntryIsSkipped(digest: Body -> Digest, e: Body)
    ensures var q := Queue(map[e.Ref() := e], map[], map[]);
            var a := Attempt(false, true, Some(200), None, Linked(true), true, true, false);
            DrainPass(q, digest, [e.Ref()], [a]) == (q, 1)
  {
  }

  class SyncPending {
    const digest: Body -> Digest
    var dir: Pending
    const conflicts: Folder
    const rejected: Folder

    ghost predicate Valid() reads this {
      conflicts != rejected && conflicts.digest == digest && rejected.digest == digest
    }

    ghost function View(): Queue reads this, conflicts, rejected {
      Queue(dir, conflicts.files, rejected.files)
    }

    constructor (digest: Body -> Digest)
      ensures Valid() && View() == Queue(map[], map[], map[]) && fresh(conflicts) && fresh(rejected)
      ensures this.digest == digest
    {
      this.digest := digest;
      dir := map[];
      conflicts := new Folder(digest);
      rejected := new Folder(digest);
    }

    method Add(ref: string, data: Body, io: bool) returns (ok: bool)
      requires Valid()
      modifies this
      ensures Valid() && ok == io
      ensures View() == if io then old(View()).(pending := old(dir)[ref := data]) else old(View())
    {
      if !io { return false; }
      dir := dir[ref := data];
      return true;
    }

    /** acknowledge: its read may fail even where its file is gone. */
    method DropSent(ref: string, sent: Body, reread: bool, remove: bool) returns (ok: bool)
      requires Valid()
      modifies this
      ensures Valid() && View() == old(View()).(pending := Acknowledge(old(dir), ref, sent, reread && remove))
      ensures ok == (reread && (ref !in old(dir) || old(dir)[ref] != sent || remove))
    {
      if !reread { return false; }
      if ref !in dir { return true; }
      if dir[ref] != sent { return true; }
      if !remove { return false; }
      dir := dir - {ref};
      return true;
    }

    /** Archive first, acknowledge only what was archived. */
    method PreserveAndDrop(folder: Folder, ref: string, data: Body, a: Attempt) returns (ok: bool)
      requires Valid() && (folder == conflicts || folder == rejected)
      modifies this, folder
      ensures Valid()
      ensures var (files, archived) := Preserve(old(folder.files), digest, data, a.publish);
              && folder.files == files
              && dir == (if archived then Acknowledge(old(dir), ref, data, a.Drops()) else old(dir))
              && ok == (archived && a.reread && (ref !in old(dir) || old(dir)[ref] != data || a.remove))
    {
      var archived := folder.PreserveConflict(data, a.publish);
      if !archived { return false; }
      ok := DropSent(ref, data, a.reread, a.remove);
    }

    method TryPush(ref: string, a: Attempt) returns (goOn: bool)
      requires Valid()
      modifies this, conflicts, rejected
      ensures Valid() && (View(), goOn) == PushOne(old(View()), digest, ref, a)
    {
      if ref !in dir || !a.read { return true; }
      var data := dir[ref];
      if !a.built { return true; }
      match Classify(a.status) {
        case Accepted => goOn := DropSent(ref, data, a.reread, a.remove);
        case Conflicted =>
          var remote := Fetched(ref, a.remote);
          if remote.None? { return false; }
          if SameItem(data, remote.value) {
            goOn := DropSent(ref, data, a.reread, a.remove);
          } else {
            goOn := PreserveAndDrop(conflicts, ref, data, a);
          }
        case Rejected => goOn := PreserveAndDrop(rejected, ref, data, a);
        case Retry => return false;
      }
    }

    /** The inner loop of drain, over the refs just listed. */
    method Pass(refs: seq<string>, attempts: seq<Attempt>) returns (done: nat)
      requires Valid() && |attempts| == |refs|
      modifies this, conflicts, rejected
      ensures Valid() && (View(), done) == DrainPass(old(View()), digest, refs, attempts)
    {
      done := 0;
      while done < |refs|
        invariant Valid() && 0 <= done <= |refs|
        invariant var (rest, n) := DrainPass(View(), digest, refs[done..], attempts[done..]);
                  DrainPass(old(View()), digest, refs, attempts) == (rest, done + n)
      {
        var goOn := TryPush(refs[done], attempts[done]);
        if !goOn { break; }
        done := done + 1;
        if attempts[done - 1].stop { break; }
      }
    }
  }
}
