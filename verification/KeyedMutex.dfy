/** The per-key lock of serving/keyedmutex.go as a step system: every access to the shared
    table, every counter update and every acquisition of one of its two lock levels is one step,
    and any number of threads interleave their steps freely. */
module KeyedMutex {
  import opened Decimal

  type Thread = int
  type Key = string
  type CellId = int

  /** One refLock: which thread holds its mutex, and its counter. Cells are never reused;
      `key` records what the cell was created for and is read by no step. */
  datatype Cell = Cell(key: Key, holder: Option<Thread>, waiters: int)

  /** Where a thread is inside Lock or Unlock. The cell named in Inside, WantExit and ExitLookup
      is a proof annotation: Unlock finds its cell again by key, and no step reads the annotation. */
  datatype Pc =
    | Idle
    | WantEnter(key: Key)                 // Lock called, waiting for the table mutex
    | EnterLookup(key: Key)               // table mutex held, entry not looked up yet
    | EnterCount(key: Key, cell: CellId)  // entry found or created
    | EnterRelease(key: Key, cell: CellId)// counted, table mutex still held
    | WantCell(key: Key, cell: CellId)    // waiting for the entry's own mutex
    | Inside(key: Key, cell: CellId)      // Lock has returned
    | WantExit(key: Key, cell: CellId)    // Unlock called
    | ExitLookup(key: Key, cell: CellId)
    | ExitCount(key: Key, cell: CellId)
    | ExitDrop(key: Key, cell: CellId)    // counter decremented
    | ExitRelease(key: Key, cell: CellId) // entry dropped if its counter reached zero
    | ExitCell(key: Key, cell: CellId)    // table mutex released
    | Panicked

  /** `mu` is the table mutex, `locks` the table, `heap` every cell ever allocated. */
  datatype State = State(mu: Option<Thread>, locks: map<Key, CellId>, heap: seq<Cell>, pcs: map<Thread, Pc>) {
    function At(t: Thread): Pc {
      if t in pcs then pcs[t] else Idle
    }

    function Goto(t: Thread, pc: Pc): State {
      this.(pcs := pcs[t := pc])
    }
  }

  const EMPTY := State(None, map[], [], map[])

  predicate HoldsTable(pc: Pc) {
    pc.EnterLookup? || pc.EnterCount? || pc.EnterRelease? || pc.ExitLookup? || pc.ExitCount? || pc.ExitDrop? ||
        pc.ExitRelease?
  }

  /** Counted in the cell's `waiters`. */
  predicate Registered(pc: Pc) {
    pc.EnterRelease? || pc.WantCell? || pc.Inside? || pc.WantExit? || pc.ExitLookup? || pc.ExitCount?
  }

  predicate HoldsCell(pc: Pc) {
    pc.Inside? || pc.WantExit? || pc.ExitLookup? || pc.ExitCount? || pc.ExitDrop? || pc.ExitRelease? || pc.ExitCell?
  }

  /** Between Lock returning and Unlock being called. */
  predicate InSection(s: State, t: Thread, key: Key) {
    s.At(t).Inside? && s.At(t).key == key
  }

  /** An action a thread chooses; everything else is forced by its program counter. */
  datatype Action = CallLock(key: Key) | CallUnlock | Advance

  function SetCell(s: State, c: CellId, cell: Cell): State
    requires 0 <= c < |s.heap|
  {
    s.(heap := s.heap[c := cell])
  }

  /** Whether the thread can take the step now: only the two mutexes block. */
  predicate Enabled(s: State, t: Thread, a: Action) {
    match a
    case CallLock(_) => s.At(t).Idle?
    case CallUnlock => s.At(t).Inside?
    case Advance =>
      var pc := s.At(t);
      match pc
      case WantEnter(_) => s.mu.None?
      case WantExit(_, _) => s.mu.None?
      case WantCell(_, c) => 0 <= c < |s.heap| && s.heap[c].holder.None?
      case Idle => false
      case Inside(_, _) => false
      case Panicked => false
      case _ => true
  }

  /** The step itself. A cell id outside the heap cannot arise; the state is then left alone. */
  function Step(s: State, t: Thread, a: Action): State {
    match a
    case CallLock(key) => s.Goto(t, WantEnter(key))
    case CallUnlock => (match s.At(t) case Inside(k, c) => s.Goto(t, WantExit(k, c)) case _ => s)
    case Advance =>
      match s.At(t)
      case WantEnter(k) => s.(mu := Some(t)).Goto(t, EnterLookup(k))
      case EnterLookup(k) =>
        if k in s.locks then s.Goto(t, EnterCount(k, s.locks[k]))
        else s.(locks := s.locks[k := |s.heap|], heap := s.heap + [Cell(k, None, 0)]).Goto(t, EnterCount(k, |s.heap|))
      case EnterCount(k, c) =>
        if 0 <= c < |s.heap|
        then SetCell(s, c, s.heap[c].(waiters := s.heap[c].waiters + 1)).Goto(t, EnterRelease(k, c))
        else s
      case EnterRelease(k, c) => s.(mu := None).Goto(t, WantCell(k, c))
      case WantCell(k, c) =>
        if 0 <= c < |s.heap| then SetCell(s, c, s.heap[c].(holder := Some(t))).Goto(t, Inside(k, c)) else s
      case WantExit(k, c) => s.(mu := Some(t)).Goto(t, ExitLookup(k, c))
      case ExitLookup(k, _) =>
        if k in s.locks then s.Goto(t, ExitCount(k, s.locks[k]))
        else s.(mu := None).Goto(t, Panicked)
      case ExitCount(k, c) =>
        if 0 <= c < |s.heap|
        then SetCell(s, c, s.heap[c].(waiters := s.heap[c].waiters - 1)).Goto(t, ExitDrop(k, c))
        else s
      case ExitDrop(k, c) =>
        (if 0 <= c < |s.heap| && s.heap[c].waiters == 0 then s.(locks := s.locks - {k})
            else s).Goto(t, ExitRelease(k, c))
      case ExitRelease(k, c) => s.(mu := None).Goto(t, ExitCell(k, c))
      case ExitCell(k, c) =>
        if 0 <= c < |s.heap| then SetCell(s, c, s.heap[c].(holder := None)).Goto(t, Idle) else s
      case _ => s
  }

  // ---- The invariant ----

  predicate Counted(pc: Pc, c: CellId) {
    Registered(pc) && pc.cell == c
  }

  /** The threads counted in cell c. */
  function Waiting(pcs: map<Thread, Pc>, c: CellId): set<Thread> {
    set t | t in pcs && Counted(pcs[t], c)
  }

  predicate ThreadInv(s: State, t: Thread) {
    var pc := s.At(t);
    && !pc.Panicked?
    && (s.mu == Some(t) <==> HoldsTable(pc))
    && (Registered(pc) || HoldsCell(pc) || pc.EnterCount? ==> 0 <= pc.cell < |s.heap|)
    && (Registered(pc) || pc.EnterCount? || pc.ExitDrop? ==> pc.key in s.locks && s.locks[pc.key] == pc.cell)
    && (HoldsCell(pc) ==> s.heap[pc.cell].holder == Some(t))
  }

  predicate CellInv(s: State, c: CellId) {
    0 <= c < |s.heap| ==>
      && s.heap[c].waiters == |Waiting(s.pcs, c)|
      && (s.heap[c].holder.Some? ==> var pc := s.At(s.heap[c].holder.value); HoldsCell(pc) && pc.cell == c)
  }

  /** An entry may have a zero counter only while the table's holder is about to raise or drop it. */
  predicate Transient(s: State, key: Key) {
    s.mu.Some? && var pc := s.At(s.mu.value); (pc.EnterCount? || pc.ExitDrop?) && pc.key == key
  }

  predicate KeyInv(s: State, key: Key) {
    key in s.locks ==>
      && 0 <= s.locks[key] < |s.heap|
      && s.heap[s.locks[key]].key == key
      && (s.heap[s.locks[key]].waiters > 0 || Transient(s, key))
  }

  ghost predicate Inv(s: State) {
    && (forall t :: ThreadInv(s, t))
    && (forall c :: CellInv(s, c))
    && (forall k :: KeyInv(s, k))
  }

  lemma InvInitial()
    ensures Inv(EMPTY)
  {
  }

  function One(b: bool): int {
    if b then 1 else 0
  }

  lemma OneElement(before: set<Thread>, after: set<Thread>, t: Thread)
    requires before - {t} == after - {t}
    ensures |after| == |before| + One(t in after) - One(t in before)
  {
    assert |before - {t}| == |before| - One(t in before);
    assert |after - {t}| == |after| - One(t in after);
  }

  /** Moving one thread adds it to, or takes it from, at most one waiting set. */
  lemma WaitingMoves(pcs: map<Thread, Pc>, t: Thread, pc: Pc, c: CellId)
    ensures |Waiting(pcs[t := pc], c)| ==
            |Waiting(pcs, c)| + One(Counted(pc, c)) - One(t in pcs && Counted(pcs[t], c))
  {
    var before, after := Waiting(pcs, c), Waiting(pcs[t := pc], c);
    forall u ensures u in before - {t} <==> u in after - {t} {
    }
    OneElement(before, after, t);
  }

  lemma NobodyKnowsFreshCell(s: State)
    requires forall t :: ThreadInv(s, t)
    ensures Waiting(s.pcs, |s.heap|) == {}
  {
    forall t | t in s.pcs ensures !Counted(s.pcs[t], |s.heap|) {
      assert ThreadInv(s, t);
    }
  }

  lemma OwnStep(s: State, t: Thread, a: Action)
    requires Inv(s) && Enabled(s, t, a)
    ensures ThreadInv(Step(s, t, a), t)
  {
    assert ThreadInv(s, t);
    assert s.At(t).EnterLookup? ==> KeyInv(s, s.At(t).key);
  }

  lemma OtherStep(s: State, t: Thread, a: Action, u: Thread)
    requires Inv(s) && Enabled(s, t, a) && u != t
    ensures ThreadInv(Step(s, t, a), u)
  {
    assert ThreadInv(s, t) && ThreadInv(s, u);
    if s.At(t).ExitDrop? && Counted(s.At(u), s.At(t).cell) {
      assert CellInv(s, s.At(t).cell) && u in Waiting(s.pcs, s.At(t).cell);  // so the entry is not dropped
    }
  }

  lemma ThreadStep(s: State, t: Thread, a: Action, u: Thread)
    requires Inv(s) && Enabled(s, t, a)
    ensures ThreadInv(Step(s, t, a), u)
  {
    if u == t { OwnStep(s, t, a); } else { OtherStep(s, t, a, u); }
  }

  lemma WaitersStep(s: State, t: Thread, a: Action, c: CellId)
    requires Inv(s) && Enabled(s, t, a) && 0 <= c < |Step(s, t, a).heap|
    ensures var s' := Step(s, t, a); s'.heap[c].waiters == |Waiting(s'.pcs, c)|
  {
    var s' := Step(s, t, a);
    assert ThreadInv(s, t) && CellInv(s, c);
    NobodyKnowsFreshCell(s);
    WaitingMoves(s.pcs, t, s'.At(t), c);
    assert s'.pcs == s.pcs[t := s'.At(t)];
  }

  lemma HolderStep(s: State, t: Thread, a: Action, c: CellId)
    requires Inv(s) && Enabled(s, t, a) && 0 <= c < |Step(s, t, a).heap|
    ensures var s' := Step(s, t, a);
            s'.heap[c].holder.Some? ==> var pc := s'.At(s'.heap[c].holder.value); HoldsCell(pc) && pc.cell == c
  {
    assert ThreadInv(s, t) && CellInv(s, c);
  }

  lemma CellStep(s: State, t: Thread, a: Action, c: CellId)
    requires Inv(s) && Enabled(s, t, a)
    ensures CellInv(Step(s, t, a), c)
  {
    if 0 <= c < |Step(s, t, a).heap| {
      WaitersStep(s, t, a, c);
      HolderStep(s, t, a, c);
    }
  }

  lemma KeyStep(s: State, t: Thread, a: Action, k: Key)
    requires Inv(s) && Enabled(s, t, a)
    ensures KeyInv(Step(s, t, a), k)
  {
    assert ThreadInv(s, t) && KeyInv(s, k);
    assert s.mu.Some? ==> ThreadInv(s, s.mu.value);
    assert k in s.locks ==> CellInv(s, s.locks[k]);
    assert s.At(t).EnterCount? || s.At(t).ExitCount? ==> KeyInv(s, s.At(t).key);
  }

  /** Every step keeps the invariant. */
  lemma InvStep(s: State, t: Thread, a: Action)
    requires Inv(s) && Enabled(s, t, a)
    ensures Inv(Step(s, t, a))
  {
    var s' := Step(s, t, a);
    forall u ensures ThreadInv(s', u) { ThreadStep(s, t, a, u); }
    forall c ensures CellInv(s', c) { CellStep(s, t, a, c); }
    forall k ensures KeyInv(s', k) { KeyStep(s, t, a, k); }
  }

  predicate Entering(pc: Pc) {
    pc.WantEnter? || pc.EnterLookup? || pc.EnterCount? || pc.EnterRelease? || pc.WantCell?
  }

  predicate Leaving(pc: Pc) {
    pc.WantExit? || pc.ExitLookup? || pc.ExitCount? || pc.ExitDrop? || pc.ExitRelease? || pc.ExitCell?
  }

  /** A forced step moves one thread forward through Lock or Unlock of its own key. */
  lemma Forward(s: State, t: Thread)
    requires Inv(s) && Enabled(s, t, Advance)
    ensures var pc, pc' := s.At(t), Step(s, t, Advance).At(t);
            && (Entering(pc) || Leaving(pc))
            && (Entering(pc) ==> (Entering(pc') || pc'.Inside?) && pc'.key == pc.key)
            && (Leaving(pc) ==> pc'.Idle? || (Leaving(pc') && pc'.key == pc.key))
    ensures forall u | u != t :: Step(s, t, Advance).At(u) == s.At(u)
  {
    assert ThreadInv(s, t);
  }

  // ---- Runs ----

  datatype Move = Move(thread: Thread, action: Action)

  /** The moves can be taken one after the other from s. */
  predicate Schedule(s: State, moves: seq<Move>)
    decreases moves
  {
    moves != [] ==> Enabled(s, moves[0].thread, moves[0].action)
                    && Schedule(Step(s, moves[0].thread, moves[0].action), moves[1..])
  }

  function Run(s: State, moves: seq<Move>): State
    decreases moves
  {
    if moves == [] then s else Run(Step(s, moves[0].thread, moves[0].action), moves[1..])
  }

  lemma {:induction false} InvRun(s: State, moves: seq<Move>)
    requires Inv(s) && Schedule(s, moves)
    ensures Inv(Run(s, moves))
    decreases moves
  {
    if moves != [] {
      InvStep(s, moves[0].thread, moves[0].action);
      InvRun(Step(s, moves[0].thread, moves[0].action), moves[1..]);
    }
  }

  /** Two threads are never both between Lock returning and Unlock being called on one key. */
  lemma Exclusive(s: State, t: Thread, u: Thread, key: Key)
    requires Inv(s) && InSection(s, t, key) && InSection(s, u, key)
    ensures t == u
  {
    assert ThreadInv(s, t) && ThreadInv(s, u);
  }

  /** The threads inside Lock or Unlock of a key that its counter accounts for. */
  function Users(s: State, key: Key): set<Thread> {
    set t | t in s.pcs && Registered(s.pcs[t]) && s.pcs[t].key == key
  }

  /** What holds after every interleaving, from an empty table, of any number of threads. */
  lemma MutexSafety(moves: seq<Move>)
    requires Schedule(EMPTY, moves)
    ensures var s := Run(EMPTY, moves);
            && (forall t, u, k | InSection(s, t, k) && InSection(s, u, k) :: t == u)
            && (forall t :: !s.At(t).Panicked?)
            && (forall k | k in s.locks && !Transient(s, k) ::
                  0 <= s.locks[k] < |s.heap| && s.heap[s.locks[k]].waiters == |Users(s, k)| > 0)
            && (forall k, t | t in Users(s, k) :: k in s.locks)
  {
    var s := Run(EMPTY, moves);
    InvInitial();
    InvRun(EMPTY, moves);
    forall t, u, k | InSection(s, t, k) && InSection(s, u, k) ensures t == u {
      Exclusive(s, t, u, k);
    }
    forall t ensures !s.At(t).Panicked? {
      assert ThreadInv(s, t);
    }
    forall k | k in s.locks && !Transient(s, k)
      ensures 0 <= s.locks[k] < |s.heap| && s.heap[s.locks[k]].waiters == |Users(s, k)| > 0
    {
      EntryCountsUsers(s, k);
    }
    forall k, t | t in Users(s, k) ensures k in s.locks {
      assert ThreadInv(s, t);
    }
  }

  lemma EntryCountsUsers(s: State, k: Key)
    requires Inv(s) && k in s.locks
    ensures 0 <= s.locks[k] < |s.heap| && s.heap[s.locks[k]].waiters == |Users(s, k)|
    ensures Transient(s, k) || |Users(s, k)| > 0
  {
    assert KeyInv(s, k) && CellInv(s, s.locks[k]);
    forall t ensures t in Users(s, k) <==> t in Waiting(s.pcs, s.locks[k]) {
      assert ThreadInv(s, t);
      if t in s.pcs && Registered(s.pcs[t]) {
        assert KeyInv(s, s.pcs[t].key);
      }
    }
    assert Users(s, k) == Waiting(s.pcs, s.locks[k]);
  }

  /** A lock cannot be released when it is not held: the releasing thread holds its entry's mutex. */
  lemma ReleaseIsOwned(s: State, t: Thread)
    requires Inv(s) && s.At(t).ExitCell?
    ensures 0 <= s.At(t).cell < |s.heap| && s.heap[s.At(t).cell].holder == Some(t)
  {
    assert ThreadInv(s, t);
  }

  predicate CanMove(s: State, t: Thread) {
    Enabled(s, t, Advance) || Enabled(s, t, CallUnlock)
  }

  /** No deadlock: while any thread is inside Lock, the section or Unlock, some such thread can step. */
  lemma SomeoneCanMove(s: State, t: Thread) returns (mover: Thread)
    requires Inv(s) && !s.At(t).Idle?
    ensures !s.At(mover).Idle? && CanMove(s, mover)
  {
    assert ThreadInv(s, t);
    mover := t;
    if s.mu.Some? {
      assert ThreadInv(s, s.mu.value);
      mover := s.mu.value;
    } else if s.At(t).WantCell? && s.heap[s.At(t).cell].holder.Some? {
      assert CellInv(s, s.At(t).cell);
      mover := s.heap[s.At(t).cell].holder.value;
      assert ThreadInv(s, mover);
    }
  }

  /** How many steps of its own a thread has left until it is idle again. */
  function StepsLeft(pc: Pc): nat {
    match pc
    case Idle => 0
    case ExitCell(_, _) => 1
    case ExitRelease(_, _) => 2
    case ExitDrop(_, _) => 3
    case ExitCount(_, _) => 4
    case ExitLookup(_, _) => 5
    case WantExit(_, _) => 6
    case Inside(_, _) => 7
    case WantCell(_, _) => 8
    case EnterRelease(_, _) => 9
    case EnterCount(_, _) => 10
    case EnterLookup(_) => 11
    case WantEnter(_) => 12
    case Panicked => 0
  }

  /** No step is taken in vain: every one brings its thread one step nearer, and no other thread back. */
  lemma EveryStepAdvances(s: State, t: Thread, a: Action)
    requires Inv(s) && Enabled(s, t, a) && !a.CallLock?
    ensures StepsLeft(Step(s, t, a).At(t)) == StepsLeft(s.At(t)) - 1
    ensures forall u | u != t :: Step(s, t, a).At(u) == s.At(u)
  {
    assert ThreadInv(s, t);
  }

  // ---- The two stretches of code that run with the table mutex held ----

  function Entered(counts: map<Key, int>, key: Key): map<Key, int> {
    counts[key := (if key in counts then counts[key] else 0) + 1]
  }

  function Left(counts: map<Key, int>, key: Key): map<Key, int>
    requires key in counts
  {
    if counts[key] == 1 then counts - {key} else counts[key := counts[key] - 1]
  }

  class RefLock {
    var waiters: int
    constructor () ensures waiters == 0 { waiters := 0; }
  }

  /** The table as the source keeps it: entries are created, counted and deleted in place. */
  class LockTable {
    var locks: map<Key, RefLock>

    ghost predicate Valid() reads this {
      forall j, k | j in locks && k in locks && locks[j] == locks[k] :: j == k
    }

    ghost function Counts(): map<Key, int> reads this, locks.Values {
      map k | k in locks :: locks[k].waiters
    }

    constructor ()
      ensures Valid() && Counts() == map[]
    {
      locks := map[];
    }

    method Enter(key: Key) returns (l: RefLock)
      requires Valid()
      modifies this, locks.Values
      ensures Valid() && key in locks && locks[key] == l
      ensures key in old(locks) ==> locks == old(locks)
      ensures key !in old(locks) ==> fresh(l) && locks == old(locks)[key := l]
      ensures Counts() == Entered(old(Counts()), key)
    {
      if key in locks {
        l := locks[key];
      } else {
        l := new RefLock();
        locks := locks[key := l];
      }
      l.waiters := l.waiters + 1;
    }

    /** Unlock's stretch; `found` is false exactly where the source panics. */
    method Leave(key: Key) returns (found: bool)
      requires Valid()
      modifies this, locks.Values
      ensures Valid() && found == (key in old(locks))
      ensures !found ==> locks == old(locks) && Counts() == old(Counts())
      ensures found ==> Counts() == Left(old(Counts()), key)
      ensures forall k | k in locks :: k in old(locks) && locks[k] == old(locks[k])
    {
      found := key in locks;
      if found {
        var l := locks[key];
        l.waiters := l.waiters - 1;
        if l.waiters == 0 {
          locks := locks - {key};
        }
      }
    }
  }

  predicate InHeap(s: State) {
    forall k | k in s.locks :: 0 <= s.locks[k] < |s.heap|
  }

  lemma EntriesInHeap(s: State)
    requires Inv(s)
    ensures InHeap(s) && forall k | k in s.locks :: s.heap[s.locks[k]].key == k
  {
    forall k | k in s.locks ensures 0 <= s.locks[k] < |s.heap| && s.heap[s.locks[k]].key == k { assert KeyInv(s, k); }
  }

  function Counts(s: State): map<Key, int>
    requires InHeap(s)
  {
    map k | k in s.locks :: s.heap[s.locks[k]].waiters
  }

  /** What one forced step does to the counters: only four kinds of step touch them. */
  function CountsAfter(counts: map<Key, int>, pc: Pc): map<Key, int> {
    match pc
    case EnterLookup(k) => if k in counts then counts else counts[k := 0]
    case EnterCount(k, _) => if k in counts then counts[k := counts[k] + 1] else counts
    case ExitCount(k, _) => if k in counts then counts[k := counts[k] - 1] else counts
    case ExitDrop(k, _) => if k in counts && counts[k] == 0 then counts - {k} else counts
    case _ => counts
  }

  /** Rewriting one entry's cell changes that key's counter and no other. */
  lemma CountsOfSetCell(s: State, k: Key, cell: Cell, s': State)
    requires InHeap(s) && k in s.locks && cell.key == k
    requires forall j | j in s.locks :: s.heap[s.locks[j]].key == j
    requires s'.locks == s.locks && s'.heap == s.heap[s.locks[k] := cell]
    ensures InHeap(s') && Counts(s') == Counts(s)[k := cell.waiters]
  {
  }

  /** Taking or releasing a cell's own mutex changes no counter. */
  lemma CountsOfHolder(s: State, c: CellId, holder: Option<Thread>, s': State)
    requires InHeap(s) && 0 <= c < |s.heap|
    requires s'.locks == s.locks && s'.heap == s.heap[c := s.heap[c].(holder := holder)]
    ensures InHeap(s') && Counts(s') == Counts(s)
  {
  }

  lemma CountsOfEnter(s: State, k: Key)
    requires InHeap(s)
    ensures var s' := s.(locks := s.locks[k := |s.heap|], heap := s.heap + [Cell(k, None, 0)]);
            InHeap(s') && Counts(s') == Counts(s)[k := 0]
  {
  }

  lemma CountsOfDrop(s: State, k: Key)
    requires InHeap(s) && k in s.locks
    ensures var s' := s.(locks := s.locks - {k}); InHeap(s') && Counts(s') == Counts(s) - {k}
    ensures Counts(s)[k] == s.heap[s.locks[k]].waiters
  {
  }

  predicate WritesCell(pc: Pc) {
    pc.EnterCount? || pc.ExitCount? || pc.WantCell? || pc.ExitCell?
  }

  lemma StepCountsOfCell(s: State, t: Thread, s': State)
    requires InHeap(s) && (forall k | k in s.locks :: s.heap[s.locks[k]].key == k)
    requires ThreadInv(s, t) && Enabled(s, t, Advance) && s' == Step(s, t, Advance) && WritesCell(s.At(t))
    ensures InHeap(s') && Counts(s') == CountsAfter(Counts(s), s.At(t))
  {
    match s.At(t)
    case EnterCount(k, c) => CountsOfSetCell(s, k, s.heap[c].(waiters := s.heap[c].waiters + 1), s');
    case ExitCount(k, c) => CountsOfSetCell(s, k, s.heap[c].(waiters := s.heap[c].waiters - 1), s');
    case WantCell(_, c) => CountsOfHolder(s, c, Some(t), s');
    case ExitCell(_, c) => CountsOfHolder(s, c, None, s');
  }

  lemma StepCounts(s: State, t: Thread, s': State)
    requires InHeap(s) && (forall k | k in s.locks :: s.heap[s.locks[k]].key == k)
    requires ThreadInv(s, t) && Enabled(s, t, Advance) && s' == Step(s, t, Advance)
    ensures InHeap(s') && Counts(s') == CountsAfter(Counts(s), s.At(t))
  {
    match s.At(t)
    case EnterLookup(k) => if k !in s.locks { CountsOfEnter(s, k); }
    case ExitDrop(k, c) => CountsOfDrop(s, k);
    case _ => if WritesCell(s.At(t)) { StepCountsOfCell(s, t, s'); }
  }

  /** Seen through its counters, the table changes only as CountsAfter says. */
  lemma CountsStep(s: State, t: Thread)
    requires Inv(s) && Enabled(s, t, Advance)
    ensures InHeap(s) && InHeap(Step(s, t, Advance))
    ensures Counts(Step(s, t, Advance)) == CountsAfter(Counts(s), s.At(t))
  {
    EntriesInHeap(s);
    assert ThreadInv(s, t);
    StepCounts(s, t, Step(s, t, Advance));
  }

  /** The two counter steps of each stretch, one after the other, are Enter and Leave. */
  lemma StretchesMatch(counts: map<Key, int>, k: Key, c: CellId)
    ensures CountsAfter(CountsAfter(counts, EnterLookup(k)), EnterCount(k, c)) == Entered(counts, k)
    ensures k in counts ==> CountsAfter(CountsAfter(counts, ExitCount(k, c)), ExitDrop(k, c)) == Left(counts, k)
  {
    if k in counts {
      assert counts[k := counts[k] - 1] - {k} == counts - {k};
    }
  }
}
