/** One root hub and any number of proxies replicating one object: sync rounds, background pushes
    and queue uploads, delivered late, repeatedly, out of order or never, over disks that may fail at
    every operation (serving/proxy.go, serving/handlers.go). Each node's section is atomic here:
    WriteSystem proves that it may be read so. */
module Convergence {
  import opened Decimal
  import opened Objects
  import opened WritePath

  type Pid = nat

  /** A proxy's current sync round: GET sent and answered, or its local copy being pushed. */
  datatype Round = Idle | Answered(copy: Option<Body>) | Pushing(body: Body)

  /** `wire` holds every body that is, or ever was, on its way: stale answers, background pushes
      and queued edits. Anything on it may arrive anywhere at any time, any number of times. */
  datatype Net = Net(root: Cell, proxies: map<Pid, Cell>, rounds: map<Pid, Round>, done: map<Pid, nat>,
      wire: set<Body>) {
    function Proxy(p: Pid): Cell {
      if p in proxies then proxies[p] else NOTHING
    }

    function RoundOf(p: Pid): Round {
      if p in rounds then rounds[p] else Idle
    }

    function DoneBy(p: Pid): nat {
      if p in done then done[p] else 0
    }

    function Finish(p: Pid): Net {
      this.(rounds := rounds[p := Idle], done := done[p := DoneBy(p) + 1])
    }

    /** The round ends in a failure and is not counted. */
    function Abandon(p: Pid): Net {
      this.(rounds := rounds[p := Idle])
    }
  }

  /** `io` says how the file operations of the section turn out that the event runs. */
  datatype Event =
    | Ask(p: Pid)
    | Apply(p: Pid, io: Io)
    | Deliver(p: Pid, io: Io)
    | Lose(p: Pid)                        // the round's answer or push is lost, or answered with an error
    | StrayPush(b: Body, io: Io)
    | StrayAnswer(p: Pid, b: Body, io: Io)

  predicate Enabled(n: Net, e: Event) {
    match e
    case Ask(p) => n.RoundOf(p).Idle?
    case Apply(p, _) => n.RoundOf(p).Answered?
    case Deliver(p, _) => n.RoundOf(p).Pushing?
    case Lose(p) => !n.RoundOf(p).Idle?
    case StrayPush(b, _) => b in n.wire
    case StrayAnswer(_, b, _) => b in n.wire
  }

  /** What the hub checks before it takes the lock. */
  predicate Acceptable(b: Body) {
    b.verified && b.item.timestamp.Some?
  }

  function PutAtRoot(root: Cell, b: Body, io: Io, backups: bool): (Cell, Response) {
    if Acceptable(b) then Section(root, Request(HubPut(""), b), io, backups) else (root, Refused400)
  }

  /** Spawning a push of the local copy, if there is one and it may leave the proxy. */
  function PushOrFinish(n: Net, p: Pid, local: Option<Body>): Net {
    if local.Some? && local.value.IsGlobal()
    then n.(rounds := n.rounds[p := Pushing(local.value)], wire := n.wire + {local.value})
    else n.Finish(p)
  }

  /** The upstream's answer is taken in; a local copy that is newer goes out. */
  function TakeIn(n: Net, p: Pid, b: Body, io: Io, backups: bool): Net {
    var (c, r) := Section(n.Proxy(p), Request(CacheIn, b), io, backups);
    var n' := n.(proxies := n.proxies[p := c]);
    match r
    case LocalNewer(push) => if push.Some? then PushOrFinish(n', p, push) else n'.Abandon(p)
    case IoError => n'.Abandon(p)
    case _ => n'.Finish(p)
  }

  function Step(n: Net, e: Event, backups: bool): Net {
    match e
    case Ask(p) =>
      var copy := n.root.live;
      n.(rounds := n.rounds[p := Answered(copy)], wire := n.wire + (if copy.Some? then {copy.value} else {}))
    case Apply(p, io) =>
      (match n.RoundOf(p)
       case Answered(None) => if io.read then PushOrFinish(n, p, n.Proxy(p).live) else n.Abandon(p)
       case Answered(Some(b)) => TakeIn(n, p, b, io, backups)
       case _ => n)
    case Deliver(p, io) =>
      (match n.RoundOf(p)
       case Pushing(b) =>
         var (c, r) := PutAtRoot(n.root, b, io, backups);
         if r.IoError? then n.(root := c).Abandon(p) else n.(root := c).Finish(p)
       case _ => n)
    case Lose(p) => n.Abandon(p)
    case StrayPush(b, io) => n.(root := PutAtRoot(n.root, b, io, backups).0)
    case StrayAnswer(p, b, io) =>
      var (c, r) := Section(n.Proxy(p), Request(CacheIn, b), io, backups);
      var push := if r.LocalNewer? then r.push else None;
      n.(proxies := n.proxies[p := c], wire := n.wire + (if push.Some? then {push.value} else {}))
  }

  predicate Schedule(n: Net, events: seq<Event>, backups: bool)
    decreases events
  {
    events != [] ==> Enabled(n, events[0]) && Schedule(Step(n, events[0], backups), events[1..], backups)
  }

  function Run(n: Net, events: seq<Event>, backups: bool): Net
    decreases events
  {
    if events == [] then n else Run(Step(n, events[0], backups), events[1..], backups)
  }

  // ---- m is the one item of maximal revision ----

  predicate Below(m: Item, i: Item) {
    i.revision < m.revision || i == m
  }

  predicate IsCopy(m: Item, b: Option<Body>) {
    b.Some? && b.value.item == m
  }

  /** Neither index nor store exceeds m, and m is not indexed without its file. */
  predicate Sound(m: Item, c: Cell) {
    && (c.meta.Some? ==> Below(m, c.meta.value.item))
    && (c.live.Some? ==> Below(m, c.live.value.item))
    && (c.meta.Some? && c.meta.value.item == m ==> IsCopy(m, c.live))
  }

  /** The replica holds m, in its index and in its store. */
  predicate Has(m: Item, c: Cell) {
    c.meta.Some? && c.meta.value.item == m && IsCopy(m, c.live)
  }

  /** No new writes: everything on any node or on the wire is below m, or is m itself. */
  ghost predicate Quiet(m: Item, n: Net) {
    && Sound(m, n.root)
    && (forall b | b in n.wire :: Below(m, b.item))
    && (forall p :: QuietAt(m, n, p))
  }

  predicate QuietAt(m: Item, n: Net, p: Pid) {
    && Sound(m, n.Proxy(p))
    && match n.RoundOf(p)
       case Idle => true
       case Answered(copy) => copy.Some? ==> Below(m, copy.value.item)
       case Pushing(b) => Below(m, b.item)
  }

  /** A section that has something to store commits it. */
  predicate Commits(c: Cell, kind: Kind, io: Io, backups: bool) {
    io.write.Written? && !(kind.CacheIn? && backups && c.meta.Some? && c.live.Some? && !io.backup)
  }

  lemma SectionStaysBelow(m: Item, c: Cell, req: Request, io: Io, backups: bool)
    requires Sound(m, c) && Below(m, req.body.item)
    ensures var (c', r) := Section(c, req, io, backups);
            && Sound(m, c')
            && (Has(m, c) ==> Has(m, c') && c'.live == c.live)
            && (r.LocalNewer? ==> c' == c && r.push == (if io.read then c.live else None) && req.kind.CacheIn?)
  {
  }

  lemma AnswerBringsItsItem(m: Item, c: Cell, b: Body, io: Io, backups: bool)
    requires Sound(m, c) && Below(m, b.item)
    ensures var (c', r) := Section(c, Request(CacheIn, b), io, backups);
            && (Has(m, c') <==> Has(m, c) || (b.item == m && Commits(c, CacheIn, io, backups)))
            && (b.item == m ==> !r.LocalNewer? && (Has(m, c') || r == IoError))
            && (b.item != m && Has(m, c) ==> r.LocalNewer?)
  {
  }

  lemma PutBringsItsItem(m: Item, c: Cell, b: Body, io: Io, backups: bool)
    requires Sound(m, c) && Below(m, b.item)
    ensures var (c', r) := PutAtRoot(c, b, io, backups);
            && Sound(m, c') && (Has(m, c) ==> c' == c)
            && (Has(m, c') <==> Has(m, c) || (b.item == m && Acceptable(b) && io.write.Written?))
            && (b.item == m && Acceptable(b) ==> Has(m, c') || r == IoError)
            && (IsCopy(m, c'.live) && !io.write.WrittenThenFailed? ==> Has(m, c') || IsCopy(m, c.live))
  {
  }

  /** What no step takes away. */
  ghost predicate Keeps(m: Item, n: Net, n': Net) {
    && (Has(m, n.root) ==> n'.root == n.root)
    && (forall p | Has(m, n.Proxy(p)) :: Has(m, n'.Proxy(p)) && n'.Proxy(p).live == n.Proxy(p).live)
  }

  /** A proxy's section on an upstream answer, in its round or as a stray. */
  lemma QuietAnswer(m: Item, n: Net, p: Pid, b: Body, io: Io, backups: bool)
    requires Quiet(m, n) && Below(m, b.item)
    ensures var (c, r) := Section(n.Proxy(p), Request(CacheIn, b), io, backups);
            var n' := n.(proxies := n.proxies[p := c]);
            && Quiet(m, n') && Keeps(m, n, n')
            && (r.LocalNewer? && r.push.Some? ==> Below(m, r.push.value.item))
  {
    var (c, r) := Section(n.Proxy(p), Request(CacheIn, b), io, backups);
    var n' := n.(proxies := n.proxies[p := c]);
    assert QuietAt(m, n, p);
    SectionStaysBelow(m, n.Proxy(p), Request(CacheIn, b), io, backups);
    forall q ensures QuietAt(m, n', q) { assert QuietAt(m, n, q); }
  }

  lemma QuietPush(m: Item, n: Net, p: Pid, local: Option<Body>)
    requires Quiet(m, n) && (local.Some? ==> Below(m, local.value.item))
    ensures Quiet(m, PushOrFinish(n, p, local)) && Keeps(m, n, PushOrFinish(n, p, local))
    ensures Quiet(m, n.Abandon(p)) && Keeps(m, n, n.Abandon(p)) && Quiet(m, n.Finish(p)) && Keeps(m, n, n.Finish(p))
  {
    forall q
      ensures QuietAt(m, PushOrFinish(n, p, local), q) && QuietAt(m, n.Abandon(p), q) && QuietAt(m, n.Finish(p), q)
    {
      assert QuietAt(m, n, q);
    }
  }

  lemma KeepsBoth(m: Item, n: Net, n1: Net, n2: Net)
    requires Keeps(m, n, n1) && Keeps(m, n1, n2)
    ensures Keeps(m, n, n2)
  {
  }

  lemma QuietRound(m: Item, n: Net, p: Pid, b: Body, io: Io, backups: bool)
    requires Quiet(m, n) && Below(m, b.item)
    ensures Quiet(m, TakeIn(n, p, b, io, backups)) && Keeps(m, n, TakeIn(n, p, b, io, backups))
  {
    var (c, r) := Section(n.Proxy(p), Request(CacheIn, b), io, backups);
    var n' := n.(proxies := n.proxies[p := c]);
    QuietAnswer(m, n, p, b, io, backups);
    QuietPush(m, n', p, if r.LocalNewer? then r.push else None);
    KeepsBoth(m, n, n', TakeIn(n, p, b, io, backups));
  }

  lemma QuietAtRoot(m: Item, n: Net, n': Net, b: Body, io: Io, backups: bool)
    requires Quiet(m, n) && Below(m, b.item)
    requires n'.root == PutAtRoot(n.root, b, io, backups).0 && n'.proxies == n.proxies && n'.wire == n.wire
    requires forall q :: n'.RoundOf(q) == n.RoundOf(q) || n'.RoundOf(q).Idle?
    ensures Quiet(m, n') && Keeps(m, n, n')
  {
    PutBringsItsItem(m, n.root, b, io, backups);
    forall q ensures QuietAt(m, n', q) { assert QuietAt(m, n, q); }
  }

  lemma QuietStep(m: Item, n: Net, e: Event, backups: bool)
    requires Quiet(m, n) && Enabled(n, e)
    ensures Quiet(m, Step(n, e, backups)) && Keeps(m, n, Step(n, e, backups))
  {
    var n' := Step(n, e, backups);
    match e
    case Ask(p) =>
      forall q ensures QuietAt(m, n', q) { assert QuietAt(m, n, q); }
    case Apply(p, io) =>
      assert QuietAt(m, n, p);
      if n.RoundOf(p).copy.Some? {
        QuietRound(m, n, p, n.RoundOf(p).copy.value, io, backups);
      } else {
        QuietPush(m, n, p, n.Proxy(p).live);
      }
    case Deliver(p, io) =>
      assert QuietAt(m, n, p);
      QuietAtRoot(m, n, n', n.RoundOf(p).body, io, backups);
    case Lose(p) => QuietPush(m, n, p, None);
    case StrayPush(b, io) => QuietAtRoot(m, n, n', b, io, backups);
    case StrayAnswer(p, b, io) =>
      QuietAnswer(m, n, p, b, io, backups);
      forall q ensures QuietAt(m, n', q) {
        assert QuietAt(m, n.(proxies := n'.proxies), q);
      }
  }

  /** A copy of m that the root would take from proxy h. */
  predicate Offers(m: Item, n: Net, h: Pid) {
    Has(m, n.Proxy(h)) && Acceptable(n.Proxy(h).live.value) && n.Proxy(h).live.value.IsGlobal()
  }

  /** The root serves m only if its index has it too. */
  predicate Fresh(m: Item, root: Cell) {
    IsCopy(m, root.live) ==> Has(m, root)
  }

  /** A write at the root fails after its rename. */
  predicate FailsLateAtRoot(e: Event) {
    (e.Deliver? || e.StrayPush?) && e.io.write.WrittenThenFailed?
  }

  predicate NoLateWrite(events: seq<Event>) {
    forall i | 0 <= i < |events| :: !FailsLateAtRoot(events[i])
  }

  lemma FreshStep(m: Item, n: Net, e: Event, backups: bool)
    requires Quiet(m, n) && Enabled(n, e) && Fresh(m, n.root) && !FailsLateAtRoot(e)
    ensures Fresh(m, Step(n, e, backups).root)
  {
    match e
    case Deliver(p, io) =>
      assert QuietAt(m, n, p);
      PutBringsItsItem(m, n.root, n.RoundOf(p).body, io, backups);
    case StrayPush(b, io) => PutBringsItsItem(m, n.root, b, io, backups);
    case _ =>
  }

  /** Until the root has m, the holder's first round is under way and will push m. */
  predicate FirstRound(m: Item, n: Net, h: Pid, d: nat) {
    Has(m, n.root) || (
      && Fresh(m, n.root)
      && n.DoneBy(h) == d
      && match n.RoundOf(h)
         case Idle => true
         case Answered(copy) => !IsCopy(m, copy)
         case Pushing(b) => b.item == m && Acceptable(b))
  }

  lemma HolderApplies(m: Item, n: Net, h: Pid, io: Io, d: nat, backups: bool)
    requires Quiet(m, n) && Enabled(n, Apply(h, io)) && Offers(m, n, h) && FirstRound(m, n, h, d)
    ensures FirstRound(m, Step(n, Apply(h, io), backups), h, d)
  {
    assert QuietAt(m, n, h);
    var copy := n.RoundOf(h).copy;
    if copy.Some? {
      SectionStaysBelow(m, n.Proxy(h), Request(CacheIn, copy.value), io, backups);
      AnswerBringsItsItem(m, n.Proxy(h), copy.value, io, backups);
    }
  }

  lemma HolderDelivers(m: Item, n: Net, h: Pid, io: Io, d: nat, backups: bool)
    requires Quiet(m, n) && Enabled(n, Deliver(h, io)) && FirstRound(m, n, h, d) && !io.write.WrittenThenFailed?
    ensures FirstRound(m, Step(n, Deliver(h, io), backups), h, d)
  {
    assert QuietAt(m, n, h);
    PutBringsItsItem(m, n.root, n.RoundOf(h).body, io, backups);
  }

  /** Only a round's own events change it. */
  lemma RoundWaits(n: Net, e: Event, p: Pid, backups: bool)
    requires Enabled(n, e) && !((e.Apply? || e.Deliver?) && e.p == p)
    ensures var n' := Step(n, e, backups);
            && n'.DoneBy(p) == n.DoneBy(p)
            && n'.RoundOf(p) == if e == Ask(p) then Answered(n.root.live) else if e == Lose(p) then Idle
                                else n.RoundOf(p)
  {
  }

  lemma HolderWaits(m: Item, n: Net, e: Event, h: Pid, d: nat, backups: bool)
    requires Quiet(m, n) && Enabled(n, e) && !FailsLateAtRoot(e) && !((e.Apply? || e.Deliver?) && e.p == h)
    requires FirstRound(m, n, h, d)
    ensures FirstRound(m, Step(n, e, backups), h, d)
  {
    if Has(m, n.root) {
      QuietStep(m, n, e, backups);
    } else {
      FreshStep(m, n, e, backups);
      RoundWaits(n, e, h, backups);
    }
  }

  lemma FirstRoundStep(m: Item, n: Net, e: Event, h: Pid, d: nat, backups: bool)
    requires Quiet(m, n) && Enabled(n, e) && !FailsLateAtRoot(e)
    requires Offers(m, n, h) && FirstRound(m, n, h, d)
    ensures Offers(m, Step(n, e, backups), h) && FirstRound(m, Step(n, e, backups), h, d)
  {
    QuietStep(m, n, e, backups);
    match e
    case Apply(p, io) =>
      if p == h { HolderApplies(m, n, h, io, d, backups); } else { HolderWaits(m, n, e, h, d, backups); }
    case Deliver(p, io) =>
      if p == h { HolderDelivers(m, n, h, io, d, backups); } else { HolderWaits(m, n, e, h, d, backups); }
    case _ => HolderWaits(m, n, e, h, d, backups);
  }

  lemma {:induction false} FirstRoundRun(m: Item, n: Net, events: seq<Event>, h: Pid, d: nat, backups: bool)
    requires Quiet(m, n) && Schedule(n, events, backups) && NoLateWrite(events)
    requires Offers(m, n, h) && FirstRound(m, n, h, d)
    ensures var n' := Run(n, events, backups); Quiet(m, n') && FirstRound(m, n', h, d)
    decreases events
  {
    if events != [] {
      QuietStep(m, n, events[0], backups);
      FirstRoundStep(m, n, events[0], h, d, backups);
      FirstRoundRun(m, Step(n, events[0], backups), events[1..], h, d, backups);
    }
  }

  /** Once the root has m, a proxy without m is in a round that will bring it. */
  predicate SecondRound(m: Item, n: Net, p: Pid, d: nat) {
    Has(m, n.root) && (Has(m, n.Proxy(p)) || (
      && n.DoneBy(p) == d
      && match n.RoundOf(p)
         case Idle => true
         case Answered(copy) => IsCopy(m, copy)
         case Pushing(_) => false))
  }

  lemma SecondApplies(m: Item, n: Net, p: Pid, io: Io, d: nat, backups: bool)
    requires Quiet(m, n) && Enabled(n, Apply(p, io)) && SecondRound(m, n, p, d)
    ensures SecondRound(m, Step(n, Apply(p, io), backups), p, d)
  {
    QuietStep(m, n, Apply(p, io), backups);
    assert QuietAt(m, n, p);
    if !Has(m, n.Proxy(p)) {
      AnswerBringsItsItem(m, n.Proxy(p), n.RoundOf(p).copy.value, io, backups);
    }
  }

  lemma SecondRoundStep(m: Item, n: Net, e: Event, p: Pid, d: nat, backups: bool)
    requires Quiet(m, n) && Enabled(n, e) && SecondRound(m, n, p, d)
    ensures SecondRound(m, Step(n, e, backups), p, d)
  {
    if e.Apply? && e.p == p {
      SecondApplies(m, n, p, e.io, d, backups);
    } else {
      QuietStep(m, n, e, backups);
      if !e.Deliver? || e.p != p { RoundWaits(n, e, p, backups); }
    }
  }

  lemma {:induction false} SecondRoundRun(m: Item, n: Net, events: seq<Event>, p: Pid, d: nat, backups: bool)
    requires Quiet(m, n) && Schedule(n, events, backups) && SecondRound(m, n, p, d)
    ensures SecondRound(m, Run(n, events, backups), p, d)
    decreases events
  {
    if events != [] {
      QuietStep(m, n, events[0], backups);
      SecondRoundStep(m, n, events[0], p, d, backups);
      SecondRoundRun(m, Step(n, events[0], backups), events[1..], p, d, backups);
    }
  }

  ghost predicate Resting(n: Net) {
    forall p :: n.RoundOf(p).Idle?
  }

  ghost predicate EveryoneFinished(before: Net, after: Net, group: set<Pid>) {
    forall p | p in group :: after.DoneBy(p) > before.DoneBy(p)
  }

  /** Convergence: once new writes have stopped, after every proxy has completed one round, and
      then one more, the root and every proxy hold the item of maximal revision, whatever stray
      messages arrive, messages are lost and file operations fail in between. A round completes when
      none of its own does. The one failure that is excluded is a write of the root failing after its
      rename during the first rounds. */
  lemma Converges(m: Item, n: Net, first: seq<Event>, second: seq<Event>, group: set<Pid>, backups: bool)
    requires Quiet(m, n) && Resting(n)
    requires Has(m, n.root) || (Fresh(m, n.root) && NoLateWrite(first) && exists h :: h in group && Offers(m, n, h))
    requires Schedule(n, first, backups)
    requires var mid := Run(n, first, backups);
             && EveryoneFinished(n, mid, group) && Resting(mid)
             && Schedule(mid, second, backups)
             && EveryoneFinished(mid, Run(mid, second, backups), group)
    ensures var end := Run(Run(n, first, backups), second, backups);
            Has(m, end.root) && forall p | p in group :: Has(m, end.Proxy(p))
  {
    var mid := Run(n, first, backups);
    var end := Run(mid, second, backups);
    if Has(m, n.root) {
      RootKeeps(m, n, first, backups);
    } else {
      var h :| h in group && Offers(m, n, h);
      FirstRoundRun(m, n, first, h, n.DoneBy(h), backups);
    }
    assert Quiet(m, mid) && Has(m, mid.root);
    RootKeeps(m, mid, second, backups);
    forall p | p in group ensures Has(m, end.Proxy(p)) {
      SecondRoundRun(m, mid, second, p, mid.DoneBy(p), backups);
    }
  }

  lemma {:induction false} RootKeeps(m: Item, n: Net, events: seq<Event>, backups: bool)
    requires Quiet(m, n) && Schedule(n, events, backups) && Has(m, n.root)
    ensures Quiet(m, Run(n, events, backups)) && Has(m, Run(n, events, backups).root)
    decreases events
  {
    if events != [] {
      QuietStep(m, n, events[0], backups);
      RootKeeps(m, Step(n, events[0], backups), events[1..], backups);
    }
  }

  // ---- Exactly who ends with m ----

  /** The event brings the root a copy of m that it accepts and commits. */
  predicate RootReceives(m: Item, n: Net, e: Event) {
    match e
    case Deliver(p, io) =>
      n.RoundOf(p).Pushing? && n.RoundOf(p).body.item == m && Acceptable(n.RoundOf(p).body) && io.write.Written?
    case StrayPush(b, io) => b.item == m && Acceptable(b) && io.write.Written?
    case _ => false
  }

  predicate RootTakesIn(m: Item, n: Net, events: seq<Event>, backups: bool)
    decreases events
  {
    events != [] && (RootReceives(m, n, events[0]) || RootTakesIn(m, Step(n, events[0], backups), events[1..], backups))
  }

  /** p takes in m during these events: it commits the answer of a round that it began while the root
      served m, or a stray answer. `bringing` says of the round under way at the start that it is one. */
  predicate TakesIn(m: Item, n: Net, events: seq<Event>, p: Pid, bringing: bool, backups: bool)
    decreases events
  {
    events != [] &&
      var e, rest, n' := events[0], events[1..], Step(n, events[0], backups);
      match e
      case Ask(q) => TakesIn(m, n', rest, p, if q == p then IsCopy(m, n.root.live) else bringing, backups)
      case Apply(q, io) =>
        || (q == p && bringing && Commits(n.Proxy(p), CacheIn, io, backups))
        || TakesIn(m, n', rest, p, bringing && q != p, backups)
      case Lose(q) => TakesIn(m, n', rest, p, bringing && q != p, backups)
      case StrayAnswer(q, b, io) =>
        || (q == p && b.item == m && Commits(n.Proxy(p), CacheIn, io, backups))
        || TakesIn(m, n', rest, p, bringing, backups)
      case _ => TakesIn(m, n', rest, p, bringing, backups)
  }

  /** The round under way brings m. */
  predicate Brings(m: Item, n: Net, p: Pid) {
    n.RoundOf(p).Answered? && IsCopy(m, n.RoundOf(p).copy)
  }

  /** The event has proxy p commit m. */
  predicate Receives(m: Item, n: Net, e: Event, p: Pid, backups: bool) {
    match e
    case Apply(q, io) => q == p && Brings(m, n, p) && Commits(n.Proxy(p), CacheIn, io, backups)
    case StrayAnswer(q, b, io) => q == p && b.item == m && Commits(n.Proxy(p), CacheIn, io, backups)
    case _ => false
  }

  /** An upstream answer changes one cell; no other event but a stray answer changes any. */
  lemma ProxyCells(n: Net, e: Event, p: Pid, backups: bool)
    requires Enabled(n, e)
    ensures var c' := Step(n, e, backups).Proxy(p);
            if e.Apply? && e.p == p && n.RoundOf(p).copy.Some? then
              c' == Section(n.Proxy(p), Request(CacheIn, n.RoundOf(p).copy.value), e.io, backups).0
            else if e.StrayAnswer? && e.p == p then c' == Section(n.Proxy(p), Request(CacheIn, e.b), e.io, backups).0
            else c' == n.Proxy(p)
  {
  }

  lemma CellStep(m: Item, n: Net, e: Event, p: Pid, backups: bool)
    requires Quiet(m, n) && Enabled(n, e)
    ensures Has(m, Step(n, e, backups).Proxy(p)) <==> Has(m, n.Proxy(p)) || Receives(m, n, e, p, backups)
  {
    assert QuietAt(m, n, p);
    ProxyCells(n, e, p, backups);
    if e.Apply? && e.p == p && n.RoundOf(p).copy.Some? {
      AnswerBringsItsItem(m, n.Proxy(p), n.RoundOf(p).copy.value, e.io, backups);
    } else if e.StrayAnswer? && e.p == p {
      AnswerBringsItsItem(m, n.Proxy(p), e.b, e.io, backups);
    }
  }

  lemma RoundStep(m: Item, n: Net, e: Event, p: Pid, backups: bool)
    requires Enabled(n, e)
    ensures Brings(m, Step(n, e, backups), p) <==>
            if e == Ask(p) then IsCopy(m, n.root.live)
            else Brings(m, n, p) && !((e.Apply? || e.Lose?) && e.p == p)
  {
  }

  lemma RootStep(m: Item, n: Net, e: Event, backups: bool)
    requires Quiet(m, n) && Enabled(n, e)
    ensures Has(m, Step(n, e, backups).root) <==> Has(m, n.root) || RootReceives(m, n, e)
  {
    match e
    case Deliver(p, io) =>
      assert QuietAt(m, n, p);
      PutBringsItsItem(m, n.root, n.RoundOf(p).body, io, backups);
    case StrayPush(b, io) => PutBringsItsItem(m, n.root, b, io, backups);
    case _ =>
  }

  /** From a quiet network the root ends with m if and only if it had it, or some delivered or stray
      push brought it an acceptable copy that it committed. */
  lemma {:induction false} RootHoldsExactlyWhenTakenIn(m: Item, n: Net, events: seq<Event>, backups: bool)
    requires Quiet(m, n) && Schedule(n, events, backups)
    ensures Has(m, Run(n, events, backups).root) <==> Has(m, n.root) || RootTakesIn(m, n, events, backups)
    decreases events
  {
    if events != [] {
      QuietStep(m, n, events[0], backups);
      RootStep(m, n, events[0], backups);
      RootHoldsExactlyWhenTakenIn(m, Step(n, events[0], backups), events[1..], backups);
    }
  }

  /** And a proxy if and only if it had it, or committed the answer of a round begun while the root
      served it, or committed a stray copy. */
  lemma {:induction false} HoldsExactlyWhenTakenIn(m: Item, n: Net, events: seq<Event>, p: Pid, backups: bool)
    requires Quiet(m, n) && Schedule(n, events, backups)
    ensures Has(m, Run(n, events, backups).Proxy(p)) <==>
            Has(m, n.Proxy(p)) || TakesIn(m, n, events, p, Brings(m, n, p), backups)
    decreases events
  {
    if events != [] {
      QuietStep(m, n, events[0], backups);
      CellStep(m, n, events[0], p, backups);
      RoundStep(m, n, events[0], p, backups);
      HoldsExactlyWhenTakenIn(m, Step(n, events[0], backups), events[1..], p, backups);
    }
  }

  ghost predicate EveryoneHas(m: Item, n: Net, group: set<Pid>) {
    Has(m, n.root) && forall p | p in group :: Has(m, n.Proxy(p))
  }

  /** The messages of the run are enough for every replica. */
  ghost predicate EnoughMessages(m: Item, n: Net, events: seq<Event>, group: set<Pid>, backups: bool) {
    && (Has(m, n.root) || RootTakesIn(m, n, events, backups))
    && (forall p | p in group :: Has(m, n.Proxy(p)) || TakesIn(m, n, events, p, Brings(m, n, p), backups))
  }

  /** Exactly when two rounds, or any other events, are enough: all replicas end with m if and only if
      the root had it or committed an acceptable copy, and each proxy had it, or committed a copy from
      a round begun while the root served it, or from a stray answer. */
  lemma ConvergesExactly(m: Item, n: Net, events: seq<Event>, group: set<Pid>, backups: bool)
    requires Quiet(m, n) && Schedule(n, events, backups)
    ensures EveryoneHas(m, Run(n, events, backups), group) <==> EnoughMessages(m, n, events, group, backups)
  {
    RootHoldsExactlyWhenTakenIn(m, n, events, backups);
    forall p | p in group
      ensures Has(m, Run(n, events, backups).Proxy(p)) <==>
              Has(m, n.Proxy(p)) || TakesIn(m, n, events, p, Brings(m, n, p), backups)
    {
      HoldsExactlyWhenTakenIn(m, n, events, p, backups);
    }
  }

  /** The root serves m exactly when it has it, as long as no write of it fails after its rename. */
  lemma {:induction false} ServesWhatItHas(m: Item, n: Net, events: seq<Event>, backups: bool)
    requires Quiet(m, n) && Schedule(n, events, backups) && Fresh(m, n.root) && NoLateWrite(events)
    ensures var root := Run(n, events, backups).root; IsCopy(m, root.live) <==> Has(m, root)
    decreases events
  {
    if events != [] {
      QuietStep(m, n, events[0], backups);
      FreshStep(m, n, events[0], backups);
      ServesWhatItHas(m, Step(n, events[0], backups), events[1..], backups);
    }
  }

  lemma RunTwo(n: Net, a: Event, b: Event, backups: bool)
    ensures Run(n, [a, b], backups) == Step(Step(n, a, backups), b, backups)
    ensures Enabled(n, a) && Enabled(Step(n, a, backups), b) ==> Schedule(n, [a, b], backups)
  {
    assert [a, b][1..] == [b] && [b][1..] == [];
    assert Run(Step(n, a, backups), [b], backups) == Step(Step(n, a, backups), b, backups);
  }

  /** A round that finds nothing on either side just ends. */
  lemma EmptyRound(n: Net, p: Pid, backups: bool)
    requires n.RoundOf(p).Idle? && n.root == NOTHING && n.Proxy(p) == NOTHING
    ensures var n' := Run(n, [Ask(p), Apply(p, SMOOTH)], backups);
            && Schedule(n, [Ask(p), Apply(p, SMOOTH)], backups)
            && n'.root == n.root && n'.proxies == n.proxies && n'.DoneBy(p) == n.DoneBy(p) + 1
            && n'.RoundOf(p).Idle? && forall q | q != p :: n'.RoundOf(q) == n.RoundOf(q) && n'.DoneBy(q) == n.DoneBy(q)
  {
    RunTwo(n, Ask(p), Apply(p, SMOOTH), backups);
  }

  /** The holder's round against an empty root ends with the root holding its item. */
  lemma HolderRound(n: Net, h: Pid, m: Item, backups: bool)
    requires n.RoundOf(h).Idle? && n.root == NOTHING && Offers(m, n, h)
    ensures var n1 := Run(n, [Ask(h), Apply(h, SMOOTH)], backups);
            var n' := Step(n1, Deliver(h, SMOOTH), backups);
            && Schedule(n, [Ask(h), Apply(h, SMOOTH)], backups) && Enabled(n1, Deliver(h, SMOOTH))
            && Has(m, n'.root) && n'.proxies == n.proxies && n'.DoneBy(h) == n.DoneBy(h) + 1
            && n'.RoundOf(h).Idle? && forall q | q != h :: n'.RoundOf(q) == n.RoundOf(q) && n'.DoneBy(q) == n.DoneBy(q)
  {
    RunTwo(n, Ask(h), Apply(h, SMOOTH), backups);
  }

  /** A round against a root that has the item changes nothing at a proxy that has it. */
  lemma SettledRound(n: Net, h: Pid, m: Item, backups: bool)
    requires n.RoundOf(h).Idle? && Has(m, n.root) && Has(m, n.Proxy(h))
    ensures var n' := Run(n, [Ask(h), Apply(h, SMOOTH)], backups);
            && Schedule(n, [Ask(h), Apply(h, SMOOTH)], backups)
            && n'.root == n.root && n'.DoneBy(h) == n.DoneBy(h) + 1 && n'.RoundOf(h).Idle?
            && (forall q :: n'.Proxy(q) == n.Proxy(q))
            && forall q | q != h :: n'.RoundOf(q) == n.RoundOf(q) && n'.DoneBy(q) == n.DoneBy(q)
  {
    RunTwo(n, Ask(h), Apply(h, SMOOTH), backups);
  }

  lemma {:induction false} RunAppend(n: Net, a: seq<Event>, b: seq<Event>, backups: bool)
    ensures Run(n, a + b, backups) == Run(Run(n, a, backups), b, backups)
    ensures Schedule(n, a + b, backups) <==> Schedule(n, a, backups) && Schedule(Run(n, a, backups), b, backups)
    decreases a
  {
    if a == [] {
      assert a + b == b;
    } else {
      assert (a + b)[0] == a[0] && (a + b)[1..] == a[1..] + b;
      RunAppend(Step(n, a[0], backups), a[1..], b, backups);
    }
  }

  /** A quiet network in which only proxy 1 has the object. */
  function OneHolder(b: Body): Net {
    Net(NOTHING, map[1 := Cell(Some(b.AsMeta()), Some(b), map[])], map[], map[], {})
  }

  const EARLY_ROUNDS: seq<Event> := [Ask(0), Apply(0, SMOOTH)] + [Ask(0), Apply(0, SMOOTH)]
  const HOLDER_ROUNDS: seq<Event> := [Ask(1), Apply(1, SMOOTH)] + ([Deliver(1, SMOOTH)] + [Ask(1), Apply(1, SMOOTH)])

  lemma EarlyRounds(b: Body)
    ensures var n, n' := OneHolder(b), Run(OneHolder(b), EARLY_ROUNDS, true);
            && Schedule(n, EARLY_ROUNDS, true) && n'.root == NOTHING && n'.proxies == n.proxies
            && n'.DoneBy(0) == 2 && n'.RoundOf(0).Idle? && n'.DoneBy(1) == 0 && forall q | q != 0 :: n'.RoundOf(q).Idle?
  {
    var n := OneHolder(b);
    RunAppend(n, [Ask(0), Apply(0, SMOOTH)], [Ask(0), Apply(0, SMOOTH)], true);
    EmptyRound(n, 0, true);
    EmptyRound(Run(n, [Ask(0), Apply(0, SMOOTH)], true), 0, true);
  }

  lemma HolderRounds(n: Net, m: Item)
    requires n.root == NOTHING && Offers(m, n, 1) && Resting(n)
    ensures var n' := Run(n, HOLDER_ROUNDS, true);
            && Schedule(n, HOLDER_ROUNDS, true) && Has(m, n'.root) && n'.Proxy(0) == n.Proxy(0)
            && n'.DoneBy(1) == n.DoneBy(1) + 2 && n'.DoneBy(0) == n.DoneBy(0) && Resting(n')
  {
    var pushing := Run(n, [Ask(1), Apply(1, SMOOTH)], true);
    var settled := Step(pushing, Deliver(1, SMOOTH), true);
    RunAppend(n, [Ask(1), Apply(1, SMOOTH)], [Deliver(1, SMOOTH)] + [Ask(1), Apply(1, SMOOTH)], true);
    RunAppend(pushing, [Deliver(1, SMOOTH)], [Ask(1), Apply(1, SMOOTH)], true);
    HolderRound(n, 1, m, true);
    assert Run(pushing, [Deliver(1, SMOOTH)], true) == settled;
    SettledRound(settled, 1, m, true);
  }

  /** Without the barrier between them two rounds each are not enough. From a quiet network, proxy
      0 completes two rounds, then the holder, proxy 1, completes two; everything is at rest, the
      root has the item, and proxy 0 does not. */
  lemma UnsynchronisedRoundsMayMiss(b: Body)
    requires Acceptable(b) && b.IsGlobal()
    ensures Quiet(b.item, OneHolder(b)) && Resting(OneHolder(b)) && Offers(b.item, OneHolder(b), 1)
    ensures Schedule(OneHolder(b), EARLY_ROUNDS + HOLDER_ROUNDS, true)
    ensures var end := Run(OneHolder(b), EARLY_ROUNDS + HOLDER_ROUNDS, true);
            && end.DoneBy(0) == 2 && end.DoneBy(1) == 2 && Resting(end)
            && Has(b.item, end.root) && !Has(b.item, end.Proxy(0))
  {
    EarlyRounds(b);
    RunAppend(OneHolder(b), EARLY_ROUNDS, HOLDER_ROUNDS, true);
    HolderRounds(Run(OneHolder(b), EARLY_ROUNDS, true), b.item);
  }

  // ---- Messages do what they are for ----

  /** The root takes a PUT exactly when it verifies and has a readable timestamp. */
  lemma RootAcceptsExactly(b: Body, backups: bool)
    ensures PutAtRoot(NOTHING, b, SMOOTH, backups) ==
            if b.verified && b.item.timestamp.Some? then (Cell(Some(b.AsMeta()), Some(b), map[]), Committed)
            else (NOTHING, Refused400)
  {
  }

  /** A live file of the root is there already, or verifies and has a readable timestamp. */
  predicate ServedSafely(before: Cell, after: Cell) {
    after.live == before.live || after.live.None?
    || (after.live.value.verified && after.live.value.item.timestamp.Some?)
  }

  lemma PutServesOnlyVerified(c: Cell, b: Body, io: Io, backups: bool)
    ensures ServedSafely(c, PutAtRoot(c, b, io, backups).0)
  {
  }

  lemma StepServesOnlyVerified(n: Net, e: Event, backups: bool)
    requires Enabled(n, e)
    ensures ServedSafely(n.root, Step(n, e, backups).root)
  {
    match e
    case Deliver(p, io) => PutServesOnlyVerified(n.root, n.RoundOf(p).body, io, backups);
    case StrayPush(b, io) => PutServesOnlyVerified(n.root, b, io, backups);
    case _ => assert Step(n, e, backups).root == n.root;
  }

  /** And whatever happens, no other file becomes live there. */
  lemma {:induction false} RootServesOnlyVerified(n: Net, events: seq<Event>, backups: bool)
    requires Schedule(n, events, backups)
    ensures ServedSafely(n.root, Run(n, events, backups).root)
    decreases events
  {
    if events != [] {
      StepServesOnlyVerified(n, events[0], backups);
      RootServesOnlyVerified(Step(n, events[0], backups), events[1..], backups);
    }
  }

  /** Everything that is sent stays on its way for good. */
  lemma WireRemembers(n: Net, e: Event, backups: bool)
    requires Enabled(n, e)
    ensures var n' := Step(n, e, backups);
            && n.wire <= n'.wire
            && (e.Ask? && n.root.live.Some? ==> n.root.live.value in n'.wire)
            && (forall p | n'.RoundOf(p).Pushing? && !n.RoundOf(p).Pushing? :: n'.RoundOf(p).body in n'.wire)
            && (e.StrayAnswer? ==>
                  match Section(n.Proxy(e.p), Request(CacheIn, e.b), e.io, backups).1
                  case LocalNewer(Some(b)) => b in n'.wire
                  case _ => n'.wire == n.wire)
  {
  }

  /** The holder's round, when nothing fails: whatever the root answers, the item is pushed to it, and
      the root then has it. */
  lemma HolderRoundDelivers(m: Item, n: Net, h: Pid, backups: bool)
    requires Quiet(m, n) && n.RoundOf(h).Idle? && Offers(m, n, h) && Fresh(m, n.root) && !Has(m, n.root)
    ensures var round := [Ask(h), Apply(h, SMOOTH)];
            var pushing := Run(n, round, backups);
            && Schedule(n, round, backups) && Enabled(pushing, Deliver(h, SMOOTH))
            && pushing.RoundOf(h) == Pushing(n.Proxy(h).live.value)
            && var n' := Step(pushing, Deliver(h, SMOOTH), backups);
               Has(m, n'.root) && n'.RoundOf(h).Idle? && n'.DoneBy(h) == n.DoneBy(h) + 1
  {
    RunTwo(n, Ask(h), Apply(h, SMOOTH), backups);
    assert QuietAt(m, n, h);
    QuietStep(m, n, Ask(h), backups);
    var asked := Step(n, Ask(h), backups);
    if n.root.live.Some? {
      SectionStaysBelow(m, n.Proxy(h), Request(CacheIn, n.root.live.value), SMOOTH, backups);
      AnswerBringsItsItem(m, n.Proxy(h), n.root.live.value, SMOOTH, backups);
    }
    PutBringsItsItem(m, n.root, n.Proxy(h).live.value, SMOOTH, backups);
  }

  /** Any round against a root that has the item, when nothing fails, brings it. */
  lemma RoundFetches(m: Item, n: Net, p: Pid, backups: bool)
    requires Quiet(m, n) && n.RoundOf(p).Idle? && Has(m, n.root)
    ensures var round := [Ask(p), Apply(p, SMOOTH)];
            var n' := Run(n, round, backups);
            && Schedule(n, round, backups) && n'.RoundOf(p).Idle?
            && n'.DoneBy(p) == n.DoneBy(p) + 1 && Has(m, n'.Proxy(p)) && n'.root == n.root
  {
    RunTwo(n, Ask(p), Apply(p, SMOOTH), backups);
    assert QuietAt(m, n, p);
    AnswerBringsItsItem(m, n.Proxy(p), n.root.live.value, SMOOTH, backups);
  }

  // ---- The excluded failure ----

  /** The root serves m without having indexed it, and every round under way brings m. */
  ghost predicate Stuck(m: Item, n: Net) {
    && Quiet(m, n) && IsCopy(m, n.root.live) && !Has(m, n.root)
    && forall p :: n.RoundOf(p).Idle? || Brings(m, n, p)
  }

  lemma StuckStep(m: Item, n: Net, e: Event, backups: bool)
    requires Stuck(m, n) && Enabled(n, e) && !e.StrayPush?
    ensures Stuck(m, Step(n, e, backups)) && Step(n, e, backups).root == n.root
  {
    QuietStep(m, n, e, backups);
    if e.Apply? {
      assert QuietAt(m, n, e.p) && Brings(m, n, e.p);
      AnswerBringsItsItem(m, n.Proxy(e.p), n.RoundOf(e.p).copy.value, e.io, backups);
    }
    forall p ensures Step(n, e, backups).RoundOf(p).Idle? || Brings(m, Step(n, e, backups), p) {
      assert n.RoundOf(p).Idle? || Brings(m, n, p);
    }
  }

  predicate NoStrayPush(events: seq<Event>) {
    forall i | 0 <= i < |events| :: !events[i].StrayPush?
  }

  /** From there no number of rounds helps: every proxy finds its own copy and pushes nothing. */
  lemma {:induction false} StuckRun(m: Item, n: Net, events: seq<Event>, backups: bool)
    requires Stuck(m, n) && Schedule(n, events, backups)
    requires NoStrayPush(events)
    ensures Run(n, events, backups).root == n.root
    decreases events
  {
    if events != [] {
      StuckStep(m, n, events[0], backups);
      StuckRun(m, Step(n, events[0], backups), events[1..], backups);
    }
  }

  const LATE_PUSH: seq<Event> := [Ask(1), Apply(1, SMOOTH)] + [Deliver(1, SMOOTH.(write := WrittenThenFailed))]

  lemma HolderPushes(b: Body)
    requires b.IsGlobal()
    ensures var n, pushing := OneHolder(b), Run(OneHolder(b), [Ask(1), Apply(1, SMOOTH)], true);
            && Schedule(n, [Ask(1), Apply(1, SMOOTH)], true)
            && pushing.root == NOTHING && pushing.proxies == n.proxies && pushing.wire == {b}
            && pushing.RoundOf(1) == Pushing(b) && forall p | p != 1 :: pushing.RoundOf(p).Idle?
  {
    RunTwo(OneHolder(b), Ask(1), Apply(1, SMOOTH), true);
  }

  lemma LatePush(b: Body)
    requires Acceptable(b) && b.IsGlobal()
    ensures var n, stuck := OneHolder(b), Run(OneHolder(b), LATE_PUSH, true);
            Schedule(n, LATE_PUSH, true) && stuck.root == Cell(None, Some(b), map[]) && Stuck(b.item, stuck)
  {
    var n, pushing := OneHolder(b), Run(OneHolder(b), [Ask(1), Apply(1, SMOOTH)], true);
    var late := Deliver(1, SMOOTH.(write := WrittenThenFailed));
    HolderPushes(b);
    RunAppend(n, [Ask(1), Apply(1, SMOOTH)], [late], true);
    var stuck := Step(pushing, late, true);
    assert Run(pushing, [late], true) == stuck;
    forall p ensures stuck.RoundOf(p).Idle? && QuietAt(b.item, stuck, p) {
      assert p != 1 ==> stuck.RoundOf(p) == pushing.RoundOf(p);
    }
  }

  /** And it is reached: the root's write of the only copy pushed to it fails after the rename, and
      whatever rounds follow, the root does not index the item. */
  lemma LateWriteLeavesRootBehind(b: Body, events: seq<Event>)
    requires Acceptable(b) && b.IsGlobal()
    requires Schedule(OneHolder(b), LATE_PUSH + events, true) && NoStrayPush(events)
    ensures Quiet(b.item, OneHolder(b)) && Resting(OneHolder(b)) && Offers(b.item, OneHolder(b), 1)
    ensures Schedule(OneHolder(b), LATE_PUSH, true)
    ensures Run(OneHolder(b), LATE_PUSH + events, true).root == Cell(None, Some(b), map[])
  {
    LatePush(b);
    RunAppend(OneHolder(b), LATE_PUSH, events, true);
    StuckRun(b.item, Run(OneHolder(b), LATE_PUSH, true), events, true);
  }
}
