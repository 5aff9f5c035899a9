/** Fixed-window request limits per address: one minute and one day (auth/ratelimit.go).
    Every operation takes the clock reading it makes. */
module RateLimit {
  type Time = int

  const MINUTE: Time := 60_000_000_000
  const DAY: Time := 24 * 60 * MINUTE

  datatype Span = Minute | Day

  function Length(span: Span): Time {
    if span == Minute then MINUTE else DAY
  }

  // ---- One table of windows ----

  datatype Entry = Entry(count: int, resetAt: Time)

  type Table = map<string, Entry>

  /** getOrCreate's window: the address's own while its end has not passed, else a new one. */
  function Current(t: Table, ip: string, now: Time, length: Time): Entry {
    if ip !in t || now > t[ip].resetAt then Entry(0, now + length) else t[ip]
  }

  function Touch(t: Table, ip: string, now: Time, length: Time): Table {
    t[ip := Current(t, ip, now, length)]
  }

  function Charge(t: Table, ip: string, now: Time, length: Time): Table {
    var e := Current(t, ip, now, length);
    t[ip := e.(count := e.count + 1)]
  }

  /** The increment alone. */
  function Raise(t: Table, ip: string): Table
    requires ip in t
  {
    t[ip := Entry(t[ip].count + 1, t[ip].resetAt)]
  }

  /** Charging is incrementing the window just opened. */
  lemma TouchThenRaise(t: Table, ip: string, now: Time, length: Time)
    ensures Raise(Touch(t, ip, now, length), ip) == Charge(t, ip, now, length)
  {
  }

  function GiveBack(t: Table, ip: string, now: Time): Table {
    if ip in t && now < t[ip].resetAt && t[ip].count > 0 then t[ip := t[ip].(count := t[ip].count - 1)] else t
  }

  function Sweep(t: Table, now: Time): Table {
    map ip | ip in t && now <= t[ip].resetAt :: t[ip]
  }

  // ---- The limiter ----

  datatype Limits = Limits(perMin: int, perDay: int) {
    function Of(span: Span): int {
      if span == Minute then perMin else perDay
    }

    /** No window ever holds more than this. */
    function Most(span: Span): nat {
      if Of(span) < 0 then 0 else Of(span)
    }
  }

  datatype State = State(perMin: Table, perDay: Table) {
    function Of(span: Span): Table {
      if span == Minute then perMin else perDay
    }
  }

  function AllowAt(max: Limits, s: State, ip: string, now: Time): (State, bool) {
    if Current(s.perMin, ip, now, MINUTE).count >= max.perMin then
      (s.(perMin := Touch(s.perMin, ip, now, MINUTE)), false)
    else if Current(s.perDay, ip, now, DAY).count >= max.perDay then
      (State(Touch(s.perMin, ip, now, MINUTE), Touch(s.perDay, ip, now, DAY)), false)
    else
      (State(Charge(s.perMin, ip, now, MINUTE), Charge(s.perDay, ip, now, DAY)), true)
  }

  function Floor(n: int): nat {
    if n < 0 then 0 else n
  }

  function RemainingAt(max: Limits, s: State, ip: string, now: Time): (State, nat, nat) {
    (State(Touch(s.perMin, ip, now, MINUTE), Touch(s.perDay, ip, now, DAY)),
     Floor(max.perMin - Current(s.perMin, ip, now, MINUTE).count),
     Floor(max.perDay - Current(s.perDay, ip, now, DAY).count))
  }

  function RefundAt(s: State, ip: string, now: Time): State {
    State(GiveBack(s.perMin, ip, now), GiveBack(s.perDay, ip, now))
  }

  function CleanupAt(s: State, now: Time): State {
    State(Sweep(s.perMin, now), Sweep(s.perDay, now))
  }

  // ---- The limiter in place ----

  /** A window knows whose it is, for the proofs only. */
  class Window {
    var count: int
    var resetAt: Time
    ghost const ip: string

    constructor (resetAt: Time, ghost ip: string)
      ensures count == 0 && this.resetAt == resetAt && this.ip == ip
    {
      count := 0;
      this.resetAt := resetAt;
      this.ip := ip;
    }
  }

  class Windows {
    var m: map<string, Window>
    ghost var contents: Table

    /** The windows hold the contents, and each address has its own. */
    ghost predicate Valid()
      reads this, m.Values
    {
      && contents.Keys == m.Keys
      && forall ip | ip in m :: contents[ip] == Entry(m[ip].count, m[ip].resetAt) && m[ip].ip == ip
    }

    constructor ()
      ensures Valid() && m == map[] && contents == map[]
    {
      m := map[];
      contents := map[];
    }

    method GetOrCreate(ip: string, now: Time, length: Time) returns (w: Window)
      requires Valid()
      modifies this
      ensures Valid() && ip in m && m[ip] == w && fresh(m.Values - old(m.Values))
      ensures contents == Touch(old(contents), ip, now, length)
    {
      if ip in m && now <= m[ip].resetAt { return m[ip]; }
      w := new Window(now + length, ip);
      m := m[ip := w];
      contents := Touch(contents, ip, now, length);
    }

    /** The increment that charges a window. */
    method Increment(w: Window)
      requires Valid() && w.ip in m && m[w.ip] == w
      modifies this`contents, w
      ensures Valid()
      ensures contents == Raise(old(contents), w.ip)
    {
      w.count := w.count + 1;
      contents := Raise(contents, w.ip);
    }

    method Refund(ip: string, now: Time)
      requires Valid()
      modifies this`contents, m.Values
      ensures Valid() && contents == GiveBack(old(contents), ip, now)
    {
      if ip in m && now < m[ip].resetAt && m[ip].count > 0 {
        m[ip].count := m[ip].count - 1;
      }
      contents := GiveBack(contents, ip, now);
    }

    method DeleteExpired(now: Time)
      requires Valid()
      modifies this
      ensures Valid() && m.Values <= old(m.Values)
      ensures contents == Sweep(old(contents), now)
    {
      var todo := m.Keys;
      while todo != {}
        invariant contents == old(contents)
        invariant todo <= m.Keys <= contents.Keys
        invariant forall ip | ip in m :: ip in old(m) && m[ip] == old(m)[ip]
        invariant forall ip | ip in contents && ip !in todo :: ip in m <==> now <= contents[ip].resetAt
        decreases todo
      {
        var ip :| ip in todo;
        if now > m[ip].resetAt {
          m := m - {ip};
        }
        todo := todo - {ip};
      }
      contents := Sweep(contents, now);
    }
  }

  class RateLimiter {
    const perMin: Windows
    const perDay: Windows
    const max: Limits

    ghost predicate Valid()
      reads this, perMin, perDay, perMin.m.Values, perDay.m.Values
    {
      perMin != perDay && perMin.Valid() && perDay.Valid() && perMin.m.Values !! perDay.m.Values
    }

    ghost function Contents(): State
      reads this, perMin, perDay
    {
      State(perMin.contents, perDay.contents)
    }

    constructor (perMinute: int, perDay: int)
      ensures Valid() && Contents() == State(map[], map[]) && max == Limits(perMinute, perDay)
      ensures fresh(this.perMin) && fresh(this.perDay)
    {
      perMin := new Windows();
      this.perDay := new Windows();
      max := Limits(perMinute, perDay);
    }

    /** The end of Allow: both windows are charged. */
    method ChargeBoth(ip: string, wm: Window, wd: Window)
      requires Valid() && ip in perMin.m && perMin.m[ip] == wm && ip in perDay.m && perDay.m[ip] == wd
      modifies perMin`contents, perDay`contents, wm, wd
      ensures Valid()
      ensures perMin.contents == Raise(old(perMin.contents), ip) && perDay.contents == Raise(old(perDay.contents), ip)
    {
      perMin.Increment(wm);
      perDay.Increment(wd);
    }

    /** The second half of Allow, once the minute window has room. */
    method ChargeIfDayAllows(ip: string, wm: Window, now: Time) returns (allowed: bool)
      requires Valid() && ip in perMin.m && perMin.m[ip] == wm
      modifies perMin`contents, perDay, wm, perDay.m.Values
      ensures Valid()
      ensures allowed <==> Current(old(perDay.contents), ip, now, DAY).count < max.perDay
      ensures perDay.contents == if allowed then Charge(old(perDay.contents), ip, now, DAY)
              else Touch(old(perDay.contents), ip, now, DAY)
      ensures perMin.contents == if allowed then Raise(old(perMin.contents), ip) else old(perMin.contents)
    {
      TouchThenRaise(perDay.contents, ip, now, DAY);
      var wd := perDay.GetOrCreate(ip, now, DAY);
      assert Valid();
      if wd.count >= max.perDay { return false; }
      ChargeBoth(ip, wm, wd);
      return true;
    }

    method Allow(ip: string, now: Time) returns (allowed: bool)
      requires Valid()
      modifies perMin, perDay, perMin.m.Values, perDay.m.Values
      ensures Valid()
      ensures (Contents(), allowed) == AllowAt(max, old(Contents()), ip, now)
    {
      TouchThenRaise(perMin.contents, ip, now, MINUTE);
      var wm := perMin.GetOrCreate(ip, now, MINUTE);
      assert Valid();
      if wm.count >= max.perMin { return false; }
      allowed := ChargeIfDayAllows(ip, wm, now);
    }

    method Remaining(ip: string, now: Time) returns (minute: int, day: int)
      requires Valid()
      modifies perMin, perDay
      ensures Valid()
      ensures (Contents(), minute, day) == RemainingAt(max, old(Contents()), ip, now)
    {
      var wm := perMin.GetOrCreate(ip, now, MINUTE);
      var wd := perDay.GetOrCreate(ip, now, DAY);
      minute := max.perMin - wm.count;
      if minute < 0 { minute := 0; }
      day := max.perDay - wd.count;
      if day < 0 { day := 0; }
    }

    method Refund(ip: string, now: Time)
      requires Valid()
      modifies perMin, perDay, perMin.m.Values, perDay.m.Values
      ensures Valid() && Contents() == RefundAt(old(Contents()), ip, now)
    {
      perMin.Refund(ip, now);
      perDay.Refund(ip, now);
    }

    method Cleanup(now: Time)
      requires Valid()
      modifies perMin, perDay
      ensures Valid() && Contents() == CleanupAt(old(Contents()), now)
    {
      perMin.DeleteExpired(now);
      perDay.DeleteExpired(now);
    }
  }

  // ---- Charges ----

  /** What an address has used of its window at this moment. */
  function Used(t: Table, ip: string, now: Time): int {
    if ip in t && now <= t[ip].resetAt then t[ip].count else 0
  }

  ghost predicate Bounded(max: Limits, s: State) {
    forall span: Span, ip :: EntryBounded(max, s, span, ip)
  }

  /** An allowed request charges both windows of its address once, a denied one charges neither, and
      no other address's use changes, now or later. */
  lemma AllowCharges(max: Limits, s: State, ip: string, now: Time, other: string, at: Time, span: Span)
    requires now <= at
    ensures var (s', allowed) := AllowAt(max, s, ip, now);
            && Used(s'.Of(span), ip, now) == Used(s.Of(span), ip, now) + (if allowed then 1 else 0)
            && (allowed ==> Used(s.Of(span), ip, now) < max.Of(span))
            && (!allowed ==> exists full: Span :: Used(s.Of(full), ip, now) >= max.Of(full))
            && (other != ip ==> Used(s'.Of(span), other, at) == Used(s.Of(span), other, at))
  {
    var (s', allowed) := AllowAt(max, s, ip, now);
    assert Used(s.Of(Minute), ip, now) == Current(s.perMin, ip, now, MINUTE).count;
    assert Used(s.Of(Day), ip, now) == Current(s.perDay, ip, now, DAY).count;
  }

  /** A refund takes back an allowed request's charge at every moment except exactly the window's
      last one, where the request path still counts the window but the refund no longer does. */
  lemma RefundTakesBack(max: Limits, s: State, ip: string, now: Time, at: Time, span: Span)
    requires Bounded(max, s) && now <= at && AllowAt(max, s, ip, now).1
    ensures var s' := AllowAt(max, s, ip, now).0;
            ip in s'.Of(span) &&
            var refunded := Step(max, s', Return(ip, at)).0;
            (Used(refunded.Of(span), ip, at) == Used(s.Of(span), ip, at) <==> at != s'.Of(span)[ip].resetAt)
  {
    assert EntryBounded(max, s, span, ip);
  }

  // ---- Runs ----

  datatype Event =
    | Request(ip: string, at: Time)
    | Query(ip: string, at: Time)
    | Return(ip: string, at: Time)
    | Clean(at: Time)

  datatype Answer = Verdict(allowed: bool) | Left(minute: nat, day: nat) | Done

  function Step(max: Limits, s: State, e: Event): (State, Answer) {
    match e
    case Request(ip, at) => var (s', ok) := AllowAt(max, s, ip, at); (s', Verdict(ok))
    case Query(ip, at) => var (s', m, d) := RemainingAt(max, s, ip, at); (s', Left(m, d))
    case Return(ip, at) => (RefundAt(s, ip, at), Done)
    case Clean(at) => (CleanupAt(s, at), Done)
  }

  /** The clock readings never go back. */
  ghost predicate InOrder(now: Time, run: seq<Event>)
    decreases |run|
  {
    run != [] ==> now <= run[0].at && InOrder(run[0].at, run[1..])
  }

  /** The answers the callers see, a cleanup giving none. */
  function Answers(max: Limits, s: State, run: seq<Event>): seq<Answer>
    decreases |run|
  {
    if run == [] then []
    else
      var (s', a) := Step(max, s, run[0]);
      (if run[0].Clean? then [] else [a]) + Answers(max, s', run[1..])
  }

  function WithoutCleanups(run: seq<Event>): seq<Event> {
    if run == [] then []
    else (if run[0].Clean? then [] else [run[0]]) + WithoutCleanups(run[1..])
  }

  predicate EntryBounded(max: Limits, s: State, span: Span, ip: string) {
    ip in s.Of(span) ==> 0 <= s.Of(span)[ip].count <= max.Most(span)
  }

  lemma StepKeepsBound(max: Limits, s: State, e: Event, span: Span, ip: string)
    requires EntryBounded(max, s, span, ip)
    ensures EntryBounded(max, Step(max, s, e).0, span, ip)
  {
    if e.Clean? || e.ip != ip {
    } else if span == Minute {
    } else {
    }
  }

  /** Counts stay between nothing and the maximum, whatever happens and whatever the clock does. */
  lemma StepKeepsBounds(max: Limits, s: State, e: Event)
    requires Bounded(max, s)
    ensures Bounded(max, Step(max, s, e).0)
  {
    forall span: Span, ip ensures EntryBounded(max, Step(max, s, e).0, span, ip) {
      assert EntryBounded(max, s, span, ip);
      StepKeepsBound(max, s, e, span, ip);
    }
  }

  const SECOND: Time := 1_000_000_000

  /** A window keeps its end for as long as it is there, and one that an event opens lasts a minute in
      the one table and a day in the other. */
  lemma WindowsLastTheirLength(max: Limits, s: State, e: Event, span: Span, ip: string)
    ensures var t, t' := s.Of(span), Step(max, s, e).0.Of(span);
            ip in t' ==> || (ip in t && t'[ip].resetAt == t[ip].resetAt)
                         || (!e.Clean? && e.ip == ip && (ip in t ==> t[ip].resetAt < e.at)
                             && t'[ip].resetAt == e.at + (if span == Minute then 60 * SECOND else 24 * 3600 * SECOND))
    ensures Length(Minute) == 60 * SECOND && Length(Day) == 24 * 3600 * SECOND
  {
  }

  // ---- Cleanup is invisible ----

  /** The two tables hold the same live windows from this moment on. */
  predicate AlikeFor(t: Table, u: Table, ip: string, now: Time) {
    && (ip in t && now <= t[ip].resetAt ==> ip in u && u[ip] == t[ip])
    && (ip in u && now <= u[ip].resetAt ==> ip in t && t[ip] == u[ip])
  }

  ghost predicate Alike(s: State, r: State, now: Time) {
    forall span: Span, ip :: AlikeFor(s.Of(span), r.Of(span), ip, now)
  }

  lemma SameAnswer(max: Limits, s: State, r: State, e: Event, now: Time)
    requires Alike(s, r, now) && now <= e.at && !e.Clean?
    ensures Step(max, s, e).1 == Step(max, r, e).1
  {
    assert AlikeFor(s.Of(Minute), r.Of(Minute), e.ip, now) && AlikeFor(s.Of(Day), r.Of(Day), e.ip, now);
    assert Current(s.perMin, e.ip, e.at, MINUTE) == Current(r.perMin, e.ip, e.at, MINUTE);
    assert Current(s.perDay, e.ip, e.at, DAY) == Current(r.perDay, e.ip, e.at, DAY);
  }

  /** One operation on one table. */
  lemma TableKeepsAlike(t: Table, u: Table, ip: string, now: Time, length: Time, x: string, at: Time)
    requires AlikeFor(t, u, x, now) && AlikeFor(t, u, ip, now) && now <= at
    ensures AlikeFor(t, u, x, at)
    ensures AlikeFor(Touch(t, ip, at, length), Touch(u, ip, at, length), x, at)
    ensures AlikeFor(Charge(t, ip, at, length), Charge(u, ip, at, length), x, at)
    ensures AlikeFor(GiveBack(t, ip, at), GiveBack(u, ip, at), x, at)
  {
  }

  lemma StepKeepsAlike(max: Limits, s: State, r: State, e: Event, now: Time)
    requires Alike(s, r, now) && now <= e.at && !e.Clean?
    ensures Alike(Step(max, s, e).0, Step(max, r, e).0, e.at)
  {
    var s', r' := Step(max, s, e).0, Step(max, r, e).0;
    assert AlikeFor(s.Of(Minute), r.Of(Minute), e.ip, now) && AlikeFor(s.Of(Day), r.Of(Day), e.ip, now);
    assert Current(s.perMin, e.ip, e.at, MINUTE) == Current(r.perMin, e.ip, e.at, MINUTE);
    assert Current(s.perDay, e.ip, e.at, DAY) == Current(r.perDay, e.ip, e.at, DAY);
    forall span: Span, x ensures AlikeFor(s'.Of(span), r'.Of(span), x, e.at) {
      assert AlikeFor(s.Of(span), r.Of(span), x, now);
      TableKeepsAlike(s.Of(span), r.Of(span), e.ip, now, Length(span), x, e.at);
    }
  }

  lemma CleanupKeepsAlike(s: State, r: State, now: Time, at: Time)
    requires Alike(s, r, now) && now <= at
    ensures Alike(CleanupAt(s, at), r, at)
  {
    var s' := CleanupAt(s, at);
    forall span: Span, ip ensures AlikeFor(s'.Of(span), r.Of(span), ip, at) {
      assert AlikeFor(s.Of(span), r.Of(span), ip, now);
    }
  }

  lemma {:induction false} CleanupUnseenFrom(max: Limits, s: State, r: State, run: seq<Event>, now: Time)
    requires Alike(s, r, now) && InOrder(now, run)
    ensures Answers(max, s, run) == Answers(max, r, WithoutCleanups(run))
    decreases |run|
  {
    if run != [] {
      var e := run[0];
      var rest := WithoutCleanups(run[1..]);
      if e.Clean? {
        CleanupKeepsAlike(s, r, now, e.at);
        CleanupUnseenFrom(max, CleanupAt(s, e.at), r, run[1..], e.at);
        assert WithoutCleanups(run) == rest;
        assert Answers(max, s, run) == Answers(max, CleanupAt(s, e.at), run[1..]);
      } else {
        SameAnswer(max, s, r, e, now);
        StepKeepsAlike(max, s, r, e, now);
        CleanupUnseenFrom(max, Step(max, s, e).0, Step(max, r, e).0, run[1..], e.at);
        assert WithoutCleanups(run)[0] == e && WithoutCleanups(run)[1..] == rest;
      }
    }
  }

  /** Cleanups inserted anywhere in a run change no answer. */
  lemma CleanupIsUnseen(max: Limits, s: State, run: seq<Event>, now: Time)
    requires InOrder(now, run)
    ensures Answers(max, s, run) == Answers(max, s, WithoutCleanups(run))
  {
    CleanupUnseenFrom(max, s, s, run, now);
  }

  // ---- The rate bound ----

  function Granted(max: Limits, s: State, e: Event, ip: string): bool {
    e.Request? && e.ip == ip && AllowAt(max, s, ip, e.at).1
  }

  /** How many requests of an address a run allows within [from, to]. */
  function AllowedWithin(max: Limits, s: State, run: seq<Event>, ip: string, from: Time, to: Time): nat
    decreases |run|
  {
    if run == [] then 0
    else (if Granted(max, s, run[0], ip) && from <= run[0].at <= to then 1 else 0)
         + AllowedWithin(max, Step(max, s, run[0]).0, run[1..], ip, from, to)
  }

  predicate NoReturns(run: seq<Event>) {
    forall i | 0 <= i < |run| :: !run[i].Return?
  }

  function Refunded(e: Event, ip: string, from: Time, to: Time): nat {
    if e.Return? && e.ip == ip && from <= e.at <= to then 1 else 0
  }

  /** How many refunds an address gets within [from, to]. */
  function ReturnsWithin(run: seq<Event>, ip: string, from: Time, to: Time): nat {
    if run == [] then 0 else Refunded(run[0], ip, from, to) + ReturnsWithin(run[1..], ip, from, to)
  }

  lemma {:induction false} NoReturnsWithin(run: seq<Event>, ip: string, from: Time, to: Time)
    requires NoReturns(run)
    ensures ReturnsWithin(run, ip, from, to) == 0
  {
    if run != [] {
      NoReturnsWithin(run[1..], ip, from, to);
    }
  }

  /** What can still be allowed up to from + length: the rest of the live window, and one more
      whole window if that one ends in time. */
  function Budget(max: Limits, s: State, ip: string, span: Span, from: Time, now: Time): int {
    var t := s.Of(span);
    if ip !in t || t[ip].resetAt < now then max.Most(span)
    else if t[ip].resetAt >= from + Length(span) then max.Most(span) - t[ip].count
    else max.Most(span) - t[ip].count + max.Most(span)
  }

  /** Each grant within the interval uses up a part of the budget, and only a refund adds to it. */
  lemma StepSpends(max: Limits, s: State, e: Event, ip: string, span: Span, from: Time, now: Time)
    requires Bounded(max, s) && from <= now <= e.at <= from + Length(span)
    ensures Budget(max, Step(max, s, e).0, ip, span, from, e.at) + (if Granted(max, s, e, ip) then 1 else 0)
            <= Budget(max, s, ip, span, from, now) + Refunded(e, ip, from, from + Length(span))
  {
    assert EntryBounded(max, s, span, ip);
  }

  lemma {:induction false} AllowedWithinBudget(max: Limits, s: State, run: seq<Event>, ip: string, span: Span,
                                               from: Time, now: Time)
    requires Bounded(max, s) && InOrder(now, run) && from <= now
    ensures AllowedWithin(max, s, run, ip, from, from + Length(span))
            <= (if now <= from + Length(span) then Budget(max, s, ip, span, from, now) else 0)
               + ReturnsWithin(run, ip, from, from + Length(span))
    decreases |run|
  {
    if run == [] {
      assert EntryBounded(max, s, span, ip);
    } else {
      var e := run[0];
      StepKeepsBounds(max, s, e);
      AllowedWithinBudget(max, Step(max, s, e).0, run[1..], ip, span, from, e.at);
      if e.at <= from + Length(span) {
        StepSpends(max, s, e, ip, span, from, now);
      } else {
        assert EntryBounded(max, s, span, ip);
      }
    }
  }

  /** However requests fall, a closed interval as long as a window sees at most two windows' worth,
      and as many more as were refunded within it. */
  lemma {:induction false} AtMostTwice(max: Limits, s: State, run: seq<Event>, ip: string, span: Span,
                                       from: Time, now: Time)
    requires Bounded(max, s) && InOrder(now, run)
    ensures AllowedWithin(max, s, run, ip, from, from + Length(span))
            <= 2 * max.Most(span) + ReturnsWithin(run, ip, from, from + Length(span))
    ensures NoReturns(run) ==> AllowedWithin(max, s, run, ip, from, from + Length(span)) <= 2 * max.Most(span)
    decreases |run|
  {
    if NoReturns(run) {
      NoReturnsWithin(run, ip, from, from + Length(span));
    }
    if run != [] {
      var e := run[0];
      if e.at < from {
        StepKeepsBounds(max, s, e);
        AtMostTwice(max, Step(max, s, e).0, run[1..], ip, span, from, e.at);
      } else {
        assert InOrder(e.at, run);
        AllowedWithinBudget(max, s, run, ip, span, from, e.at);
        assert EntryBounded(max, s, span, ip);
      }
    }
  }

  // ---- The bound is reached ----

  function Burst(ip: string, at: Time, n: nat): seq<Event> {
    seq(n, i => Request(ip, at))
  }

  function ChargeTimes(t: Table, ip: string, at: Time, length: Time, n: nat): Table {
    var e := Current(t, ip, at, length);
    t[ip := Entry(e.count + n, e.resetAt)]
  }

  /** The tables after n charges at one moment. */
  function AfterBurst(s: State, ip: string, at: Time, n: nat): State {
    if n == 0 then s else State(ChargeTimes(s.perMin, ip, at, MINUTE, n), ChargeTimes(s.perDay, ip, at, DAY, n))
  }

  lemma OneThenMore(s: State, ip: string, at: Time, n: nat)
    ensures AfterBurst(State(Charge(s.perMin, ip, at, MINUTE), Charge(s.perDay, ip, at, DAY)), ip, at, n) ==
            AfterBurst(s, ip, at, n + 1)
  {
  }

  /** n requests at one moment are all allowed when both windows have room for them. */
  lemma {:induction false} BurstIsAllowed(max: Limits, s: State, ip: string, at: Time, n: nat, rest: seq<Event>,
                                          from: Time, to: Time)
    requires from <= at <= to
    requires Current(s.perMin, ip, at, MINUTE).count + n <= max.perMin
             && Current(s.perDay, ip, at, DAY).count + n <= max.perDay
    ensures AllowedWithin(max, s, Burst(ip, at, n) + rest, ip, from, to)
            == n + AllowedWithin(max, AfterBurst(s, ip, at, n), rest, ip, from, to)
    decreases n
  {
    var run := Burst(ip, at, n) + rest;
    if n == 0 {
      assert run == rest;
    } else {
      var next := AllowAt(max, s, ip, at).0;
      assert run[0] == Request(ip, at) && run[1..] == Burst(ip, at, n - 1) + rest;
      OneThenMore(s, ip, at, n - 1);
      BurstIsAllowed(max, next, ip, at, n - 1, rest, from, to);
    }
  }

  function Least(a: nat, b: nat): nat {
    if a < b then a else b
  }

  /** An address with nothing left in one window gets nothing more at that moment. */
  lemma {:induction false} SpentIsDenied(max: Limits, s: State, ip: string, at: Time, n: nat)
    requires Current(s.perMin, ip, at, MINUTE).count >= max.perMin || Current(s.perDay, ip, at, DAY).count >= max.perDay
    ensures AllowedWithin(max, s, Burst(ip, at, n), ip, at, at) == 0
    decreases n
  {
    if n > 0 {
      var run := Burst(ip, at, n);
      assert run[0] == Request(ip, at) && run[1..] == Burst(ip, at, n - 1);
      SpentIsDenied(max, AllowAt(max, s, ip, at).0, ip, at, n - 1);
    }
  }

  /** What Remaining reports is what is there: for each window what the address has not used of it,
      and of n requests made at that moment as many are allowed as both windows have left. */
  lemma RemainingIsWhatIsAllowed(max: Limits, s: State, ip: string, at: Time, n: nat)
    ensures var (s', minute, day) := RemainingAt(max, s, ip, at);
            && Step(max, s, Query(ip, at)) == (s', Left(minute, day))
            && minute == (if Used(s.perMin, ip, at) < max.perMin then max.perMin - Used(s.perMin, ip, at) else 0)
            && day == (if Used(s.perDay, ip, at) < max.perDay then max.perDay - Used(s.perDay, ip, at) else 0)
            && AllowedWithin(max, s', Burst(ip, at, n), ip, at, at) == Least(n, Least(minute, day))
  {
    var (s', minute, day) := RemainingAt(max, s, ip, at);
    var k := Least(n, Least(minute, day));
    if k == 0 {
      if n > 0 { SpentIsDenied(max, s', ip, at, n); } else { assert Burst(ip, at, 0) == []; }
    } else {
      assert Burst(ip, at, n) == Burst(ip, at, k) + Burst(ip, at, n - k);
      BurstIsAllowed(max, s', ip, at, k, Burst(ip, at, n - k), at, at);
      if n > k {
        SpentIsDenied(max, AfterBurst(s', ip, at, k), ip, at, n - k);
      } else {
        assert Burst(ip, at, 0) == [];
      }
    }
  }

  lemma {:induction false} BurstInOrder(ip: string, at: Time, n: nat, rest: seq<Event>, now: Time)
    requires now <= at && InOrder(at, rest) && NoReturns(rest)
    ensures InOrder(now, Burst(ip, at, n) + rest) && NoReturns(Burst(ip, at, n) + rest)
    decreases n
  {
    var run := Burst(ip, at, n) + rest;
    if n == 0 {
      assert run == rest;
    } else {
      assert run[0] == Request(ip, at) && run[1..] == Burst(ip, at, n - 1) + rest;
      BurstInOrder(ip, at, n - 1, rest, at);
    }
  }

  /** A query, then n requests in the last moment of the minute it opened, then n in the next moment. */
  function TwoBursts(ip: string, n: nat): seq<Event> {
    [Query(ip, 0)] + (Burst(ip, MINUTE, n) + Burst(ip, MINUTE + 1, n))
  }

  lemma TwoBurstsInOrder(ip: string, n: nat)
    ensures InOrder(0, TwoBursts(ip, n)) && NoReturns(TwoBursts(ip, n))
  {
    var second := Burst(ip, MINUTE + 1, n);
    assert second == second + [] && TwoBursts(ip, n)[1..] == Burst(ip, MINUTE, n) + second;
    BurstInOrder(ip, MINUTE + 1, n, [], MINUTE);
    BurstInOrder(ip, MINUTE, n, second, 0);
  }

  const EMPTY := State(map[], map[])

  /** The tables once a query at time 0 has opened both windows. */
  function Opened(ip: string): State {
    State(map[ip := Entry(0, MINUTE)], map[ip := Entry(0, DAY)])
  }

  lemma QueryOpens(max: Limits, ip: string, rest: seq<Event>, from: Time, to: Time)
    ensures AllowedWithin(max, EMPTY, [Query(ip, 0)] + rest, ip, from, to) ==
            AllowedWithin(max, Opened(ip), rest, ip, from, to)
  {
    var run := [Query(ip, 0)] + rest;
    assert run[0] == Query(ip, 0) && run[1..] == rest;
    assert Step(max, EMPTY, run[0]).0 == Opened(ip);
  }

  /** The factor two is not slack for the minute: a window opened by a mere query can be filled in
      its last moment and a second one in the next moment, when the day has room for both. */
  lemma MinuteTwiceIsReached(max: Limits, ip: string)
    requires 0 <= 2 * max.perMin <= max.perDay
    ensures var run := TwoBursts(ip, max.Most(Minute));
            && InOrder(0, run) && NoReturns(run)
            && AllowedWithin(max, EMPTY, run, ip, MINUTE, 2 * MINUTE) == 2 * max.Most(Minute)
  {
    var n := max.Most(Minute);
    TwoBurstsInOrder(ip, n);
    var second := Burst(ip, MINUTE + 1, n);
    assert second == second + [];
    QueryOpens(max, ip, Burst(ip, MINUTE, n) + second, MINUTE, 2 * MINUTE);
    BurstIsAllowed(max, Opened(ip), ip, MINUTE, n, second, MINUTE, 2 * MINUTE);
    BurstIsAllowed(max, AfterBurst(Opened(ip), ip, MINUTE, n), ip, MINUTE + 1, n, [], MINUTE, 2 * MINUTE);
  }

  // ---- And for the day, with bursts no larger than a minute allows ----

  const STRIDE: Time := MINUTE + 1

  /** n requests in bursts of at most m, each in a minute window of its own. */
  function Batches(ip: string, at: Time, m: nat, n: nat): seq<Event>
    requires m >= 1
    decreases n
  {
    if n == 0 then [] else Burst(ip, at, Least(m, n)) + Batches(ip, at + STRIDE, m, n - Least(m, n))
  }

  /** How many bursts that takes. */
  function BatchCount(m: nat, n: nat): (k: nat)
    requires m >= 1
    ensures n > 0 ==> k > 0
    decreases n
  {
    if n == 0 then 0 else 1 + BatchCount(m, n - Least(m, n))
  }

  lemma {:induction false} BatchCountIsSmall(m: nat, n: nat, k: nat)
    requires m >= 1 && n <= k * m
    ensures BatchCount(m, n) <= k
    decreases n
  {
    if n > 0 {
      assert k >= 1 && k * m == (k - 1) * m + m;
      BatchCountIsSmall(m, n - Least(m, n), k - 1);
    }
  }

  function LastBatch(at: Time, m: nat, n: nat): Time
    requires m >= 1
  {
    at + (BatchCount(m, n) - 1) * STRIDE
  }

  lemma {:induction false} BatchesInOrder(ip: string, at: Time, m: nat, n: nat, rest: seq<Event>, now: Time,
                                          later: Time)
    requires m >= 1 && now <= at && InOrder(later, rest) && NoReturns(rest) && LastBatch(at, m, n) <= later
             && now <= later
    ensures InOrder(now, Batches(ip, at, m, n) + rest) && NoReturns(Batches(ip, at, m, n) + rest)
    decreases n
  {
    if n == 0 {
      assert Batches(ip, at, m, n) + rest == rest;
    } else {
      var b := Least(m, n);
      var tail := Batches(ip, at + STRIDE, m, n - b);
      assert Batches(ip, at, m, n) + rest == Burst(ip, at, b) + (tail + rest);
      assert at <= later;
      BatchesInOrder(ip, at + STRIDE, m, n - b, rest, at, later);
      BurstInOrder(ip, at, b, tail + rest, now);
    }
  }

  /** The minute window is empty and about to end or not there; the day window holds c and ends at `end`. */
  predicate Ready(s: State, ip: string, at: Time, c: int, end: Time) {
    var m := Current(s.perMin, ip, at, MINUTE);
    m.count == 0 && m.resetAt <= at + MINUTE && Current(s.perDay, ip, at, DAY) == Entry(c, end)
  }

  lemma ReadyAgain(s: State, ip: string, at: Time, c: int, end: Time, b: nat)
    requires Ready(s, ip, at, c, end) && b > 0
    ensures var s' := AfterBurst(s, ip, at, b);
            && ip in s'.perDay && s'.perDay[ip] == Entry(c + b, end)
            && ip in s'.perMin && s'.perMin[ip].resetAt <= at + MINUTE
            && (at + STRIDE <= end ==> Ready(s', ip, at + STRIDE, c + b, end))
  {
  }

  lemma BatchIsAllowed(max: Limits, s: State, ip: string, at: Time, b: nat, c: int, end: Time, rest: seq<Event>,
                       from: Time, to: Time)
    requires Ready(s, ip, at, c, end) && b <= max.perMin && c + b <= max.perDay && from <= at <= to
    ensures AllowedWithin(max, s, Burst(ip, at, b) + rest, ip, from, to) ==
            b + AllowedWithin(max, AfterBurst(s, ip, at, b), rest, ip, from, to)
  {
    BurstIsAllowed(max, s, ip, at, b, rest, from, to);
  }

  lemma BatchesSplit(ip: string, at: Time, m: nat, n: nat, rest: seq<Event>)
    requires m >= 1 && n > 0
    ensures var b := Least(m, n);
            && Batches(ip, at, m, n) + rest == Burst(ip, at, b) + (Batches(ip, at + STRIDE, m, n - b) + rest)
            && BatchCount(m, n) == 1 + BatchCount(m, n - b) && 0 < b <= n && b <= m
            && LastBatch(at, m, n) >= at
            && (b == n ==> LastBatch(at, m, n) == at && Batches(ip, at + STRIDE, m, n - b) + rest == rest)
            && (b < n ==> LastBatch(at, m, n) == LastBatch(at + STRIDE, m, n - b) && LastBatch(at, m, n) >= at + STRIDE)
  {
  }

  /** The run allows n requests on the way to the state s', with `rest` still to come. */
  predicate Yields(max: Limits, s: State, run: seq<Event>, n: nat, s': State, rest: seq<Event>, ip: string, from: Time,
                   to: Time) {
    AllowedWithin(max, s, run, ip, from, to) == n + AllowedWithin(max, s', rest, ip, from, to)
  }

  lemma YieldsBoth(max: Limits, s: State, run: seq<Event>, b: nat, s1: State, tail: seq<Event>, n: nat, s2: State,
                   rest: seq<Event>,
                   ip: string, from: Time, to: Time)
    requires Yields(max, s, run, b, s1, tail, ip, from, to) && Yields(max, s1, tail, n, s2, rest, ip, from, to)
    ensures Yields(max, s, run, b + n, s2, rest, ip, from, to)
  {
  }

  /** Where the windows stand after the batches. */
  predicate Spent(s: State, ip: string, used: int, end: Time, last: Time) {
    && ip in s.perDay && s.perDay[ip] == Entry(used, end)
    && ip in s.perMin && s.perMin[ip].resetAt <= last + MINUTE
  }

  lemma {:induction false} BatchesAreAllowed(max: Limits, s: State, ip: string, at: Time, n: nat, c: int, end: Time,
                                             rest: seq<Event>, from: Time, to: Time) returns (s': State)
    requires max.perMin >= 1 && n > 0 && Ready(s, ip, at, c, end) && c + n <= max.perDay
    requires from <= at && LastBatch(at, max.perMin, n) <= to && LastBatch(at, max.perMin, n) <= end
    ensures Yields(max, s, Batches(ip, at, max.perMin, n) + rest, n, s', rest, ip, from, to)
    ensures Spent(s', ip, c + n, end, LastBatch(at, max.perMin, n))
    decreases n
  {
    var m: nat := max.perMin;
    var b := Least(m, n);
    var tail := Batches(ip, at + STRIDE, m, n - b) + rest;
    var next := AfterBurst(s, ip, at, b);
    BatchesSplit(ip, at, m, n, rest);
    assert Yields(max, s, Burst(ip, at, b) + tail, b, next, tail, ip, from, to) by {
      BatchIsAllowed(max, s, ip, at, b, c, end, tail, from, to);
    }
    ReadyAgain(s, ip, at, c, end, b);
    if b == n {
      s' := next;
    } else {
      s' := BatchesAreAllowed(max, next, ip, at + STRIDE, n - b, c + b, end, rest, from, to);
      YieldsBoth(max, s, Burst(ip, at, b) + tail, b, next, tail, n - b, s', rest, ip, from, to);
    }
  }

  /** A query opens the day's window; the day's maximum is spent in its last minutes and again in the
      first minutes of the next. */
  function TwoDays(ip: string, m: nat, n: nat): seq<Event>
    requires m >= 1
  {
    [Query(ip, 0)] + (Batches(ip, FirstBatch(m, n), m, n) + Batches(ip, DAY + STRIDE, m, n))
  }

  function FirstBatch(m: nat, n: nat): Time
    requires m >= 1
  {
    DAY - (BatchCount(m, n) - 1) * STRIDE
  }

  lemma TwoDaysInOrder(ip: string, m: nat, n: nat)
    requires m >= 1 && (BatchCount(m, n) - 1) * STRIDE <= DAY
    ensures InOrder(0, TwoDays(ip, m, n)) && NoReturns(TwoDays(ip, m, n))
  {
    var second := Batches(ip, DAY + STRIDE, m, n);
    assert second == second + [];
    assert TwoDays(ip, m, n)[1..] == Batches(ip, FirstBatch(m, n), m, n) + second;
    BatchesInOrder(ip, DAY + STRIDE, m, n, [], DAY, LastOr(DAY + STRIDE, m, n));
    BatchesInOrder(ip, FirstBatch(m, n), m, n, second, 0, DAY);
  }

  function LastOr(at: Time, m: nat, n: nat): Time
    requires m >= 1
  {
    if n == 0 then at else LastBatch(at, m, n)
  }

  lemma OpenedIsReady(ip: string, at: Time)
    requires MINUTE < at <= DAY
    ensures Ready(Opened(ip), ip, at, 0, DAY)
  {
  }

  lemma NextDayIsReady(s: State, ip: string, at: Time)
    requires ip in s.perDay && s.perDay[ip].resetAt < at && ip in s.perMin && s.perMin[ip].resetAt < at
    ensures Ready(s, ip, at, 0, at + DAY)
  {
  }

  lemma TwoDaysFit(m: nat, n: nat)
    requires 1 <= n <= 720 * m
    ensures 1 <= BatchCount(m, n) && MINUTE < FirstBatch(m, n) <= LastBatch(FirstBatch(m, n), m, n) == DAY
    ensures LastBatch(DAY + STRIDE, m, n) <= FirstBatch(m, n) + DAY
  {
    BatchCountIsSmall(m, n, 720);
  }

  /** Nor is it slack for the day, whenever the minute's maximum lets the day's be spent twice in that
      time: any daily maximum of at most 720 minutes' worth qualifies. */
  lemma DayTwiceIsReached(max: Limits, ip: string)
    requires max.perMin >= 1 && 1 <= max.perDay <= 720 * max.perMin
    ensures var m: nat, n: nat := max.perMin, max.perDay;
            AllowedWithin(max, EMPTY, TwoDays(ip, m, n), ip, FirstBatch(m, n), FirstBatch(m, n) + DAY) == 2 * n
            && InOrder(0, TwoDays(ip, m, n)) && NoReturns(TwoDays(ip, m, n))
  {
    var m: nat, n: nat := max.perMin, max.perDay;
    TwoDaysFit(m, n);
    TwoDaysInOrder(ip, m, n);
    var first, again := FirstBatch(m, n), DAY + STRIDE;
    var second := Batches(ip, again, m, n);
    assert second == second + [];
    QueryOpens(max, ip, Batches(ip, first, m, n) + second, first, first + DAY);
    OpenedIsReady(ip, first);
    var full := BatchesAreAllowed(max, Opened(ip), ip, first, n, 0, DAY, second, first, first + DAY);
    NextDayIsReady(full, ip, again);
    var end := BatchesAreAllowed(max, full, ip, again, n, 0, again + DAY, [], first, first + DAY);
  }
}
