/**
  CbCall under concurrency. Each access to a counter is a step of its own, because invokeCount and
  failCount are raised outside the breaker's lock while its holder reads and resets them. The other
  fields are only touched under the lock. Stamps are taken before the lock, so they need not come in
  lock order.

  `invEpoch` and `failEpoch` are history: they advance whenever invokeCount, respectively failCount,
  is reset. A call remembers the epochs in which it was counted.
 */
module BreakerThreads {
  import opened Wrappers
  import opened Sets
  import opened Breaker

  type Tid = nat

  datatype Pc =
    | Arrived
    | HalfTest | HalfFail | HalfInvoke
    | Gate
    | ReadFails | ReadInvokes(f: int) | TripTest(f: int, n: int)
    | RecoverTest | RecoverInvoke | RecoverFail
    | ResetTest | ResetFail | ResetInvoke
    | Leave(pass: bool)
    | Admitted | Running | Failing | Ended(ran: bool, ok: bool)
  {
    predicate Locked() {
      !Arrived? && !Admitted? && !Running? && !Failing? && !Ended?
    }

    /** Under the lock with the decision to pass taken. */
    predicate Passing() {
      || ReadFails? || ReadInvokes? || TripTest? || RecoverTest? || RecoverInvoke? || RecoverFail?
      || ResetTest? || ResetFail? || ResetInvoke? || (Leave? && pass)
    }

    predicate Counted() { Running? || Failing? || (Ended? && ran) }

    predicate Unfinished() { Running? || Failing? }
  }

  /** `draw` is the random number a call drew at the gate. */
  datatype Thread = Thread(now: int, pc: Pc, counted: Option<nat>, failed: Option<nat>, draw: real)

  /** History of status changes and admissions; `wait` is the configured time that had to pass, `rate`
      the configured limit rate. */
  datatype Event =
    | Tripped(who: Tid, at: int)
    | HalfOpened(who: Tid, at: int, wait: int)
    | Recovered(who: Tid, at: int, wait: int)
    | Passed(who: Tid, draw: real, rate: real)

  datatype State = State(info: Info, lock: Option<Tid>, threads: map<Tid, Thread>,
                         invEpoch: nat, failEpoch: nat, exposed: set<Tid>, log: seq<Event>)
  {
    /** The lock holder has reset failCount but not yet invokeCount. */
    predicate Window() {
      lock.Some? && lock.value in threads
      && (threads[lock.value].pc.HalfInvoke? || threads[lock.value].pc.ResetInvoke?)
    }

    /** The lock holder has reset invokeCount but not yet failCount. */
    predicate Recovering() {
      lock.Some? && lock.value in threads && threads[lock.value].pc.RecoverFail?
    }

    /** Calls counted in and not yet through with their outcome. */
    function InFlight(): set<Tid> {
      set t | t in threads && threads[t].pc.Unfinished()
    }
  }

  datatype Action =
    | Arrive(t: Tid, now: int)
    | Configure(config: Config)
    | Advance(t: Tid, draw: real, ok: bool)

  predicate CanAdvance(s: State, th: Thread) {
    match th.pc
    case Arrived => s.lock.None?
    case TripTest(_, n) => n != 0
    case Ended(_, _) => false
    case _ => true
  }

  predicate Enabled(s: State, a: Action) {
    match a
    case Arrive(t, _) => t !in s.threads
    case Configure(_) => s.lock.None?
    case Advance(t, _, _) => t in s.threads && CanAdvance(s, s.threads[t])
  }

  function NextPc(i: Info, th: Thread, draw: real, ok: bool): Pc
    requires th.pc.TripTest? ==> th.pc.n != 0
  {
    match th.pc
    case Arrived => HalfTest
    case HalfTest => if HalfOpens(i, th.now) then HalfFail else Gate
    case HalfFail => HalfInvoke
    case HalfInvoke => Gate
    case Gate => if Passes(i, draw) then ReadFails else Leave(false)
    case ReadFails => ReadInvokes(i.failCount)
    case ReadInvokes(f) => TripTest(f, i.invokeCount)
    case TripTest(f, n) => if TripsOn(f, n, i.invokeCount, i.config) then Leave(false) else RecoverTest
    case RecoverTest => if Recovers(i, th.now) then RecoverInvoke else ResetTest
    case RecoverInvoke => RecoverFail
    case RecoverFail => ResetTest
    case ResetTest => if Resets(i, th.now) then ResetFail else Leave(true)
    case ResetFail => ResetInvoke
    case ResetInvoke => Leave(true)
    case Leave(pass) => if pass then Admitted else Ended(false, false)
    case Admitted => Running
    case Running => if ok then Ended(true, true) else Failing
    case Failing => Ended(true, false)
    case Ended(_, _) => th.pc
  }

  function NextInfo(i: Info, th: Thread): Info
    requires th.pc.TripTest? ==> th.pc.n != 0
  {
    match th.pc
    case HalfTest =>
      if HalfOpens(i, th.now) then i.(status := Limit, lastLimitPass := th.now, lastTrip := 0) else i
    case HalfFail => i.(failCount := 0)
    case HalfInvoke => i.(invokeCount := 1)
    case TripTest(f, n) =>
      if TripsOn(f, n, i.invokeCount, i.config) then i.(status := Open, lastTrip := th.now) else i
    case RecoverTest => if Recovers(i, th.now) then i.(status := Closed, lastLimitPass := 0) else i
    case RecoverInvoke => i.(invokeCount := 1)
    case RecoverFail => i.(failCount := 0)
    case ResetTest => if Resets(i, th.now) then i.(lastReset := th.now) else i
    case ResetFail => i.(failCount := 0)
    case ResetInvoke => i.(invokeCount := 1)
    case Admitted => i.(invokeCount := i.invokeCount + 1)
    case Failing => i.(failCount := i.failCount + 1)
    case _ => i
  }

  function Emits(i: Info, t: Tid, th: Thread): seq<Event>
    requires th.pc.TripTest? ==> th.pc.n != 0
  {
    match th.pc
    case HalfTest => if HalfOpens(i, th.now) then [HalfOpened(t, th.now, i.config.failTime)] else []
    case TripTest(f, n) => if TripsOn(f, n, i.invokeCount, i.config) then [Tripped(t, th.now)] else []
    case RecoverTest => if Recovers(i, th.now) then [Recovered(t, th.now, i.config.limitTime)] else []
    case Leave(pass) => if pass then [Passed(t, th.draw, i.config.limitRate)] else []
    case _ => []
  }

  function Step(s: State, t: Tid, draw: real, ok: bool): State
    requires t in s.threads && CanAdvance(s, s.threads[t])
  {
    var th := s.threads[t];
    State(
      NextInfo(s.info, th),
      if th.pc.Arrived? then Some(t) else if th.pc.Leave? then None else s.lock,
      s.threads[t := Thread(th.now, NextPc(s.info, th, draw, ok),
                            if th.pc.Admitted? then Some(s.invEpoch) else th.counted,
                            if th.pc.Failing? then Some(s.failEpoch) else th.failed,
                            if th.pc.Gate? then draw else th.draw)],
      if th.pc.HalfInvoke? || th.pc.RecoverInvoke? || th.pc.ResetInvoke? then s.invEpoch + 1 else s.invEpoch,
      if th.pc.HalfFail? || th.pc.RecoverFail? || th.pc.ResetFail? then s.failEpoch + 1 else s.failEpoch,
      if th.pc.HalfFail? || th.pc.RecoverFail? || th.pc.ResetFail? then s.InFlight()
      else if th.pc.Admitted? && s.Window() then s.exposed + {t}
      else s.exposed,
      s.log + Emits(s.info, t, th))
  }

  function Apply(s: State, a: Action): State
    requires Enabled(s, a)
  {
    match a
    case Arrive(t, now) => s.(threads := s.threads[t := Thread(now, Arrived, None, None, 0.0)])
    case Configure(config) => s.(info := s.info.(config := config))
    case Advance(t, draw, ok) => Step(s, t, draw, ok)
  }

  /** The record as its first user makes it, under the table's mutex. */
  ghost predicate Start(s: State) {
    exists now, config :: s == State(NewInfo(now, config), None, map[], 0, 0, {}, [])
  }

  ghost predicate Next(s: State, s': State) {
    exists a :: Enabled(s, a) && s' == Apply(s, a)
  }

  ghost predicate IsRun(run: seq<State>) {
    && |run| > 0 && Start(run[0])
    && forall i :: 0 <= i < |run| - 1 ==> Next(run[i], run[i + 1])
  }

  ghost predicate Reachable(s: State) {
    exists run :: IsRun(run) && run[|run| - 1] == s
  }

  // ---- The invariant ----

  predicate ThreadInv(s: State, t: Tid)
    requires t in s.threads
  {
    var th := s.threads[t];
    && (th.pc.Locked() <==> s.lock == Some(t))
    && (th.counted.Some? <==> th.pc.Counted())
    && (th.failed.Some? <==> th.pc == Ended(true, false))
    && (th.counted.Some? ==> th.counted.value <= s.invEpoch)
    && (th.failed.Some? ==> th.failed.value <= s.failEpoch)
    && (th.pc.Passing() ==> !s.info.status.Open?)
    && (th.pc.Passing() && s.info.status.Limit? ==> th.draw < s.info.config.limitRate)
  }

  /** An outcome still to be counted, or counted since the last reset of failCount, belongs to a call
      of the current invocation count or to an exposed one. */
  predicate ExposureInv(s: State, t: Tid)
    requires t in s.threads
  {
    var th := s.threads[t];
    th.pc.Unfinished() || th.failed == Some(s.failEpoch) ==>
      && (!s.Recovering() && th.counted != Some(s.invEpoch) ==> t in s.exposed)
      && (s.Window() ==> t in s.exposed)
  }

  /** What the lock holder has read of the counters. */
  predicate ReadInv(s: State, t: Tid)
    requires t in s.threads
  {
    match s.threads[t].pc
    case ReadInvokes(f) => f <= s.info.invokeCount - 1 + |s.exposed|
    case TripTest(f, n) => 1 <= n && f <= n - 1 + |s.exposed|
    case _ => true
  }

  function CountedIn(threads: map<Tid, Thread>, epoch: nat): set<Tid> {
    set t | t in threads && threads[t].counted == Some(epoch)
  }

  function FailedIn(threads: map<Tid, Thread>, epoch: nat): set<Tid> {
    set t | t in threads && threads[t].failed == Some(epoch)
  }

  predicate CountInv(s: State) {
    && s.info.invokeCount == 1 + |CountedIn(s.threads, s.invEpoch)|
    && s.info.failCount == |FailedIn(s.threads, s.failEpoch)|
  }

  predicate Inv(s: State) {
    && (forall t :: t in s.threads ==> ThreadInv(s, t))
    && (forall t :: t in s.threads ==> ExposureInv(s, t))
    && (forall t :: t in s.threads ==> ReadInv(s, t))
    && (s.lock.Some? ==> s.lock.value in s.threads)
    && CountInv(s)
  }

  lemma ThreadStep(s: State, t: Tid, draw: real, ok: bool, u: Tid)
    requires t in s.threads && CanAdvance(s, s.threads[t]) && u in s.threads
    requires ThreadInv(s, t) && ThreadInv(s, u)
    ensures ThreadInv(Step(s, t, draw, ok), u)
  {
  }

  lemma ExposureStep(s: State, t: Tid, draw: real, ok: bool, u: Tid)
    requires t in s.threads && CanAdvance(s, s.threads[t]) && u in s.threads
    requires s.lock.Some? ==> s.lock.value in s.threads
    requires ThreadInv(s, t) && ThreadInv(s, u) && ExposureInv(s, u)
    ensures ExposureInv(Step(s, t, draw, ok), u)
  {
  }

  lemma Bound(s: State)
    requires CountInv(s) && !s.Recovering()
    requires forall t :: t in s.threads ==> ThreadInv(s, t) && ExposureInv(s, t)
    ensures s.info.failCount <= s.info.invokeCount - 1 + |s.exposed|
  {
    var failed, counted := FailedIn(s.threads, s.failEpoch), CountedIn(s.threads, s.invEpoch);
    forall t | t in failed
      ensures t in counted + s.exposed
    {
      assert ExposureInv(s, t);
    }
    SubsetSize(failed, counted + s.exposed);
  }

  lemma CountStep(s: State, t: Tid, draw: real, ok: bool)
    requires t in s.threads && CanAdvance(s, s.threads[t]) && CountInv(s)
    requires forall u :: u in s.threads ==> ThreadInv(s, u)
    ensures CountInv(Step(s, t, draw, ok))
  {
    var s' := Step(s, t, draw, ok);
    var th := s.threads[t];
    assert ThreadInv(s, t);
    if s'.invEpoch == s.invEpoch {
      var c, c' := CountedIn(s.threads, s.invEpoch), CountedIn(s'.threads, s.invEpoch);
      assert c - {t} == c' - {t};
      SizeAfter(c, c', t);
    } else {
      forall u | u in s'.threads
        ensures s'.threads[u].counted != Some(s'.invEpoch)
      {
        assert ThreadInv(s, u);
      }
      assert CountedIn(s'.threads, s'.invEpoch) == {};
    }
    if s'.failEpoch == s.failEpoch {
      var f, f' := FailedIn(s.threads, s.failEpoch), FailedIn(s'.threads, s.failEpoch);
      assert f - {t} == f' - {t};
      SizeAfter(f, f', t);
    } else {
      forall u | u in s'.threads
        ensures s'.threads[u].failed != Some(s'.failEpoch)
      {
        assert ThreadInv(s, u);
      }
      assert FailedIn(s'.threads, s'.failEpoch) == {};
    }
  }

  lemma ReadStep(s: State, t: Tid, draw: real, ok: bool, u: Tid)
    requires t in s.threads && CanAdvance(s, s.threads[t]) && u in s.threads
    requires ThreadInv(s, t) && ThreadInv(s, u) && ReadInv(s, u)
    requires s.info.invokeCount >= 1
    requires !s.Recovering() ==> s.info.failCount <= s.info.invokeCount - 1 + |s.exposed|
    ensures ReadInv(Step(s, t, draw, ok), u)
  {
    var s' := Step(s, t, draw, ok);
    if t != u && (s.threads[u].pc.ReadInvokes? || s.threads[u].pc.TripTest?) {
      assert !s.threads[t].pc.Locked();
      assert s'.info.invokeCount >= s.info.invokeCount;
      SubsetSize(s.exposed, s'.exposed);
    }
  }

  lemma ArriveKeeps(s: State, a: Action)
    requires Inv(s) && a.Arrive? && Enabled(s, a)
    ensures Inv(Apply(s, a))
  {
    var s' := Apply(s, a);
    assert CountedIn(s'.threads, s.invEpoch) == CountedIn(s.threads, s.invEpoch);
    assert FailedIn(s'.threads, s.failEpoch) == FailedIn(s.threads, s.failEpoch);
    forall t | t in s'.threads
      ensures ThreadInv(s', t) && ExposureInv(s', t) && ReadInv(s', t)
    {
      if t != a.t { assert ThreadInv(s, t) && ExposureInv(s, t) && ReadInv(s, t); }
    }
  }

  lemma ConfigureKeeps(s: State, a: Action)
    requires Inv(s) && a.Configure? && Enabled(s, a)
    ensures Inv(Apply(s, a))
  {
    var s' := Apply(s, a);
    forall t | t in s'.threads
      ensures ThreadInv(s', t) && ExposureInv(s', t) && ReadInv(s', t)
    {
      assert ThreadInv(s, t) && ExposureInv(s, t) && ReadInv(s, t);
    }
  }

  lemma AdvanceKeeps(s: State, a: Action)
    requires Inv(s) && a.Advance? && Enabled(s, a)
    ensures Inv(Apply(s, a))
  {
    var s' := Apply(s, a);
    assert ThreadInv(s, a.t);
    if !s.Recovering() { Bound(s); }
    forall u | u in s'.threads
      ensures ThreadInv(s', u) && ExposureInv(s', u) && ReadInv(s', u)
    {
      assert ThreadInv(s, u) && ExposureInv(s, u) && ReadInv(s, u);
      ThreadStep(s, a.t, a.draw, a.ok, u);
      ExposureStep(s, a.t, a.draw, a.ok, u);
      ReadStep(s, a.t, a.draw, a.ok, u);
    }
    CountStep(s, a.t, a.draw, a.ok);
  }

  lemma NextKeeps(s: State, s': State)
    requires Inv(s) && Next(s, s')
    ensures Inv(s')
  {
    var a :| Enabled(s, a) && s' == Apply(s, a);
    match a
    case Arrive(_, _) => ArriveKeeps(s, a);
    case Configure(_) => ConfigureKeeps(s, a);
    case Advance(_, _, _) => AdvanceKeeps(s, a);
  }

  lemma {:induction false} RunKeeps(run: seq<State>, i: nat)
    requires IsRun(run) && i < |run|
    ensures Inv(run[i])
  {
    if i == 0 {
      assert CountedIn(map[], 0) == {} && FailedIn(map[], 0) == {};
    } else {
      RunKeeps(run, i - 1);
      assert Next(run[i - 1], run[i - 1 + 1]);
      NextKeeps(run[i - 1], run[i]);
    }
  }

  lemma ReachableInv(s: State)
    requires Reachable(s)
    ensures Inv(s)
  {
    var run :| IsRun(run) && run[|run| - 1] == s;
    RunKeeps(run, |run| - 1);
  }
}
