/** What the breaker guarantees over every concurrent run. */
module BreakerTheorems {
  import opened Wrappers
  import opened Sets
  import opened Breaker
  import opened BreakerThreads

  // ---- Counters ----

  /** The calls counted into the current invocation count that are now at `pc`. */
  function Current(s: State, pc: Pc): set<Tid> {
    set t | t in s.threads && s.threads[t].counted == Some(s.invEpoch) && s.threads[t].pc == pc
  }

  lemma Parts<T>(a: set<T>, b: set<T>, c: set<T>, d: set<T>, whole: set<T>)
    requires a !! b !! c !! d && whole == a + b + c + d
    ensures |whole| == |a| + |b| + |c| + |d|
  {
  }

  lemma CurrentParts(s: State)
    requires forall t :: t in s.threads && s.threads[t].counted == Some(s.invEpoch) ==> s.threads[t].pc.Counted()
    ensures |CountedIn(s.threads, s.invEpoch)|
            == |Current(s, Running)| + |Current(s, Failing)|
               + |Current(s, Ended(true, true))| + |Current(s, Ended(true, false))|
  {
    Parts(Current(s, Running), Current(s, Failing), Current(s, Ended(true, true)), Current(s, Ended(true, false)),
          CountedIn(s.threads, s.invEpoch));
  }

  /** invokeCount, less its initial one, is exactly the running, failing, succeeded and failed calls
      of its epoch; so it is never below one. */
  lemma InvocationAccounting(s: State)
    requires Reachable(s)
    ensures s.info.invokeCount - 1
            == |Current(s, Running)| + |Current(s, Failing)|
               + |Current(s, Ended(true, true))| + |Current(s, Ended(true, false))|
    ensures s.info.invokeCount >= 1
  {
    ReachableInv(s);
    forall t | t in s.threads && s.threads[t].counted == Some(s.invEpoch)
      ensures s.threads[t].pc.Counted()
    {
      assert ThreadInv(s, t);
    }
    CurrentParts(s);
  }

  /** Failures counted since the last reset of failCount by calls of an earlier invocation epoch. */
  function Carried(s: State): set<Tid> {
    set t | t in s.threads && s.threads[t].failed == Some(s.failEpoch) && s.threads[t].counted != Some(s.invEpoch)
  }

  function OwnFailures(s: State): set<Tid> {
    set t | t in s.threads && s.threads[t].failed == Some(s.failEpoch) && s.threads[t].counted == Some(s.invEpoch)
  }

  /** failCount is this epoch's own failures plus those carried over, and only a call that was in
      flight at the last reset, or was counted while it was half done, can be carried over. */
  lemma FailureAccounting(s: State)
    requires Reachable(s)
    ensures s.info.failCount == |OwnFailures(s)| + |Carried(s)|
    ensures |OwnFailures(s)| <= s.info.invokeCount - 1
    ensures !s.Recovering() ==> Carried(s) <= s.exposed
    ensures !s.Recovering() ==> s.info.failCount <= s.info.invokeCount - 1 + |s.exposed|
  {
    ReachableInv(s);
    Parts(OwnFailures(s), Carried(s), {}, {}, FailedIn(s.threads, s.failEpoch));
    SubsetSize(OwnFailures(s), CountedIn(s.threads, s.invEpoch));
    if !s.Recovering() {
      forall t | t in Carried(s)
        ensures t in s.exposed
      {
        assert ExposureInv(s, t);
      }
      SubsetSize(Carried(s), s.exposed);
    }
  }

  /** The trip test never divides by zero, and what it divides was read in order: the failures read
      exceed the invocations read by less than the exposed calls. */
  lemma TripTestReads(s: State, t: Tid)
    requires Reachable(s) && t in s.threads && s.threads[t].pc.TripTest?
    ensures CanAdvance(s, s.threads[t])
    ensures 1 <= s.threads[t].pc.n && s.threads[t].pc.f < s.threads[t].pc.n + |s.exposed|
  {
    ReachableInv(s);
    assert ReadInv(s, t);
  }

  /** At most one call at a time is between its stamp and its end. */
  ghost predicate OneAtATime(s: State) {
    forall t, u :: t in s.threads && u in s.threads && !s.threads[t].pc.Ended? && !s.threads[u].pc.Ended? ==> t == u
  }

  lemma ExposesNothing(s: State, t: Tid, draw: real, ok: bool)
    requires t in s.threads && CanAdvance(s, s.threads[t]) && OneAtATime(s) && s.exposed == {}
    requires ThreadInv(s, t) && (s.lock.Some? ==> s.lock.value in s.threads && ThreadInv(s, s.lock.value))
    ensures Step(s, t, draw, ok).exposed == {}
  {
    if s.threads[t].pc.Locked() {
      assert s.InFlight() == {};
    }
  }

  lemma {:induction false} NothingExposed(run: seq<State>, i: nat)
    requires IsRun(run) && i < |run| && forall k :: 0 <= k < |run| ==> OneAtATime(run[k])
    ensures run[i].exposed == {}
  {
    if i == 0 {
    } else {
      var s := run[i - 1];
      NothingExposed(run, i - 1);
      RunKeeps(run, i - 1);
      assert Next(s, run[i - 1 + 1]);
      var a :| Enabled(s, a) && run[i] == Apply(s, a);
      if a.Advance? {
        assert ThreadInv(s, a.t) && (s.lock.Some? ==> ThreadInv(s, s.lock.value));
        ExposesNothing(s, a.t, a.draw, a.ok);
      }
    }
  }

  /** Without overlap the failures are always fewer than the invocations. */
  lemma SequentialCounts(run: seq<State>, i: nat)
    requires IsRun(run) && i < |run| && forall k :: 0 <= k < |run| ==> OneAtATime(run[k])
    requires !run[i].Recovering()
    ensures 0 <= run[i].info.failCount < run[i].info.invokeCount
  {
    NothingExposed(run, i);
    RunKeeps(run, i);
    Bound(run[i]);
  }

  // ---- Status ----

  /** The three-state machine a reader of the log expects: nothing passes while it is open, and during a
      trial only a draw below the limit rate. `since` is the stamp that entered the state. */
  datatype Mode = Shut | OpenSince(since: int) | TrialSince(since: int)

  function Follow(m: Mode, e: Event): Option<Mode> {
    match e
    case Tripped(_, at) => if m.OpenSince? then None else Some(OpenSince(at))
    case HalfOpened(_, at, wait) => if m.OpenSince? && m.since + wait < at then Some(TrialSince(at)) else None
    case Recovered(_, at, wait) => if m.TrialSince? && m.since + wait < at then Some(Shut) else None
    case Passed(_, draw, rate) => if m.OpenSince? || (m.TrialSince? && draw >= rate) then None else Some(m)
  }

  function Replay(log: seq<Event>): Option<Mode> {
    if log == [] then Some(Shut)
    else match Replay(log[..|log| - 1])
      case None => None
      case Some(m) => Follow(m, log[|log| - 1])
  }

  function ModeOf(i: Info): Mode {
    match i.status
    case Closed => Shut
    case Open => OpenSince(i.lastTrip)
    case Limit => TrialSince(i.lastLimitPass)
  }

  predicate LogInv(s: State) {
    && Replay(s.log) == Some(ModeOf(s.info))
    && forall k :: 0 <= k < |s.log| ==>
         s.log[k].who in s.threads && (!s.log[k].Passed? ==> s.threads[s.log[k].who].now == s.log[k].at)
  }

  lemma ModeStep(s: State, t: Tid, draw: real, ok: bool)
    requires t in s.threads && CanAdvance(s, s.threads[t]) && ThreadInv(s, t)
    ensures var e := Emits(s.info, t, s.threads[t]);
            var m, m' := ModeOf(s.info), ModeOf(NextInfo(s.info, s.threads[t]));
            if e == [] then m' == m else |e| == 1 && Follow(m, e[0]) == Some(m')
  {
  }

  lemma StampsStep(s: State, t: Tid, draw: real, ok: bool)
    requires t in s.threads && CanAdvance(s, s.threads[t])
    ensures forall u :: u in s.threads ==>
              u in Step(s, t, draw, ok).threads && Step(s, t, draw, ok).threads[u].now == s.threads[u].now
    ensures var e := Emits(s.info, t, s.threads[t]);
            |e| <= 1 && (|e| == 1 ==> e[0].who == t && (!e[0].Passed? ==> e[0].at == s.threads[t].now))
  {
  }

  lemma LogAdvance(s: State, a: Action)
    requires Inv(s) && LogInv(s) && a.Advance? && Enabled(s, a)
    ensures LogInv(Apply(s, a))
  {
    assert ThreadInv(s, a.t);
    ModeStep(s, a.t, a.draw, a.ok);
    StampsStep(s, a.t, a.draw, a.ok);
    var log, e := s.log, Emits(s.info, a.t, s.threads[a.t]);
    if e == [] {
      assert log + e == log;
    } else {
      assert (log + e)[..|log + e| - 1] == log;
    }
  }

  lemma LogStep(s: State, a: Action)
    requires Inv(s) && LogInv(s) && Enabled(s, a)
    ensures LogInv(Apply(s, a))
  {
    if a.Advance? {
      LogAdvance(s, a);
    }
  }

  lemma {:induction false} RunLog(run: seq<State>, i: nat)
    requires IsRun(run) && i < |run|
    ensures LogInv(run[i])
  {
    if i == 0 {
    } else {
      RunLog(run, i - 1);
      RunKeeps(run, i - 1);
      assert Next(run[i - 1], run[i - 1 + 1]);
      var a :| Enabled(run[i - 1], a) && run[i] == Apply(run[i - 1], a);
      LogStep(run[i - 1], a);
    }
  }

  lemma {:induction false} PrefixLegal(log: seq<Event>, k: nat)
    requires Replay(log).Some? && k <= |log|
    ensures Replay(log[..k]).Some?
    ensures k < |log| ==> Follow(Replay(log[..k]).value, log[k]) == Replay(log[..k + 1])
    ensures k < |log| ==> Replay(log[..k + 1]).Some?
    decreases |log| - k
  {
    if k == |log| {
      assert log[..k] == log;
    } else {
      PrefixLegal(log, k + 1);
      assert log[..k + 1][..k] == log[..k];
    }
  }

  /** The breaker's status is what its log of trips, trials and recoveries leads to. */
  lemma StatusFollowsLog(s: State)
    requires Reachable(s)
    ensures Replay(s.log) == Some(ModeOf(s.info))
  {
    var run :| IsRun(run) && run[|run| - 1] == s;
    RunLog(run, |run| - 1);
  }

  /** A trial begins only as the next event after a trip, by a call stamped more than failTime later:
      no call is admitted in between. */
  lemma TrialFollowsTrip(s: State, h: nat)
    requires Reachable(s) && h < |s.log| && s.log[h].HalfOpened?
    ensures h > 0 && s.log[h - 1].Tripped? && s.log[h - 1].at + s.log[h].wait < s.log[h].at
  {
    StatusFollowsLog(s);
    PrefixLegal(s.log, h);
    if h > 0 {
      PrefixLegal(s.log, h - 1);
    }
  }

  /** After a trip the very next event, if any, is the start of a trial: nothing passes, and the
      breaker does not close, before it. */
  lemma NothingPassesWhileOpen(s: State, i: nat)
    requires Reachable(s) && i + 1 < |s.log| && s.log[i].Tripped?
    ensures s.log[i + 1].HalfOpened?
  {
    StatusFollowsLog(s);
    PrefixLegal(s.log, i);
    PrefixLegal(s.log, i + 1);
  }

  lemma {:induction false} TrialSource(log: seq<Event>, k: nat) returns (h: nat)
    requires Replay(log).Some? && k <= |log| && Replay(log[..k]).Some? && Replay(log[..k]).value.TrialSince?
    ensures h < k && log[h].HalfOpened? && Replay(log[..k]).value.since == log[h].at
    ensures forall m :: h < m < k ==> log[m].Passed?
  {
    assert k > 0;
    PrefixLegal(log, k - 1);
    h := k - 1;
    if !log[k - 1].HalfOpened? {
      h := TrialSource(log, k - 1);
    }
  }

  /** The breaker closes again only out of a trial, by a call stamped more than limitTime after the
      call that began it; between the two there are only admissions. With a non-negative limitTime
      the two calls are different. */
  lemma RecoveryFollowsTrial(s: State, j: nat) returns (h: nat)
    requires Reachable(s) && j < |s.log| && s.log[j].Recovered?
    ensures h < j && s.log[h].HalfOpened? && (forall m :: h < m < j ==> s.log[m].Passed?)
    ensures s.log[h].at + s.log[j].wait < s.log[j].at
    ensures s.log[j].wait >= 0 ==> s.log[h].who != s.log[j].who
  {
    var run :| IsRun(run) && run[|run| - 1] == s;
    RunLog(run, |run| - 1);
    PrefixLegal(s.log, j);
    h := TrialSource(s.log, j);
  }

  lemma {:induction false} TrialLasts(log: seq<Event>, h: nat, k: nat)
    requires Replay(log).Some? && h < k <= |log| && log[h].HalfOpened? && forall m :: h < m < k ==> log[m].Passed?
    ensures Replay(log[..k]).Some? && Replay(log[..k]).value.TrialSince?
    decreases k
  {
    PrefixLegal(log, k - 1);
    if k == h + 1 {
    } else {
      TrialLasts(log, h, k - 1);
    }
  }

  /** Every call that passes during a trial drew a number below the limit rate. */
  lemma TrialAdmits(s: State, h: nat, j: nat)
    requires Reachable(s) && h < j < |s.log| && s.log[h].HalfOpened? && forall m :: h < m <= j ==> s.log[m].Passed?
    ensures s.log[j].draw < s.log[j].rate
  {
    StatusFollowsLog(s);
    TrialLasts(s.log, h, j);
    PrefixLegal(s.log, j);
  }

  /** The times and rates in the log of a breaker configured with `config`. */
  predicate Configured(log: seq<Event>, config: Config) {
    forall k :: 0 <= k < |log| ==>
      match log[k]
      case Tripped(_, _) => true
      case HalfOpened(_, _, wait) => wait == config.failTime
      case Recovered(_, _, wait) => wait == config.limitTime
      case Passed(_, _, rate) => rate == config.limitRate
  }

  lemma {:induction false} LogConfigured(run: seq<State>, i: nat, config: Config)
    requires IsRun(run) && i < |run| && forall k :: 0 <= k < |run| ==> run[k].info.config == config
    ensures Configured(run[i].log, config)
  {
    if i == 0 {
    } else {
      LogConfigured(run, i - 1, config);
      assert Next(run[i - 1], run[i - 1 + 1]);
      var a :| Enabled(run[i - 1], a) && run[i] == Apply(run[i - 1], a);
    }
  }

  /** While the configuration stays the same: a trial starts more than failTime after the trip before it,
      the breaker closes more than limitTime after the start of a trial, and what passes in between drew
      less than limitRate. */
  lemma TimesKept(run: seq<State>, config: Config, h: nat, j: nat)
    requires IsRun(run) && forall k :: 0 <= k < |run| ==> run[k].info.config == config
    requires var log := run[|run| - 1].log;
             h < j < |log| && log[h].HalfOpened? && (forall m :: h < m < j ==> log[m].Passed?)
    ensures var log := run[|run| - 1].log;
            && h > 0 && log[h - 1].Tripped? && log[h - 1].at + config.failTime < log[h].at
            && (log[j].Recovered? ==> log[h].at + config.limitTime < log[j].at)
            && (log[j].Passed? ==> log[j].draw < config.limitRate)
  {
    var s := run[|run| - 1];
    LogConfigured(run, |run| - 1, config);
    TrialFollowsTrip(s, h);
    if s.log[j].Recovered? {
      var from := RecoveryFollowsTrial(s, j);
      assert from == h;
    } else if s.log[j].Passed? {
      TrialAdmits(s, h, j);
    }
  }
}
