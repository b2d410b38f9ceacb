/** When the failures can overtake the invocations: a concrete run, and the exact condition. */
module BreakerScenarios {
  import opened Wrappers
  import opened Breaker
  import opened BreakerThreads
  import opened BreakerTheorems

  lemma ReachStep(s: State, a: Action)
    requires Reachable(s) && Enabled(s, a)
    ensures Reachable(Apply(s, a))
  {
    var run :| IsRun(run) && run[|run| - 1] == s;
    var run' := run + [Apply(s, a)];
    forall i | 0 <= i < |run'| - 1
      ensures Next(run'[i], run'[i + 1])
    {
      if i < |run| - 1 { assert Next(run[i], run[i + 1]); } else { assert run'[i] == s; }
    }
    assert run'[|run'| - 1] == Apply(s, a);
  }

  function At(s: State, t: Tid, now: int, pc: Pc): State {
    s.(lock := if pc.Locked() then Some(t) else None, threads := s.threads[t := Thread(now, pc, None, None, 0.0)])
  }

  /** The steps of a call through a closed, fresh breaker up to the window test. */
  predicate Follows(pc: Pc, next: Pc) {
    || (pc.Arrived? && next.HalfTest?) || (pc.HalfTest? && next.Gate?) || (pc.Gate? && next.ReadFails?)
    || (pc.ReadFails? && next == ReadInvokes(0)) || (pc == ReadInvokes(0) && next == TripTest(0, 1))
    || (pc == TripTest(0, 1) && next.RecoverTest?) || (pc.RecoverTest? && next.ResetTest?)
  }

  lemma NothingElse(t: Tid, th: Thread, next: Pc)
    requires Follows(th.pc, next)
    ensures var i := NewInfo(0, DEFAULTS);
            NextPc(i, th, 0.0, false) == next && NextInfo(i, th) == i && Emits(i, t, th) == []
  {
  }

  lemma Move(s: State, t: Tid, now: int, pc: Pc, next: Pc)
    requires Reachable(At(s, t, now, pc)) && s.info == NewInfo(0, DEFAULTS) && Follows(pc, next)
    ensures Reachable(At(s, t, now, next))
  {
    var s0, s1, th := At(s, t, now, pc), At(s, t, now, next), Thread(now, pc, None, None, 0.0);
    var a := Advance(t, 0.0, false);
    assert s0.threads[t] == th;
    NothingElse(t, th, next);
    ReachStep(s0, a);
    assert s0.threads[t := s1.threads[t]] == s1.threads;
    assert Apply(s0, a) == s1;
  }

  /** A call arrives and goes through the lock as far as the window test. */
  lemma Enter(s: State, t: Tid, now: int)
    requires Reachable(s) && s.lock.None? && t !in s.threads && s.info == NewInfo(0, DEFAULTS)
    ensures Reachable(At(s, t, now, ResetTest))
  {
    ReachStep(s, Arrive(t, now));
    assert Apply(s, Arrive(t, now)) == At(s, t, now, Arrived);
    Move(s, t, now, Arrived, HalfTest);
    Move(s, t, now, HalfTest, Gate);
    Move(s, t, now, Gate, ReadFails);
    Move(s, t, now, ReadFails, ReadInvokes(0));
    Move(s, t, now, ReadInvokes(0), TripTest(0, 1));
    Move(s, t, now, TripTest(0, 1), RecoverTest);
    Move(s, t, now, RecoverTest, ResetTest);
  }

  /** The failures have caught up with the invocations, outside a recovery, with one call exposed. */
  ghost predicate Overtaken(s: State) {
    Reachable(s) && !s.Recovering() && |s.exposed| == 1 && s.info.failCount >= s.info.invokeCount
  }

  /** Thread 1 is counted in the middle of thread 0's reset, runs and fails. */
  lemma CountAndFail(s: State) returns (s': State)
    requires Reachable(s) && s.info.failCount == 0 && 0 in s.threads && 1 in s.threads && s.exposed == {}
    requires s.threads[0].pc.ResetInvoke? && s.threads[1].pc.Admitted? && s.lock == Some(0)
    ensures Reachable(s') && s'.info.failCount == 1 && s'.lock == Some(0) && s'.exposed == {1}
    ensures 0 in s'.threads && s'.threads[0] == s.threads[0]
  {
    var go := Advance(1, 0.0, false);
    ReachStep(s, go);
    var s1 := Apply(s, go);
    assert s1.exposed == {1};
    ReachStep(s1, go);
    var s2 := Apply(s1, go);
    ReachStep(s2, go);
    s' := Apply(s2, go);
  }

  lemma FailDuringReset(s: State) returns (s': State)
    requires Reachable(s) && s.info.failCount == 0 && 0 in s.threads && 1 in s.threads && s.exposed == {}
    requires s.threads[0].pc.ResetInvoke? && s.threads[1].pc.Admitted? && s.lock == Some(0)
    ensures Overtaken(s')
  {
    var s1 := CountAndFail(s);
    var resetter := Advance(0, 0.0, false);
    ReachStep(s1, resetter);
    s' := Apply(s1, resetter);
    assert s'.threads[0].pc.Leave?;
  }

  lemma ResetAround(s: State) returns (s': State)
    requires Reachable(s) && s.info == NewInfo(0, DEFAULTS) && s.lock == Some(0)
    requires s.threads == map[1 := Thread(0, Admitted, None, None, 0.0), 0 := Thread(60001, ResetTest, None, None, 0.0)]
    ensures Overtaken(s')
  {
    var resetter := Advance(0, 0.0, false);
    ReachStep(s, resetter);
    var s1 := Apply(s, resetter);
    ReachStep(s1, resetter);
    var s2 := Apply(s1, resetter);
    assert s2.threads[0] == Thread(60001, ResetInvoke, None, None, 0.0) && s2.threads[1] == s.threads[1];
    assert s1.InFlight() == {};
    s' := FailDuringReset(s2);
  }

  /** A call admitted before a window reset, counted and failed between the reset's two writes, is
      forgotten as an invocation and remembered as a failure, although no call was in flight when the
      reset began: one exposed call is enough. */
  lemma FailuresCanOvertake() returns (s: State)
    ensures Overtaken(s)
  {
    var s0 := State(NewInfo(0, DEFAULTS), None, map[], 0, 0, {}, []);
    assert Start(s0) && IsRun([s0]);
    Enter(s0, 1, 0);
    var go := Advance(1, 0.0, false);
    var s1 := At(s0, 1, 0, ResetTest);
    ReachStep(s1, go);
    var s2 := Apply(s1, go);
    ReachStep(s2, go);
    var s3 := Apply(s2, go);
    assert s3.lock.None? && s3.threads == map[1 := Thread(0, Admitted, None, None, 0.0)];
    Enter(s3, 0, 60001);
    s := ResetAround(At(s3, 0, 60001, ResetTest));
  }

  ghost predicate NeverOvertaken(k: nat) {
    forall s :: Reachable(s) && !s.Recovering() && |s.exposed| <= k ==> s.info.failCount < s.info.invokeCount
  }

  /** Overlapping calls do no harm as such. What matters is how many of them a counter reset exposes:
      those in flight when failCount was last reset or counted before invokeCount followed. With none
      the failures stay below the invocations, and with any number above that they need not. */
  lemma NeverOvertakenIff(k: nat)
    ensures NeverOvertaken(k) <==> k == 0
  {
    if k == 0 {
      forall s | Reachable(s) && !s.Recovering() && |s.exposed| <= k
        ensures s.info.failCount < s.info.invokeCount
      {
        FailureAccounting(s);
      }
    } else {
      var s := FailuresCanOvertake();
    }
  }
}
