/** The timer goroutines of the session protocol: which of them end, and which are left for ever. */
module SessionTimers {
  import opened SessionProtocol
  import opened SessionInvariant
  import opened SessionProgress

  lemma ParkedStep(s: State, a: Action, t: ThreadId)
    requires Enabled(s, a) && t in s.threads && s.threads[t].pc.Park?
    requires s.threads[t].call in s.calls && s.calls[s.threads[t].call].session.timer.Stopped?
    ensures var s' := Apply(s, a);
            && t in s'.threads && s'.threads[t] == s.threads[t]
            && s.threads[t].call in s'.calls && s'.calls[s.threads[t].call].session.timer.Stopped?
  {
    if !a.Advance? {
      FrameOther(s, a);
    }
  }

  /** The timer goroutine of a call that was answered before its timer fired never ends. */
  lemma {:induction false} ParkedForever(run: seq<State>, i: nat, t: ThreadId)
    requires IsRun(run) && i < |run| && t in run[0].threads && run[0].threads[t].pc.Park?
    requires run[0].threads[t].call in run[0].calls
    requires run[0].calls[run[0].threads[t].call].session.timer.Stopped?
    ensures t in run[i].threads && run[i].threads[t] == run[0].threads[t]
    ensures run[i].threads[t].call in run[i].calls
    ensures run[i].calls[run[i].threads[t].call].session.timer.Stopped?
  {
    if i == 0 {
    } else {
      ParkedForever(run, i - 1, t);
      assert Next(run[i - 1], run[i - 1 + 1]);
      var a :| Enabled(run[i - 1], a) && run[i] == Apply(run[i - 1], a);
      ParkedStep(run[i - 1], a, t);
    }
  }

  predicate TimerOf(s: State, t: ThreadId) {
    t in s.threads && s.threads[t].kind.TimerGoroutine? && s.threads[t].call in s.calls
  }

  /** Waiting for the tick of a timer that has been stopped. */
  predicate Stranded(s: State, t: ThreadId)
    requires TimerOf(s, t)
  {
    s.threads[t].pc.Park? && s.calls[s.threads[t].call].session.timer.Stopped?
  }

  function HolderLeft(s: State, x: Session): nat {
    match x.lock
    case None => 0
    case Some(h) => if h in s.threads then Left(s.threads[h].pc) else 0
  }

  /** What lies ahead of a timer goroutine: its own steps, at the mutex those of its holder, and the
      caller's return. */
  function Ahead(s: State, t: ThreadId): nat
    requires TimerOf(s, t)
  {
    var th := s.threads[t];
    var k := s.calls[th.call];
    20 * Left(th.pc)
    + (if th.pc.Park? && k.session.timer.Running? then 1 else 0)
    + (if th.pc.Lock? then HolderLeft(s, k.session) else 0)
    + (if k.phase.Spawned? then 1 else 0)
  }

  /** The action that gets it on: the clock, itself, the holder of the mutex it wants, or its caller. */
  function Onward(s: State, t: ThreadId): Action
    requires TimerOf(s, t)
  {
    var th := s.threads[t];
    var k := s.calls[th.call];
    if th.pc.Park? then (if k.session.timer.Running? then Fire(th.call) else Wake(t))
    else
      var u := if th.pc.Lock? && k.session.lock.Some? then k.session.lock.value else t;
      if u in s.threads && s.threads[u].pc.Send? && k.phase.Spawned? then Return(th.call) else Advance(u)
  }

  /** Its own step, from the map delete to the unlock. */
  lemma OwnStep(s: State, t: ThreadId)
    requires TimerOf(s, t) && !s.threads[t].pc.Done? && !Stranded(s, t) && Onward(s, t) == Advance(t)
    requires CallInv(s, s.threads[t].call) && ThreadInv(s, t)
    ensures Enabled(s, Advance(t))
    ensures TimerOf(Step(s, t), t) && !Stranded(Step(s, t), t) && Ahead(Step(s, t), t) < Ahead(s, t)
  {
  }

  /** A step of the thread that holds the mutex it wants. */
  lemma HolderStep(s: State, t: ThreadId, u: ThreadId)
    requires TimerOf(s, t) && s.threads[t].pc.Lock? && u != t && Onward(s, t) == Advance(u)
    requires CallInv(s, s.threads[t].call) && ThreadInv(s, t) && u in s.threads && ThreadInv(s, u)
    ensures Enabled(s, Advance(u))
    ensures TimerOf(Step(s, u), t) && !Stranded(Step(s, u), t) && Ahead(Step(s, u), t) < Ahead(s, t)
  {
  }

  /** The tick, the waking, or the caller's return. */
  lemma OtherStep(s: State, t: ThreadId)
    requires TimerOf(s, t) && !s.threads[t].pc.Done? && !Stranded(s, t) && !Onward(s, t).Advance?
    requires CallInv(s, s.threads[t].call) && ThreadInv(s, t)
    ensures Enabled(s, Onward(s, t))
    ensures var s' := Apply(s, Onward(s, t)); TimerOf(s', t) && !Stranded(s', t) && Ahead(s', t) < Ahead(s, t)
  {
  }

  lemma OnwardStep(s: State, t: ThreadId)
    requires Inv(s) && TimerOf(s, t) && !s.threads[t].pc.Done? && !Stranded(s, t)
    ensures Enabled(s, Onward(s, t))
    ensures var s' := Apply(s, Onward(s, t)); TimerOf(s', t) && !Stranded(s', t) && Ahead(s', t) < Ahead(s, t)
  {
    var a, c := Onward(s, t), s.threads[t].call;
    assert CallInv(s, c) && ThreadInv(s, t);
    if a == Advance(t) {
      OwnStep(s, t);
    } else if a.Advance? {
      assert ThreadInv(s, s.calls[c].session.lock.value);
      HolderStep(s, t, a.t);
    } else {
      OtherStep(s, t);
    }
  }

  lemma BegunStays(s: State, a: Action, t: ThreadId)
    requires TimerOf(s, t) && a == Onward(s, t) && Enabled(s, a)
    ensures Apply(s, a).begun == s.begun
  {
  }

  ghost predicate Going(s: State, t: ThreadId) {
    Inv(s) && s.begun < SEQ_MODULUS && TimerOf(s, t) && !Stranded(s, t)
  }

  lemma GoesOn(s: State, t: ThreadId) returns (s': State)
    requires Going(s, t) && !s.threads[t].pc.Done?
    ensures Next(s, s') && Going(s', t) && Ahead(s', t) < Ahead(s, t)
  {
    var a := Onward(s, t);
    OnwardStep(s, t);
    BegunStays(s, a, t);
    StepKeeps(s, a);
    s' := Apply(s, a);
  }

  lemma {:induction false} CanEnd(s: State, t: ThreadId) returns (run: seq<State>)
    requires Going(s, t)
    ensures IsRun(run) && run[0] == s
    ensures t in run[|run| - 1].threads && run[|run| - 1].threads[t].pc.Done?
    decreases Ahead(s, t)
  {
    if s.threads[t].pc.Done? {
      run := [s];
    } else {
      var s' := GoesOn(s, t);
      var rest := CanEnd(s', t);
      Prepend(s, rest);
      run := [s] + rest;
      assert run[|run| - 1] == rest[|rest| - 1];
    }
  }

  lemma NeverEnds(s: State, t: ThreadId)
    requires TimerOf(s, t) && Stranded(s, t)
    ensures forall s' :: Leads(s, s') ==> !(t in s'.threads && s'.threads[t].pc.Done?)
  {
    forall s' | Leads(s, s')
      ensures !(t in s'.threads && s'.threads[t].pc.Done?)
    {
      var run :| IsRun(run) && run[0] == s && run[|run| - 1] == s';
      ParkedForever(run, |run| - 1, t);
    }
  }

  /** Exactly which timer goroutines can still end: all but those left waiting on a stopped timer. */
  lemma EndsIff(s: State, t: ThreadId)
    requires Reachable(s) && t in s.threads && s.threads[t].kind.TimerGoroutine?
    ensures TimerOf(s, t)
    ensures (exists s' :: Leads(s, s') && t in s'.threads && s'.threads[t].pc.Done?) <==> !Stranded(s, t)
  {
    ReachableInv(s);
    assert ThreadInv(s, t);
    if Stranded(s, t) {
      NeverEnds(s, t);
    } else {
      var run := CanEnd(s, t);
      assert Leads(s, run[|run| - 1]);
    }
  }
}
