/** Progress of the session protocol: which calls can complete, and the one kind that cannot. */
module SessionProgress {
  import opened Wrappers
  import opened SessionProtocol
  import opened SessionInvariant

  function PhaseRank(p: Phase): nat {
    match p
    case Numbered => 7
    case Counted => 6
    case Created => 5
    case Inserted => 4
    case Sent => 3
    case Spawned => 2
    case Waiting => 1
    case Received(_) => 0
    case Failed => 0
  }

  function PcRank(pc: Pc, open: bool): nat {
    match pc
    case Check => if open then 5 else 0
    case Send => 4
    case Close => 3
    case Nil => 2
    case Discount => 1
    case _ => 0
  }

  /** Steps still to be made on a session's behalf before it is closed and counted out. */
  function CloseRank(s: State, c: CallId): nat
    requires c in s.calls
  {
    var k := s.calls[c];
    var x := k.session;
    match x.lock
    case Some(t) => if t in s.threads then PcRank(s.threads[t].pc, x.open) else 0
    case None =>
      if !x.open then 0
      else if k.claimer.Some? then 6
      else match x.timer
        case Drained => 7
        case Fired => 8
        case Running => 9
        case Stopped => 0
  }

  function Rank(s: State, c: CallId): nat
    requires c in s.calls
  {
    PhaseRank(s.calls[c].phase) + CloseRank(s, c)
  }

  lemma RankStep(s: State, t: ThreadId, c: CallId)
    requires t in s.threads && s.threads[t].call in s.calls && CanAdvance(s, t) && c in s.calls
    requires ThreadInv(s, t) && CallInv(s, c)
    ensures c in Step(s, t).calls && Rank(Step(s, t), c) <= Rank(s, c)
    ensures s.calls[c].session.lock == Some(t) && CloseRank(s, c) > 0 ==> Rank(Step(s, t), c) < Rank(s, c)
    ensures s.threads[t].call == c && s.threads[t].pc.Lock? && s.calls[c].session.open ==>
              Rank(Step(s, t), c) < Rank(s, c)
    ensures s.threads[t].call == c && s.threads[t].pc.Delete? && s.calls[c].claimer.None?
            && s.calls[c].session.lock.None? && s.calls[c].session.open ==>
              Rank(Step(s, t), c) < Rank(s, c)
  {
  }

  lemma PhaseOther(s: State, a: Action, c: CallId)
    requires !a.Advance? && Enabled(s, a) && c in s.calls && !(a.EncodeFail? && a.c == c)
    ensures c in Apply(s, a).calls && PhaseRank(Apply(s, a).calls[c].phase) <= PhaseRank(s.calls[c].phase)
    ensures (a.CountIn? || a.Create? || a.Insert? || a.SendRequest? || a.Spawn? || a.Return?) && a.c == c ==>
              PhaseRank(Apply(s, a).calls[c].phase) < PhaseRank(s.calls[c].phase)
  {
  }

  lemma CloseTimer(s: State, a: Action, c: CallId)
    requires (a.Fire? && a.c == c) || (a.Wake? && a.t in s.threads && s.threads[a.t].call == c)
    requires Enabled(s, a) && c in s.calls && ChannelInv(s, c)
    ensures c in Apply(s, a).calls && CloseRank(Apply(s, a), c) <= CloseRank(s, c)
    ensures s.calls[c].session.lock.None? && s.calls[c].session.open && s.calls[c].claimer.None? ==>
              CloseRank(Apply(s, a), c) < CloseRank(s, c)
  {
  }

  lemma CloseOther(s: State, a: Action, c: CallId)
    requires !a.Advance? && Enabled(s, a) && c in s.calls && ChannelInv(s, c)
    ensures c in Apply(s, a).calls && CloseRank(Apply(s, a), c) <= CloseRank(s, c)
    ensures s.calls[c].session.lock.None? && s.calls[c].session.open && s.calls[c].claimer.None?
            && ((a.Fire? && a.c == c) || (a.Wake? && s.threads[a.t].call == c)) ==>
              CloseRank(Apply(s, a), c) < CloseRank(s, c)
  {
    if (a.Fire? && a.c == c) || (a.Wake? && s.threads[a.t].call == c) {
      CloseTimer(s, a, c);
    }
  }

  lemma RankOther(s: State, a: Action, c: CallId)
    requires !a.Advance? && Enabled(s, a) && c in s.calls && CallInv(s, c)
    requires !(a.EncodeFail? && a.c == c)
    ensures c in Apply(s, a).calls && Rank(Apply(s, a), c) <= Rank(s, c)
    ensures (a.CountIn? || a.Create? || a.Insert? || a.SendRequest? || a.Spawn? || a.Return?) && a.c == c ==>
              Rank(Apply(s, a), c) < Rank(s, c)
    ensures s.calls[c].session.lock.None? && s.calls[c].session.open && s.calls[c].claimer.None?
            && ((a.Fire? && a.c == c) || (a.Wake? && s.threads[a.t].call == c)) ==>
              Rank(Apply(s, a), c) < Rank(s, c)
  {
    PhaseOther(s, a, c);
    CloseOther(s, a, c);
  }

  /** No step of anybody undoes what has been done for a call, except its own failure to encode. */
  lemma RankNeverRises(s: State, a: Action, c: CallId)
    requires Inv(s) && Enabled(s, a) && c in s.calls && !(a.EncodeFail? && a.c == c)
    ensures c in Apply(s, a).calls && Rank(Apply(s, a), c) <= Rank(s, c)
  {
    assert CallInv(s, c);
    if a.Advance? {
      assert ThreadInv(s, a.t);
      RankStep(s, a.t, c);
    } else {
      RankOther(s, a, c);
    }
  }

  lemma {:induction false} Above(used: set<ThreadId>) returns (t: ThreadId)
    ensures forall u :: u in used ==> u < t
  {
    if used == {} {
      t := 0;
    } else {
      var u :| u in used;
      var r := Above(used - {u});
      t := if r > u then r else u + 1;
      forall w | w in used
        ensures w < t
      {
        if w != u { assert w in used - {u}; }
      }
    }
  }

  lemma HolderMoves(s: State, c: CallId)
    requires c in s.calls && CallInv(s, c) && s.calls[c].session.lock.Some? && Rank(s, c) > 0
    requires s.calls[c].phase.Waiting? || s.calls[c].phase.Received?
    requires var t := s.calls[c].session.lock.value; t in s.threads && ThreadInv(s, t)
    ensures var t := s.calls[c].session.lock.value;
            Enabled(s, Advance(t)) && c in Step(s, t).calls && Rank(Step(s, t), c) < Rank(s, c)
  {
    var t := s.calls[c].session.lock.value;
    assert s.threads[t].pc.Critical();
    RankStep(s, t, c);
  }

  lemma ClaimerMoves(s: State, c: CallId)
    requires c in s.calls && CallInv(s, c) && s.calls[c].session.lock.None? && s.calls[c].claimer.Some? && Rank(s, c) > 0
    requires s.calls[c].phase.Waiting? || s.calls[c].phase.Received?
    requires var t := s.calls[c].claimer.value; t in s.threads && ThreadInv(s, t)
    ensures var t := s.calls[c].claimer.value;
            Enabled(s, Advance(t)) && c in Step(s, t).calls && Rank(Step(s, t), c) < Rank(s, c)
  {
    var t := s.calls[c].claimer.value;
    assert s.calls[c].session.open && s.threads[t].pc.Lock?;
    RankStep(s, t, c);
  }

  /** Whose turn it is once the caller waits: the mutex holder's, the thread's that took the session out
      of the table, or the timer's. */
  function TurnOf(k: Call, c: CallId): Action
    requires k.session.lock.Some? || k.claimer.Some? || k.timerThread.Some?
  {
    match (k.session.lock, k.claimer)
    case (Some(h), _) => Advance(h)
    case (None, Some(t)) => Advance(t)
    case (None, None) =>
      match k.session.timer
      case Running => Fire(c)
      case Fired => Wake(k.timerThread.value)
      case _ => Advance(k.timerThread.value)
  }

  /** The action that brings call `c` closer: its caller's next one, and then whose turn it is. */
  predicate Helps(s: State, c: CallId, a: Action)
    requires c in s.calls
  {
    var k := s.calls[c];
    match k.phase
    case Numbered => a == CountIn(c)
    case Counted => a == Create(c)
    case Created => a == Insert(c)
    case Inserted => a.SendRequest? && a.c == c && a.pkg.seqNo == k.session.seqNo
    case Sent => a.Spawn? && a.c == c && a.t !in s.threads
    case Spawned => a == Return(c)
    case Failed => false
    case _ =>
      (k.session.lock.Some? || k.claimer.Some? || k.timerThread.Some?) && a == TurnOf(k, c)
  }

  lemma TimerMoves(s: State, c: CallId, a: Action)
    requires c in s.calls && CallInv(s, c) && s.calls[c].session.lock.None? && s.calls[c].claimer.None?
    requires s.calls[c].phase.Waiting? || s.calls[c].phase.Received?
    requires var t := s.calls[c].timerThread; t.Some? && t.value in s.threads && ThreadInv(s, t.value)
    requires Helps(s, c, a)
    ensures Enabled(s, a) && c in Apply(s, a).calls && Rank(Apply(s, a), c) < Rank(s, c)
  {
    if a.Advance? {
      assert s.threads[a.t].pc.Delete?;
      RankStep(s, a.t, c);
    } else {
      RankOther(s, a, c);
    }
  }

  lemma Destroyer(s: State, c: CallId, a: Action)
    requires Inv(s) && c in s.calls && (s.calls[c].phase.Waiting? || s.calls[c].phase.Received?) && Rank(s, c) > 0
    requires Helps(s, c, a)
    ensures Enabled(s, a) && c in Apply(s, a).calls && Rank(Apply(s, a), c) < Rank(s, c)
  {
    assert CallInv(s, c);
    var k := s.calls[c];
    if k.session.lock.Some? {
      assert ThreadInv(s, a.t);
      HolderMoves(s, c);
    } else if k.claimer.Some? {
      assert ThreadInv(s, a.t);
      ClaimerMoves(s, c);
    } else {
      assert ThreadInv(s, k.timerThread.value);
      TimerMoves(s, c, a);
    }
  }

  lemma CallerHelps(s: State, c: CallId, a: Action)
    requires Inv(s) && c in s.calls && !s.calls[c].phase.Waiting? && !s.calls[c].phase.Received? && Helps(s, c, a)
    ensures Enabled(s, a) && !a.Advance? && !a.Begin? && !a.EncodeFail?
    ensures c in Apply(s, a).calls && Rank(Apply(s, a), c) < Rank(s, c)
  {
    assert CallInv(s, c);
    RankOther(s, a, c);
  }

  /** The helpful action is enabled and brings the call strictly closer. */
  lemma HelpLowers(s: State, c: CallId, a: Action)
    requires Inv(s) && c in s.calls && Rank(s, c) > 0 && Helps(s, c, a)
    ensures Enabled(s, a) && !a.Begin? && !a.EncodeFail?
    ensures c in Apply(s, a).calls && Rank(Apply(s, a), c) < Rank(s, c)
  {
    if s.calls[c].phase.Waiting? || s.calls[c].phase.Received? {
      Destroyer(s, c, a);
    } else {
      CallerHelps(s, c, a);
    }
  }

  /** For every call whose encoding has not failed, until it is finished, some step is enabled
      that brings it strictly closer. */
  lemma ProgressEnabled(s: State, c: CallId) returns (a: Action)
    requires Inv(s) && c in s.calls && !s.calls[c].phase.Failed? && Rank(s, c) > 0
    ensures Helps(s, c, a) && Enabled(s, a) && !a.Begin? && !a.EncodeFail?
    ensures c in Apply(s, a).calls && Rank(Apply(s, a), c) < Rank(s, c)
  {
    assert CallInv(s, c);
    var k := s.calls[c];
    match k.phase {
      case Numbered => a := CountIn(c);
      case Counted => a := Create(c);
      case Created => a := Insert(c);
      case Inserted => a := SendRequest(c, Package(k.session.seqNo, 0, ""));
      case Sent =>
        var t := Above(s.threads.Keys);
        a := Spawn(c, t);
      case Spawned => a := Return(c);
      case Waiting => a := TurnOf(k, c);
      case Received(_) => a := TurnOf(k, c);
    }
    HelpLowers(s, c, a);
  }

  lemma StepSpares(s: State, t: ThreadId, c: CallId, a: Action)
    requires t in s.threads && s.threads[t].call in s.calls && CanAdvance(s, t) && c in s.calls
    requires ThreadInv(s, t) && CallInv(s, c) && Rank(s, c) > 0 && Helps(s, c, a)
    ensures c in Step(s, t).calls && (Rank(Step(s, t), c) < Rank(s, c) || Helps(Step(s, t), c, a))
  {
    RankStep(s, t, c);
  }

  /** The same action still helps; the start of the timer goroutine, under whatever name is free. */
  predicate StillHelps(s: State, c: CallId, a: Action)
    requires c in s.calls
  {
    if a.Spawn? then s.calls[c].phase.Sent? && a.c == c else Helps(s, c, a)
  }

  lemma TimerSpares(s: State, b: Action, c: CallId, a: Action)
    requires (b.Fire? && b.c == c) || (b.Wake? && b.t in s.threads && s.threads[b.t].call == c)
    requires Enabled(s, b) && c in s.calls && Helps(s, c, a)
    requires s.calls[c].session.lock.Some? || s.calls[c].claimer.Some?
    ensures c in Apply(s, b).calls && StillHelps(Apply(s, b), c, a)
  {
  }

  lemma SameSpares(s: State, s': State, c: CallId, a: Action)
    requires c in s.calls && Helps(s, c, a) && c in s'.calls && s'.calls[c] == s.calls[c]
    ensures StillHelps(s', c, a)
  {
  }

  predicate CallerMoves(b: Action, c: CallId) {
    (b.CountIn? || b.Create? || b.Insert? || b.SendRequest? || b.Spawn? || b.Return?) && b.c == c
  }

  lemma SubjectKinds(s: State, b: Action, c: CallId)
    requires !b.Advance? && Enabled(s, b) && c in s.calls && Subject(s, b) == Some(c)
    ensures CallerMoves(b, c) || (b.EncodeFail? && b.c == c) || (b.Fire? && b.c == c) || (b.Wake? && s.threads[b.t].call == c)
  {
  }

  lemma ClockSpares(s: State, b: Action, c: CallId, a: Action)
    requires (b.Fire? && b.c == c) || (b.Wake? && b.t in s.threads && s.threads[b.t].call == c)
    requires Enabled(s, b) && c in s.calls && CallInv(s, c) && Rank(s, c) > 0 && Helps(s, c, a)
    ensures c in Apply(s, b).calls && (Rank(Apply(s, b), c) < Rank(s, c) || StillHelps(Apply(s, b), c, a))
  {
    if s.calls[c].session.lock.Some? || s.calls[c].claimer.Some? {
      TimerSpares(s, b, c, a);
    } else {
      RankOther(s, b, c);
    }
  }

  lemma OtherSpares(s: State, b: Action, c: CallId, a: Action)
    requires !b.Advance? && Enabled(s, b) && c in s.calls && CallInv(s, c) && !(b.EncodeFail? && b.c == c)
    requires Rank(s, c) > 0 && Helps(s, c, a)
    ensures c in Apply(s, b).calls && (Rank(Apply(s, b), c) < Rank(s, c) || StillHelps(Apply(s, b), c, a))
  {
    if Subject(s, b) != Some(c) {
      FrameOther(s, b);
      SameSpares(s, Apply(s, b), c, a);
    } else {
      SubjectKinds(s, b, c);
      if CallerMoves(b, c) {
        RankOther(s, b, c);
      } else {
        ClockSpares(s, b, c, a);
      }
    }
  }

  lemma Spares(s: State, b: Action, c: CallId, a: Action)
    requires Enabled(s, b) && c in s.calls && CallInv(s, c) && !(b.EncodeFail? && b.c == c)
    requires b.Advance? ==> ThreadInv(s, b.t)
    requires Rank(s, c) > 0 && Helps(s, c, a)
    ensures c in Apply(s, b).calls && (Rank(Apply(s, b), c) < Rank(s, c) || StillHelps(Apply(s, b), c, a))
  {
    if b.Advance? {
      StepSpares(s, b.t, c, a);
    } else {
      OtherSpares(s, b, c, a);
    }
  }

  /** Nobody can take the helpful action away: after any step of anybody, except the call's own failure
      to encode, either the call is closer to its end or the same action still helps (for the start of
      the timer goroutine, under whatever name is free). So no fairness is needed beyond each goroutine
      being run eventually. */
  lemma HelpStays(s: State, b: Action, c: CallId, a: Action)
    requires Inv(s) && Enabled(s, b) && c in s.calls && !(b.EncodeFail? && b.c == c)
    requires Rank(s, c) > 0 && Helps(s, c, a)
    ensures c in Apply(s, b).calls && (Rank(Apply(s, b), c) < Rank(s, c) || StillHelps(Apply(s, b), c, a))
  {
    assert CallInv(s, c) && (b.Advance? ==> ThreadInv(s, b.t));
    Spares(s, b, c, a);
  }

  ghost predicate Leads(s: State, s': State) {
    exists run :: IsRun(run) && run[0] == s && run[|run| - 1] == s'
  }

  lemma Prepend(s: State, rest: seq<State>)
    requires IsRun(rest) && Next(s, rest[0])
    ensures IsRun([s] + rest)
  {
    var run := [s] + rest;
    forall i | 0 <= i < |run| - 1
      ensures Next(run[i], run[i + 1])
    {
      if i > 0 { assert Next(rest[i - 1], rest[i - 1 + 1]); }
    }
  }

  ghost predicate Open(s: State, c: CallId) {
    Inv(s) && s.begun < SEQ_MODULUS && c in s.calls && !s.calls[c].phase.Failed?
  }

  lemma NotFailed(s: State, a: Action, c: CallId)
    requires Enabled(s, a) && c in s.calls && !s.calls[c].phase.Failed? && !a.EncodeFail?
    ensures c in Apply(s, a).calls && !Apply(s, a).calls[c].phase.Failed?
    ensures !a.Begin? ==> Apply(s, a).begun == s.begun
  {
  }

  lemma ProgressStep(s: State, c: CallId) returns (s': State)
    requires Open(s, c) && Rank(s, c) > 0
    ensures Open(s', c) && Next(s, s') && Rank(s', c) < Rank(s, c)
  {
    var a := ProgressEnabled(s, c);
    NotFailed(s, a, c);
    StepKeeps(s, a);
    s' := Apply(s, a);
  }

  lemma RankZero(s: State, c: CallId)
    requires Inv(s) && c in s.calls && !s.calls[c].phase.Failed? && Rank(s, c) == 0
    ensures Finished(s.calls[c])
  {
    assert CallInv(s, c);
  }

  /** From every reachable state on, a call whose encoding has not failed can be brought to its end. */
  lemma {:induction false} CanFinish(s: State, c: CallId) returns (run: seq<State>)
    requires Open(s, c)
    ensures IsRun(run) && run[0] == s && c in run[|run| - 1].calls && Finished(run[|run| - 1].calls[c])
    decreases Rank(s, c)
  {
    if Rank(s, c) == 0 {
      RankZero(s, c);
      run := [s];
    } else {
      var s' := ProgressStep(s, c);
      var rest := CanFinish(s', c);
      Prepend(s, rest);
      run := [s] + rest;
      assert run[|run| - 1] == rest[|rest| - 1];
    }
  }

  lemma FailedStep(s: State, a: Action, c: CallId)
    requires Enabled(s, a) && c in s.calls && s.calls[c].phase.Failed?
    ensures c in Apply(s, a).calls && Apply(s, a).calls[c].phase.Failed?
    ensures Apply(s, a).calls[c].session.sent == s.calls[c].session.sent
  {
  }

  /** A caller whose encoding failed waits in its own send for ever: nobody holds its channel. */
  lemma {:induction false} FailedForever(run: seq<State>, i: nat, c: CallId)
    requires IsRun(run) && i < |run| && c in run[0].calls
    requires run[0].calls[c].phase.Failed? && run[0].calls[c].session.sent == []
    ensures c in run[i].calls && run[i].calls[c].phase.Failed? && run[i].calls[c].session.sent == []
  {
    if i == 0 {
    } else {
      FailedForever(run, i - 1, c);
      assert Next(run[i - 1], run[i - 1 + 1]);
      var a :| Enabled(run[i - 1], a) && run[i] == Apply(run[i - 1], a);
      FailedStep(run[i - 1], a, c);
    }
  }

  lemma NeverFinishes(s: State, c: CallId)
    requires c in s.calls && s.calls[c].phase.Failed? && s.calls[c].session.sent == []
    ensures forall s' :: Leads(s, s') ==> !(c in s'.calls && Finished(s'.calls[c]))
  {
    forall s' | Leads(s, s')
      ensures !(c in s'.calls && Finished(s'.calls[c]))
    {
      var run :| IsRun(run) && run[0] == s && run[|run| - 1] == s';
      FailedForever(run, |run| - 1, c);
    }
  }

  /** Exactly which calls can still complete: those whose encoding has not failed. */
  lemma CompletesIff(s: State, c: CallId)
    requires Reachable(s) && c in s.calls
    ensures (exists s' :: Leads(s, s') && c in s'.calls && Finished(s'.calls[c]))
            <==> !s.calls[c].phase.Failed?
  {
    ReachableInv(s);
    if s.calls[c].phase.Failed? {
      assert CallInv(s, c);
      NeverFinishes(s, c);
    } else {
      var run := CanFinish(s, c);
      assert Leads(s, run[|run| - 1]);
    }
  }

  /** Such a call also stays in its node's Active, with its channel open. */
  lemma FailedStaysCounted(s: State, c: CallId)
    requires Reachable(s) && c in s.calls && s.calls[c].phase.Failed?
    ensures s.calls[c].counted && s.calls[c].session.open
    ensures s.calls[c].session.node in s.active && s.active[s.calls[c].session.node] > 0
  {
    ReachableInv(s);
    assert CallInv(s, c);
    assert c in CountedOn(s.calls, s.calls[c].session.node);
  }
}
