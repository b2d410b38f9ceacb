/** Concrete runs that show the conditions of the session theorems are needed. */
module SessionScenarios {
  import opened Wrappers
  import opened SessionProtocol
  import opened SessionTimers
  import M = SessionManager

  lemma ReachStep(s: State, a: Action)
    requires Reachable(s) && Enabled(s, a) && Apply(s, a).begun < SEQ_MODULUS
    ensures Reachable(Apply(s, a))
  {
    var run :| IsRun(run) && run[0] == START && run[|run| - 1] == s;
    var run' := run + [Apply(s, a)];
    forall i | 0 <= i < |run'| - 1
      ensures Next(run'[i], run'[i + 1])
    {
      if i < |run| - 1 { assert Next(run[i], run[i + 1]); } else { assert run'[i] == s; }
    }
    assert run'[|run'| - 1] == Apply(s, a);
  }

  lemma Number(s: State, c: CallId, n: NodeId) returns (s': State)
    requires Reachable(s) && c !in s.calls && n in s.nodes && n in s.active && s.seqNo == s.begun < 10
    ensures Reachable(s')
    ensures s' == s.(seqNo := s.seqNo + 1, begun := s.begun + 1, active := s.active[n := s.active[n] + 1],
                     calls := s.calls[c := Call(Counted, NewSession(s.seqNo + 1, n), true, None, None)])
  {
    ReachStep(s, Begin(c, n));
    var s1 := Apply(s, Begin(c, n));
    ReachStep(s1, CountIn(c));
    s' := Apply(s1, CountIn(c));
    assert s'.calls == s.calls[c := s'.calls[c]];
  }

  /** A call numbers itself, is counted in and registers its session. */
  lemma Register(s: State, c: CallId, n: NodeId) returns (s': State)
    requires Reachable(s) && c !in s.calls && n in s.nodes && n in s.active && s.seqNo == s.begun < 10
    ensures Reachable(s')
    ensures s' == s.(seqNo := s.seqNo + 1, begun := s.begun + 1, active := s.active[n := s.active[n] + 1],
                     sessionMap := s.sessionMap[s.seqNo + 1 := c],
                     calls := s.calls[c := Call(Inserted, NewSession(s.seqNo + 1, n), true, None, None)])
  {
    var s1 := Number(s, c, n);
    ReachStep(s1, Create(c));
    var s2 := Apply(s1, Create(c));
    ReachStep(s2, Insert(c));
    s' := Apply(s2, Insert(c));
    assert s'.calls == s.calls[c := s'.calls[c]];
  }

  /** Its request goes out, the timer goroutine starts and the caller waits. */
  lemma Await(s: State, c: CallId, t: ThreadId) returns (s': State)
    requires Reachable(s) && c in s.calls && s.calls[c].phase.Inserted? && t !in s.threads && s.begun < 10
    ensures Reachable(s')
    ensures var k := s.calls[c];
            s' == s.(requests := s.requests + {Message(c, Package(k.session.seqNo, 0, ""))},
                     calls := s.calls[c := k.(phase := Waiting, timerThread := Some(t))],
                     threads := s.threads[t := Thread(c, TimerGoroutine, None, Park)])
  {
    var send := SendRequest(c, Package(s.calls[c].session.seqNo, 0, ""));
    ReachStep(s, send);
    var s1 := Apply(s, send);
    ReachStep(s1, Spawn(c, t));
    var s2 := Apply(s1, Spawn(c, t));
    ReachStep(s2, Return(c));
    s' := Apply(s2, Return(c));
    assert s'.calls == s.calls[c := s'.calls[c]];
  }

  lemma {:induction false} ReachAlone(s: State, t: ThreadId, n: nat)
    requires Reachable(s) && M.Uninterrupted(s, t, n).Some?
    ensures Reachable(M.Uninterrupted(s, t, n).value)
    decreases n
  {
    if n == 0 {
    } else {
      assert Apply(s, Advance(t)).begun == s.begun;
      ReachStep(s, Advance(t));
      ReachAlone(Apply(s, Advance(t)), t, n - 1);
    }
  }

  /** A handler delivers a reply to the waiting call registered under its number. */
  lemma Deliver(s: State, t: ThreadId, m: Message) returns (s': State)
    requires Reachable(s) && t !in s.threads && m in s.replies && m.pkg.seqNo != 0
    requires m.pkg.seqNo in s.sessionMap && s.sessionMap[m.pkg.seqNo] in s.calls
    requires var k := s.calls[s.sessionMap[m.pkg.seqNo]];
             k.phase.Waiting? && k.session.open && k.session.lock.None? && k.session.node in s.active
    ensures Reachable(s') && s'.headKept == s.headKept
    ensures var c := s.sessionMap[m.pkg.seqNo];
            && c in s'.calls && s'.calls[c].phase == Received(Some(m))
            && s'.calls[c].session == M.Destroyed(s.calls[c].session, Some(m))
    ensures forall u :: u in s.threads ==> u in s'.threads && s'.threads[u] == s.threads[u]
  {
    ReachStep(s, Handle(t, m));
    var s1 := Apply(s, Handle(t, m));
    M.UninterruptedDestroy(s1, t);
    var th := s1.threads[t];
    s' := M.Finish(s1, t, th, s1.calls[th.call]);
    var n :| M.Uninterrupted(s1, t, n) == Some(s');
    ReachAlone(s1, t, n);
  }

  /** Without the condition of NoCrossTalk a caller can receive the answer to another's request. */
  lemma ReplacedHeadCrossTalks()
    ensures exists s: State, c: CallId :: Reachable(s) && !s.headKept && c in s.calls
              && s.calls[c].phase.Received? && s.calls[c].phase.resp.Some?
              && s.calls[c].phase.resp.value.origin != c
  {
    assert IsRun([START]);
    var s0 := START;
    ReachStep(s0, Reload({0}));
    var s1 := Apply(s0, Reload({0}));
    var s2 := Register(s1, 0, 0);
    var s3 := Await(s2, 0, 0);
    var s4 := Register(s3, 1, 0);
    var s5 := Await(s4, 1, 1);
    var request, reply := Message(0, Package(1, 0, "")), Package(2, 0, "");
    ReachStep(s5, Serve(request, reply));
    var s6 := Apply(s5, Serve(request, reply));
    var s7 := Deliver(s6, 2, Message(0, reply));
    assert Reachable(s7) && 1 in s7.calls && s7.calls[1].phase == Received(Some(Message(0, reply)));
  }

  /** A call can fail to encode: the excluded case of CompletesIff does occur. */
  lemma EncodeFailureOccurs()
    ensures exists s: State, c: CallId :: Reachable(s) && c in s.calls && s.calls[c].phase.Failed?
  {
    assert IsRun([START]);
    ReachStep(START, Reload({0}));
    var s1 := Apply(START, Reload({0}));
    var s2 := Register(s1, 0, 0);
    ReachStep(s2, EncodeFail(0, 0));
    var s3 := Apply(s2, EncodeFail(0, 0));
    assert Reachable(s3) && 0 in s3.calls && s3.calls[0].phase.Failed?;
  }

  /** A call answered in time strands its timer goroutine: the excluded case of EndsIff does occur. */
  lemma StrandedOccurs()
    ensures exists s: State, t: ThreadId :: Reachable(s) && TimerOf(s, t) && Stranded(s, t)
  {
    assert IsRun([START]);
    ReachStep(START, Reload({0}));
    var s1 := Apply(START, Reload({0}));
    var s2 := Register(s1, 0, 0);
    var s3 := Await(s2, 0, 0);
    var request := Message(0, Package(1, 0, ""));
    ReachStep(s3, Serve(request, request.pkg));
    var s4 := Apply(s3, Serve(request, request.pkg));
    var s5 := Deliver(s4, 1, request);
    assert TimerOf(s5, 0) && Stranded(s5, 0);
  }
}
