/** The joint inductive invariant of the session protocol and its preservation, step by step. */
module SessionInvariant {
  import opened Wrappers
  import opened Sets
  import opened SessionProtocol

  predicate Fresh(k: Call) {
    k.session.sent == [] && k.session.open && !k.session.closed && (k.counted <==> !k.phase.Numbered?)
  }

  /** The channel carried one value, was closed after it and dropped, and the call is counted out. */
  predicate Finished(k: Call) {
    |k.session.sent| == 1 && !k.session.open && k.session.closed && !k.counted
  }

  /** What the holder of the session mutex at `pc` has done so far. */
  predicate Stage(pc: Pc, k: Call, resp: Option<Message>) {
    var x := k.session;
    match pc
    case Check => Fresh(k) || Finished(k)
    case Send => Fresh(k)
    case Close => x.sent == [resp] && x.open && !x.closed && k.counted
    case Nil => x.sent == [resp] && x.open && x.closed && k.counted
    case Discount => x.sent == [resp] && !x.open && x.closed && k.counted
    case Stop => Finished(k)
    case Unlock => Finished(k)
    case _ => false
  }

  predicate ChannelInv(s: State, c: CallId)
    requires c in s.calls
  {
    var k := s.calls[c];
    var x := k.session;
    && (x.lock.None? ==> Fresh(k) || Finished(k))
    && (x.lock.Some? ==>
          var t := x.lock.value;
          t in s.threads && s.threads[t].call == c && Stage(s.threads[t].pc, k, s.threads[t].resp))
    && (k.phase.Received? <==> x.sent != [])
    && (k.phase.Received? ==> x.sent == [k.phase.resp])
    && (k.phase.Received? && k.phase.resp.Some? ==>
          k.phase.resp.value in s.replies && k.phase.resp.value.pkg.seqNo == x.seqNo)
  }

  predicate ClaimInv(s: State, c: CallId)
    requires c in s.calls
  {
    var k := s.calls[c];
    var x := k.session;
    && 0 < x.seqNo <= s.seqNo
    && x.node in s.active
    && (x.seqNo in s.sessionMap <==> !k.phase.Early() && k.claimer.None?)
    && (x.seqNo in s.sessionMap ==> s.sessionMap[x.seqNo] == c)
    && (k.phase.Early() ==> k.claimer.None? && x.lock.None?)
    && (k.phase.Received? ==> k.claimer.Some?)
    && (k.claimer.Some? ==>
          var t := k.claimer.value;
          t in s.threads && s.threads[t].call == c && s.threads[t].pc.Past())
  }

  predicate TimerInv(s: State, c: CallId)
    requires c in s.calls
  {
    var k := s.calls[c];
    var x := k.session;
    && (k.phase.Timed() <==> k.timerThread.Some?)
    && (k.timerThread.Some? ==>
          var t := k.timerThread.value;
          && t in s.threads && s.threads[t].call == c && s.threads[t].kind.TimerGoroutine?
          && (s.threads[t].pc.Park? <==> !x.timer.Drained?))
    && (k.timerThread.None? ==> x.timer.Running? || x.timer.Fired?)
    && (x.timer.Stopped? ==> Finished(k))
    && (x.sent == [None] ==> x.timer.Drained?)
  }

  predicate CallInv(s: State, c: CallId)
    requires c in s.calls
  {
    ChannelInv(s, c) && ClaimInv(s, c) && TimerInv(s, c)
  }

  predicate ThreadOk(t: ThreadId, th: Thread, k: Call, replies: set<Message>) {
    && !k.phase.Early()
    && (th.pc.Critical() <==> k.session.lock == Some(t))
    && (th.pc.Past() ==> k.claimer.Some?)
    && (th.kind.Handler? <==> th.resp.Some?)
    && (th.resp.Some? ==> th.resp.value in replies && th.resp.value.pkg.seqNo == k.session.seqNo)
    && (th.pc.Done? ==> Finished(k))
    && (th.kind.Caller? ==> k.phase.Failed?)
    && (th.kind.TimerGoroutine? ==> k.timerThread == Some(t))
    && (th.pc.Park? ==> th.kind.TimerGoroutine?)
  }

  predicate ThreadInv(s: State, t: ThreadId)
    requires t in s.threads
  {
    s.threads[t].call in s.calls && ThreadOk(t, s.threads[t], s.calls[s.threads[t].call], s.replies)
  }

  predicate DistinctSeqs(s: State) {
    forall c, d :: c in s.calls && d in s.calls && c != d ==> s.calls[c].session.seqNo != s.calls[d].session.seqNo
  }

  predicate MapInv(s: State) {
    forall q :: q in s.sessionMap ==> s.sessionMap[q] in s.calls && s.calls[s.sessionMap[q]].session.seqNo == q
  }

  predicate NetInv(s: State) {
    && (forall m :: m in s.requests ==> m.origin in s.calls && m.pkg.seqNo == s.calls[m.origin].session.seqNo)
    && (forall m :: m in s.replies ==> m.origin in s.calls)
    && (s.headKept ==> forall m :: m in s.replies ==>
          m.origin in s.calls && m.pkg.seqNo == s.calls[m.origin].session.seqNo)
  }

  /** The calls counted in on node `n` and not yet counted out. */
  function CountedOn(calls: map<CallId, Call>, n: NodeId): set<CallId> {
    set c | c in calls && calls[c].counted && calls[c].session.node == n
  }

  predicate LoadInv(s: State) {
    forall n :: n in s.active ==> s.active[n] == |CountedOn(s.calls, n)|
  }

  predicate Inv(s: State) {
    && s.seqNo == s.begun
    && s.nodes <= s.active.Keys
    && (forall c :: c in s.calls ==> CallInv(s, c))
    && (forall t :: t in s.threads ==> ThreadInv(s, t))
    && DistinctSeqs(s) && MapInv(s) && NetInv(s) && LoadInv(s)
  }

  // ---- One step of DestorySessionAndRespPkg, one clause and one session or thread at a time ----

  lemma StageStep(t: ThreadId, th: Thread, k: Call)
    requires Stage(th.pc, k, th.resp) && !th.pc.Unlock? && !k.phase.Early()
    ensures Stage(NextPc(th.pc, k.session.open), Touch(t, th, k), th.resp)
  {
  }

  lemma ChannelStep(s: State, t: ThreadId, c: CallId)
    requires t in s.threads && s.threads[t].call in s.calls && CanAdvance(s, t)
    requires ThreadInv(s, t) && c in s.calls && ChannelInv(s, c)
    ensures c in Step(s, t).calls && ChannelInv(Step(s, t), c)
  {
    var th, k, s' := s.threads[t], s.calls[c], Step(s, t);
    if c != th.call {
      assert s'.calls[c] == k;
    } else if th.pc.Critical() && !th.pc.Unlock? {
      StageStep(t, th, k);
    } else {
      assert k.session.sent == s'.calls[c].session.sent;
    }
  }

  lemma ClaimStep(s: State, t: ThreadId, c: CallId)
    requires t in s.threads && s.threads[t].call in s.calls && CanAdvance(s, t)
    requires ThreadInv(s, t) && c in s.calls && ClaimInv(s, c) && DistinctSeqs(s)
    ensures c in Step(s, t).calls && ClaimInv(Step(s, t), c)
  {
  }

  lemma TouchTimer(t: ThreadId, th: Thread, k: Call)
    requires th.pc.Critical() ==> Stage(th.pc, k, th.resp)
    requires k.session.timer.Stopped? ==> Finished(k)
    requires th.pc.Send? ==> k.phase.Waiting? && (th.resp.None? ==> k.session.timer.Drained?)
    requires k.session.sent == [None] ==> k.session.timer.Drained?
    ensures var k' := Touch(t, th, k);
            && k'.timerThread == k.timerThread && (k'.phase.Timed() <==> k.phase.Timed())
            && (k'.session.timer.Drained? <==> k.session.timer.Drained?)
            && (k'.session.timer.Stopped? ==> Finished(k'))
            && (k'.session.timer == k.session.timer || k'.session.timer.Stopped?)
            && (k'.session.sent == [None] ==> k'.session.timer.Drained?)
  {
    if th.pc.Send? {
      assert k.session.Deliver(th.resp).sent[0] == th.resp;
    }
  }

  /** A step changes only its own call, and of the threads only its own program counter. */
  lemma StepThreads(s: State, t: ThreadId)
    requires t in s.threads && s.threads[t].call in s.calls && CanAdvance(s, t)
    ensures var s', c := Step(s, t), s.threads[t].call;
            && s'.calls == s.calls[c := Touch(t, s.threads[t], s.calls[c])]
            && (forall u :: u in s.threads ==>
                  u in s'.threads && s'.threads[u].call == s.threads[u].call && s'.threads[u].kind == s.threads[u].kind
                  && (s'.threads[u].pc.Park? <==> s.threads[u].pc.Park?))
  {
  }

  lemma TimerStep(s: State, t: ThreadId, c: CallId)
    requires t in s.threads && s.threads[t].call in s.calls && CanAdvance(s, t)
    requires ThreadInv(s, t) && c in s.calls && ChannelInv(s, c) && TimerInv(s, c)
    ensures c in Step(s, t).calls && TimerInv(Step(s, t), c)
  {
    var th, k := s.threads[t], s.calls[c];
    StepThreads(s, t);
    if c == th.call {
      TouchTimer(t, th, k);
    }
  }

  /** A thread of the same session does not notice the step of another. */
  lemma TouchOther(t: ThreadId, th: Thread, k: Call, u: ThreadId, uth: Thread, replies: set<Message>)
    requires t != u && ThreadOk(t, th, k, replies) && ThreadOk(u, uth, k, replies)
    requires th.pc.Critical() ==> Stage(th.pc, k, th.resp)
    requires (th.pc.Lock? ==> k.session.lock.None?) && (th.pc.Send? ==> k.phase.Waiting?)
    ensures ThreadOk(u, uth, Touch(t, th, k), replies)
  {
  }

  lemma TouchSelf(t: ThreadId, th: Thread, k: Call, replies: set<Message>)
    requires ThreadOk(t, th, k, replies) && !th.pc.Park? && !th.pc.Done?
    requires th.pc.Critical() ==> Stage(th.pc, k, th.resp)
    requires (th.pc.Lock? ==> k.session.lock.None?) && (th.pc.Send? ==> k.phase.Waiting?)
    ensures ThreadOk(t, th.(pc := NextPc(th.pc, k.session.open)), Touch(t, th, k), replies)
  {
  }

  lemma ThreadStep(s: State, t: ThreadId, u: ThreadId)
    requires t in s.threads && s.threads[t].call in s.calls && CanAdvance(s, t)
    requires ThreadInv(s, t) && u in s.threads && ThreadInv(s, u)
    requires ChannelInv(s, s.threads[t].call)
    ensures u in Step(s, t).threads && ThreadInv(Step(s, t), u)
  {
    var th, k := s.threads[t], s.calls[s.threads[t].call];
    if u == t {
      TouchSelf(t, th, k, s.replies);
    } else if s.threads[u].call == th.call {
      TouchOther(t, th, k, u, s.threads[u], s.replies);
    }
  }

  lemma TablesStep(s: State, t: ThreadId)
    requires t in s.threads && s.threads[t].call in s.calls && CanAdvance(s, t)
    requires DistinctSeqs(s) && MapInv(s) && NetInv(s)
    ensures DistinctSeqs(Step(s, t)) && MapInv(Step(s, t)) && NetInv(Step(s, t))
  {
    var s' := Step(s, t);
    assert s'.calls.Keys == s.calls.Keys;
    assert forall c :: c in s.calls ==> s'.calls[c].session.seqNo == s.calls[c].session.seqNo;
  }

  // ---- The other steps ----

  /** What an action leaves alone: the other calls, every thread but the one woken, what was sent. */
  lemma FrameOther(s: State, a: Action)
    requires !a.Advance? && Enabled(s, a)
    ensures s.active.Keys <= Apply(s, a).active.Keys && s.replies <= Apply(s, a).replies
    ensures forall c :: c in s.calls && Subject(s, a) != Some(c) ==>
              c in Apply(s, a).calls && Apply(s, a).calls[c] == s.calls[c]
    ensures forall t :: t in s.threads ==>
              t in Apply(s, a).threads
              && (Apply(s, a).threads[t] == s.threads[t]
                  || (Subject(s, a) == Some(s.threads[t].call) && a == Wake(t)
                      && Apply(s, a).threads[t] == s.threads[t].(pc := Delete)))
    ensures !a.Insert? ==> Apply(s, a).sessionMap == s.sessionMap
    ensures !a.Begin? ==> Apply(s, a).seqNo == s.seqNo
  {
  }

  lemma ChannelSubject(s: State, a: Action, c: CallId)
    requires !a.Advance? && Enabled(s, a) && Subject(s, a) == Some(c) && c in s.calls && ChannelInv(s, c)
    ensures c in Apply(s, a).calls && ChannelInv(Apply(s, a), c)
  {
  }

  lemma ChannelOther(s: State, a: Action, c: CallId)
    requires !a.Advance? && Enabled(s, a) && c in s.calls && ChannelInv(s, c)
    ensures c in Apply(s, a).calls && ChannelInv(Apply(s, a), c)
  {
    if Subject(s, a) == Some(c) {
      ChannelSubject(s, a, c);
    } else {
      FrameOther(s, a);
    }
  }

  lemma ClaimSubject(s: State, a: Action, c: CallId)
    requires !a.Advance? && Enabled(s, a) && Subject(s, a) == Some(c) && c in s.calls && ClaimInv(s, c) && DistinctSeqs(s)
    requires s.seqNo == s.begun && Apply(s, a).begun < SEQ_MODULUS
    ensures c in Apply(s, a).calls && ClaimInv(Apply(s, a), c)
  {
  }

  lemma ClaimOther(s: State, a: Action, c: CallId)
    requires !a.Advance? && Enabled(s, a) && c in s.calls && ClaimInv(s, c) && DistinctSeqs(s)
    requires s.seqNo == s.begun && Apply(s, a).begun < SEQ_MODULUS
    ensures c in Apply(s, a).calls && ClaimInv(Apply(s, a), c)
  {
    if Subject(s, a) == Some(c) {
      ClaimSubject(s, a, c);
    } else {
      FrameOther(s, a);
    }
  }

  lemma TimerSubject(s: State, a: Action, c: CallId)
    requires !a.Advance? && Enabled(s, a) && Subject(s, a) == Some(c) && c in s.calls && ChannelInv(s, c) && TimerInv(s, c)
    requires a.Wake? ==> ThreadInv(s, a.t)
    ensures c in Apply(s, a).calls && TimerInv(Apply(s, a), c)
  {
  }

  lemma TimerOther(s: State, a: Action, c: CallId)
    requires !a.Advance? && Enabled(s, a) && c in s.calls && ChannelInv(s, c) && TimerInv(s, c)
    requires a.Wake? ==> ThreadInv(s, a.t)
    ensures c in Apply(s, a).calls && TimerInv(Apply(s, a), c)
  {
    if Subject(s, a) == Some(c) {
      TimerSubject(s, a, c);
    } else {
      FrameOther(s, a);
    }
  }

  lemma ThreadSubject(s: State, a: Action, t: ThreadId)
    requires !a.Advance? && Enabled(s, a) && t in s.threads && ThreadInv(s, t)
    requires Subject(s, a) == Some(s.threads[t].call)
    requires a.Spawn? ==> s.calls[a.c].timerThread.None?
    ensures t in Apply(s, a).threads && ThreadInv(Apply(s, a), t)
  {
  }

  lemma ThreadOther(s: State, a: Action, t: ThreadId)
    requires !a.Advance? && Enabled(s, a) && t in s.threads && ThreadInv(s, t)
    requires a.Spawn? && a.c == s.threads[t].call ==> s.calls[a.c].timerThread.None?
    ensures t in Apply(s, a).threads && ThreadInv(Apply(s, a), t)
  {
    if Subject(s, a) == Some(s.threads[t].call) {
      ThreadSubject(s, a, t);
    } else {
      FrameOther(s, a);
    }
  }

  lemma NewNumber(s: State, a: Action)
    requires a.Begin? && Enabled(s, a) && s.seqNo == s.begun < SEQ_MODULUS - 1
    requires s.nodes <= s.active.Keys && DistinctSeqs(s) && MapInv(s)
    requires forall c :: c in s.calls ==> s.calls[c].session.seqNo <= s.seqNo
    ensures CallInv(Apply(s, a), a.c) && DistinctSeqs(Apply(s, a)) && MapInv(Apply(s, a))
  {
    assert forall q :: q in s.sessionMap ==> q <= s.seqNo;
  }

  /** A call that has just taken its number is in no table yet. */
  lemma NewCall(s: State, a: Action)
    requires Inv(s) && a.Begin? && Enabled(s, a) && Apply(s, a).begun < SEQ_MODULUS
    ensures CallInv(Apply(s, a), a.c) && DistinctSeqs(Apply(s, a)) && MapInv(Apply(s, a))
  {
    forall c | c in s.calls
      ensures s.calls[c].session.seqNo <= s.seqNo
    {
      assert ClaimInv(s, c);
    }
    NewNumber(s, a);
  }

  /** A thread that has just been started is outside the session mutex. */
  lemma NewThread(s: State, a: Action, t: ThreadId)
    requires !a.Advance? && Enabled(s, a) && t !in s.threads && t in Apply(s, a).threads
    requires MapInv(s)
    requires a.Handle? && a.m.pkg.seqNo in s.sessionMap ==> !s.calls[s.sessionMap[a.m.pkg.seqNo]].phase.Early()
    requires forall c :: c in s.calls ==> s.calls[c].session.lock != Some(t)
    ensures ThreadInv(Apply(s, a), t)
  {
  }

  lemma NumberKept(s: State, a: Action, c: CallId)
    requires !a.Advance? && !a.Begin? && Enabled(s, a)
    ensures c in Apply(s, a).calls <==> c in s.calls
    ensures c in s.calls ==> Apply(s, a).calls[c].session.seqNo == s.calls[c].session.seqNo
  {
  }

  lemma TablesOther(s: State, a: Action)
    requires !a.Advance? && !a.Begin? && Enabled(s, a) && DistinctSeqs(s) && MapInv(s)
    ensures DistinctSeqs(Apply(s, a)) && MapInv(Apply(s, a))
  {
    forall c: CallId
      ensures c in Apply(s, a).calls <==> c in s.calls
      ensures c in s.calls ==> Apply(s, a).calls[c].session.seqNo == s.calls[c].session.seqNo
    {
      NumberKept(s, a, c);
    }
    FrameOther(s, a);
  }

  lemma NetOther(s: State, a: Action)
    requires !a.Advance? && Enabled(s, a) && NetInv(s)
    ensures NetInv(Apply(s, a))
  {
  }

  // ---- Load accounting ----

  lemma CountOne(m: map<CallId, Call>, m': map<CallId, Call>, n: NodeId, c: CallId)
    requires c in m' && m' == m[c := m'[c]]
    ensures |CountedOn(m', n)|
            == |CountedOn(m, n)| - (if c in CountedOn(m, n) then 1 else 0) + (if c in CountedOn(m', n) then 1 else 0)
  {
    var x, x' := CountedOn(m, n), CountedOn(m', n);
    forall d
      ensures d in x - {c} <==> d in x' - {c}
    {
      if d in m && d != c { assert m'[d] == m[d]; }
    }
    SizeAfter(x, x', c);
  }

  lemma LoadStep(s: State, t: ThreadId)
    requires t in s.threads && s.threads[t].call in s.calls && CanAdvance(s, t)
    requires LoadInv(s) && ThreadInv(s, t) && ChannelInv(s, s.threads[t].call)
    ensures LoadInv(Step(s, t))
  {
    var th := s.threads[t];
    var k := s.calls[th.call];
    forall n | n in s.active
      ensures Step(s, t).active[n] == |CountedOn(Step(s, t).calls, n)|
    {
      CountOne(s.calls, Step(s, t).calls, n, th.call);
    }
  }

  lemma LoadOther(s: State, a: Action, n: NodeId)
    requires !a.Advance? && !a.Reload? && Enabled(s, a)
    requires Subject(s, a).Some? && Subject(s, a).value in s.calls ==> CallInv(s, Subject(s, a).value)
    requires n in s.active && s.active[n] == |CountedOn(s.calls, n)|
    ensures n in Apply(s, a).active && Apply(s, a).active[n] == |CountedOn(Apply(s, a).calls, n)|
  {
    match Subject(s, a)
    case None => assert Apply(s, a).calls == s.calls;
    case Some(c) => CountOne(s.calls, Apply(s, a).calls, n, c);
  }

  lemma LoadReload(s: State, a: Action)
    requires Inv(s) && a.Reload? && Enabled(s, a)
    ensures LoadInv(Apply(s, a))
  {
    forall n | n in a.ns
      ensures CountedOn(s.calls, n) == {}
    {
      forall c | c in s.calls
        ensures s.calls[c].session.node != n
      {
        assert CallInv(s, c);
      }
    }
  }

  // ---- Assembly ----

  lemma AdvanceCalls(s: State, a: Action, c: CallId)
    requires Inv(s) && a.Advance? && Enabled(s, a) && c in Apply(s, a).calls
    ensures CallInv(Apply(s, a), c)
  {
    assert c in s.calls;
    assert ThreadInv(s, a.t);
    assert CallInv(s, c);
    ChannelStep(s, a.t, c);
    ClaimStep(s, a.t, c);
    TimerStep(s, a.t, c);
  }

  lemma AdvanceThreads(s: State, a: Action, u: ThreadId)
    requires Inv(s) && a.Advance? && Enabled(s, a) && u in Apply(s, a).threads
    ensures ThreadInv(Apply(s, a), u)
  {
    assert u in s.threads;
    assert ThreadInv(s, a.t) && ThreadInv(s, u);
    assert CallInv(s, s.threads[a.t].call);
    ThreadStep(s, a.t, u);
  }

  lemma AdvanceTables(s: State, a: Action)
    requires Inv(s) && a.Advance? && Enabled(s, a)
    ensures var s' := Apply(s, a); DistinctSeqs(s') && MapInv(s') && NetInv(s') && LoadInv(s')
  {
    assert ThreadInv(s, a.t) && CallInv(s, s.threads[a.t].call);
    TablesStep(s, a.t);
    LoadStep(s, a.t);
  }

  lemma OtherCalls(s: State, a: Action, c: CallId)
    requires Inv(s) && !a.Advance? && Enabled(s, a) && Apply(s, a).begun < SEQ_MODULUS && c in Apply(s, a).calls
    ensures CallInv(Apply(s, a), c)
  {
    if a.Begin? && a.c == c {
      NewCall(s, a);
    } else {
      assert CallInv(s, c);
      if a.Wake? { assert ThreadInv(s, a.t); }
      ChannelOther(s, a, c);
      ClaimOther(s, a, c);
      TimerOther(s, a, c);
    }
  }

  lemma OtherThreads(s: State, a: Action, t: ThreadId)
    requires Inv(s) && !a.Advance? && Enabled(s, a) && t in Apply(s, a).threads
    ensures ThreadInv(Apply(s, a), t)
  {
    assert forall c :: c in s.calls ==> CallInv(s, c);
    if t in s.threads {
      assert ThreadInv(s, t);
      ThreadOther(s, a, t);
    } else {
      NewThread(s, a, t);
    }
  }

  lemma OtherLoad(s: State, a: Action)
    requires Inv(s) && !a.Advance? && Enabled(s, a)
    ensures LoadInv(Apply(s, a))
  {
    if a.Reload? {
      LoadReload(s, a);
    } else {
      assert Apply(s, a).active.Keys == s.active.Keys;
      forall n | n in s.active
        ensures Apply(s, a).active[n] == |CountedOn(Apply(s, a).calls, n)|
      {
        assert Subject(s, a).Some? && Subject(s, a).value in s.calls ==> CallInv(s, Subject(s, a).value);
        LoadOther(s, a, n);
      }
    }
  }

  /** Every step of every thread, caller, server and timer keeps the invariant. */
  lemma StepKeeps(s: State, a: Action)
    requires Inv(s) && Enabled(s, a) && Apply(s, a).begun < SEQ_MODULUS
    ensures Inv(Apply(s, a))
  {
    if a.Advance? {
      forall c | c in Apply(s, a).calls
        ensures CallInv(Apply(s, a), c)
      {
        AdvanceCalls(s, a, c);
      }
      forall t | t in Apply(s, a).threads
        ensures ThreadInv(Apply(s, a), t)
      {
        AdvanceThreads(s, a, t);
      }
      AdvanceTables(s, a);
    } else {
      var s' := Apply(s, a);
      forall c | c in s'.calls
        ensures CallInv(s', c)
      {
        OtherCalls(s, a, c);
      }
      forall t | t in s'.threads
        ensures ThreadInv(s', t)
      {
        OtherThreads(s, a, t);
      }
      if a.Begin? { NewCall(s, a); } else { TablesOther(s, a); }
      NetOther(s, a);
      OtherLoad(s, a);
    }
  }

  /** The sequence counter never goes back. */
  lemma BegunGrows(s: State, a: Action)
    requires Enabled(s, a)
    ensures s.begun <= Apply(s, a).begun
  {
  }

  ghost predicate Safe(s: State) {
    s.begun < SEQ_MODULUS ==> Inv(s)
  }

  lemma NextKeeps(s: State, s': State)
    requires Safe(s) && Next(s, s')
    ensures Safe(s')
  {
    var a :| Enabled(s, a) && s' == Apply(s, a);
    BegunGrows(s, a);
    if s'.begun < SEQ_MODULUS {
      StepKeeps(s, a);
    }
  }

  /** What the first state of a run has and every step keeps, every state of the run has. */
  lemma {:induction false} Along(run: seq<State>, i: nat, good: State -> bool)
    requires i < |run| && good(run[0])
    requires forall j :: 0 <= j < |run| - 1 && good(run[j]) ==> good(run[j + 1])
    ensures good(run[i])
  {
    if i == 0 {
    } else {
      Along(run, i - 1, good);
      assert good(run[i - 1 + 1]);
    }
  }

  lemma RunKeeps(run: seq<State>, i: nat)
    requires IsRun(run) && run[0] == START && i < |run| && run[i].begun < SEQ_MODULUS
    ensures Inv(run[i])
  {
    forall j | 0 <= j < |run| - 1 && Safe(run[j])
      ensures Safe(run[j + 1])
    {
      assert Next(run[j], run[j + 1]);
      NextKeeps(run[j], run[j + 1]);
    }
    Along(run, i, s => Safe(s));
  }

  /** Every reachable state satisfies the invariant. */
  lemma ReachableInv(s: State)
    requires Reachable(s)
    ensures Inv(s)
  {
    var run :| IsRun(run) && run[0] == START && run[|run| - 1] == s;
    RunKeeps(run, |run| - 1);
  }
}
