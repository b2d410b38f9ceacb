/** What the session protocol guarantees: exactly-once refinement, correlation, load accounting. */
module SessionTheorems {
  import opened Wrappers
  import opened SessionProtocol
  import opened SessionInvariant
  import opened OutcomeSpec

  /** At most one value per channel, closed only after it, dropped only once closed; and no thread
      is ever about to send on, or close, a channel that is nil or already closed. */
  lemma AtMostOnce(s: State, c: CallId)
    requires Reachable(s) && c in s.calls
    ensures var x := s.calls[c].session;
            && |x.sent| <= 1
            && (x.closed ==> |x.sent| == 1)
            && (!x.open ==> x.closed)
    ensures forall t :: t in s.threads && s.threads[t].call == c && (s.threads[t].pc.Send? || s.threads[t].pc.Close?) ==>
              s.calls[c].session.open && !s.calls[c].session.closed
  {
    ReachableInv(s);
    assert CallInv(s, c);
    forall t | t in s.threads && s.threads[t].call == c && (s.threads[t].pc.Send? || s.threads[t].pc.Close?)
      ensures s.calls[c].session.open && !s.calls[c].session.closed
    {
      assert ThreadInv(s, t);
    }
  }

  /** The unlocked read of session.respChan on return sees a channel that is neither nil nor closed. */
  lemma ReturnedChannelUsable(s: State, c: CallId)
    requires Reachable(s) && Enabled(s, Return(c))
    ensures s.calls[c].session.open && !s.calls[c].session.closed && s.calls[c].session.sent == []
  {
    ReachableInv(s);
    assert CallInv(s, c);
  }

  /** What a caller receives carries its own sequence number, whatever the services answer. It answers
      the caller's own request exactly when it kept the number of the request that it answers. */
  lemma AnswersOwnIff(s: State, c: CallId)
    requires Reachable(s) && c in s.calls
    requires s.calls[c].phase.Received? && s.calls[c].phase.resp.Some?
    ensures var m := s.calls[c].phase.resp.value;
            && m.pkg.seqNo == s.calls[c].session.seqNo != 0
            && m.origin in s.calls
            && (m.origin == c <==> m.pkg.seqNo == s.calls[m.origin].session.seqNo)
  {
    ReachableInv(s);
    assert CallInv(s, c);
    assert NetInv(s) && DistinctSeqs(s);
  }

  /** So while no service answers under another number, every caller gets the answer to its own request. */
  lemma NoCrossTalk(s: State, c: CallId)
    requires Reachable(s) && c in s.calls
    requires s.calls[c].phase.Received? && s.calls[c].phase.resp.Some?
    ensures s.calls[c].phase.resp.value.pkg.seqNo == s.calls[c].session.seqNo != 0
    ensures s.headKept ==> s.calls[c].phase.resp.value.origin == c
  {
    AnswersOwnIff(s, c);
    ReachableInv(s);
    assert CallInv(s, c) && NetInv(s);
  }

  /** Active is the number of calls counted in and not out, on old node objects as on new ones. */
  lemma LoadAccounting(s: State, n: NodeId)
    requires Reachable(s) && n in s.active
    ensures s.active[n] == |CountedOn(s.calls, n)| >= 0
  {
    ReachableInv(s);
  }

  lemma SettledCall(s: State, c: CallId)
    requires c in s.calls && CallInv(s, c) && s.calls[c].phase.Received? && s.calls[c].session.lock.None?
    ensures !s.calls[c].counted && s.calls[c].session.seqNo !in s.sessionMap
  {
  }

  /** When every caller has its value and no session mutex is held, nothing is left behind. */
  lemma QuiescentIsEmpty(s: State)
    requires Reachable(s)
    requires forall c :: c in s.calls ==> s.calls[c].phase.Received? && s.calls[c].session.lock.None?
    ensures s.sessionMap == map[]
    ensures forall n :: n in s.active ==> s.active[n] == 0
  {
    ReachableInv(s);
    forall c | c in s.calls
      ensures !s.calls[c].counted && s.calls[c].session.seqNo !in s.sessionMap
    {
      assert CallInv(s, c);
      SettledCall(s, c);
    }
    assert MapInv(s) && LoadInv(s);
    assert s.sessionMap.Keys == {};
    forall n | n in s.active
      ensures s.active[n] == 0
    {
      assert CountedOn(s.calls, n) == {};
    }
  }

  /** An open session is still in the table with its timer pending, or a thread that took it out
      of the table has yet to finish with it. */
  lemma NoLostSession(s: State, c: CallId)
    requires Reachable(s) && c in s.calls && !s.calls[c].phase.Early() && s.calls[c].session.open
    ensures var k := s.calls[c];
            || (k.session.seqNo in s.sessionMap && s.sessionMap[k.session.seqNo] == c
                && (k.session.timer.Running? || k.session.timer.Fired?
                    || exists t :: t in s.threads && s.threads[t] == Thread(c, TimerGoroutine, None, Delete)))
            || (exists t :: t in s.threads && s.threads[t].call == c && s.threads[t].pc.Past() && !s.threads[t].pc.Done?)
  {
    ReachableInv(s);
    assert CallInv(s, c);
    var k := s.calls[c];
    match k.claimer
    case Some(t) =>
      assert ThreadInv(s, t);
    case None =>
      if k.timerThread.Some? && k.session.timer.Drained? {
        var t := k.timerThread.value;
        assert ThreadInv(s, t);
        assert s.threads[t] == Thread(c, TimerGoroutine, None, Delete);
      }
  }

  // ---- Refinement of the outcome specification ----

  function OutcomeOf(k: Call): Outcome {
    if k.session.sent == [] then Pending
    else match k.session.sent[0]
      case None => TimedOut
      case Some(m) => Answered(m)
  }

  function Outcomes(s: State): Table {
    map c | c in s.calls :: OutcomeOf(s.calls[c])
  }

  /** Only the rendezvous send changes an outcome, and it settles a pending one. */
  lemma SendSettles(s: State, t: ThreadId)
    requires t in s.threads && s.threads[t].call in s.calls && CanAdvance(s, t)
    requires ThreadInv(s, t) && ChannelInv(s, s.threads[t].call)
    ensures var c := s.threads[t].call;
            if s.threads[t].pc.Send? then
              OutcomeOf(s.calls[c]).Pending? && !OutcomeOf(Step(s, t).calls[c]).Pending?
            else
              OutcomeOf(Step(s, t).calls[c]) == OutcomeOf(s.calls[c])
  {
  }

  lemma OthersKeepOutcome(s: State, a: Action, c: CallId)
    requires !a.Advance? && Enabled(s, a) && c in s.calls
    ensures c in Apply(s, a).calls && OutcomeOf(Apply(s, a).calls[c]) == OutcomeOf(s.calls[c])
  {
  }

  lemma OutcomesAfter(s: State, s': State, c: CallId)
    requires c in s'.calls && s'.calls == s.calls[c := s'.calls[c]]
    requires c in s.calls ==> OutcomeOf(s.calls[c]).Pending? || OutcomeOf(s'.calls[c]) == OutcomeOf(s.calls[c])
    requires c !in s.calls ==> OutcomeOf(s'.calls[c]).Pending?
    ensures SpecStep(Outcomes(s), Outcomes(s'))
  {
    var o, o' := Outcomes(s), Outcomes(s');
    assert o' == o[c := o'[c]];
    assert o' == o || Starts(o, o', c) || Settles(o, o', c);
  }

  lemma SubjectOnly(s: State, a: Action)
    requires Enabled(s, a)
    ensures Subject(s, a).None? ==> Apply(s, a).calls == s.calls
    ensures Subject(s, a).Some? ==>
              var c, m := Subject(s, a).value, Apply(s, a).calls;
              c in m && m == s.calls[c := m[c]] && (c !in s.calls ==> OutcomeOf(m[c]).Pending?)
  {
  }

  lemma AdvanceSettles(s: State, a: Action)
    requires Inv(s) && a.Advance? && Enabled(s, a)
    ensures var c := s.threads[a.t].call;
            c in Apply(s, a).calls
            && (OutcomeOf(s.calls[c]).Pending? || OutcomeOf(Apply(s, a).calls[c]) == OutcomeOf(s.calls[c]))
  {
    assert ThreadInv(s, a.t) && CallInv(s, s.threads[a.t].call);
    SendSettles(s, a.t);
  }

  lemma ActionRefines(s: State, a: Action)
    requires Enabled(s, a)
    requires a.Advance? ==>
               var c := s.threads[a.t].call;
               c in Apply(s, a).calls
               && (OutcomeOf(s.calls[c]).Pending? || OutcomeOf(Apply(s, a).calls[c]) == OutcomeOf(s.calls[c]))
    ensures SpecStep(Outcomes(s), Outcomes(Apply(s, a)))
  {
    SubjectOnly(s, a);
    if Subject(s, a).Some? {
      var c := Subject(s, a).value;
      if !a.Advance? && c in s.calls {
        OthersKeepOutcome(s, a, c);
      }
      OutcomesAfter(s, Apply(s, a), c);
    }
  }

  lemma StepRefines(s: State, a: Action)
    requires Inv(s) && Enabled(s, a)
    ensures SpecStep(Outcomes(s), Outcomes(Apply(s, a)))
  {
    if a.Advance? {
      AdvanceSettles(s, a);
    }
    ActionRefines(s, a);
  }

  /** Every run of the protocol, seen as outcomes, is a run of the specification. */
  lemma RunRefines(run: seq<State>, outcomes: seq<Table>)
    requires IsRun(run) && run[0] == START
    requires forall i :: 0 <= i < |run| ==> run[i].begun < SEQ_MODULUS
    requires |outcomes| == |run| && forall i :: 0 <= i < |run| ==> outcomes[i] == Outcomes(run[i])
    ensures outcomes[0] == map[] && SpecRun(outcomes)
  {
    forall i | 0 <= i < |outcomes| - 1
      ensures SpecStep(outcomes[i], outcomes[i + 1])
    {
      RunKeeps(run, i);
      assert Next(run[i], run[i + 1]);
      var a :| Enabled(run[i], a) && run[i + 1] == Apply(run[i], a);
      StepRefines(run[i], a);
    }
  }

  lemma ReceivedIsOutcome(s: State, c: CallId)
    requires Inv(s) && c in s.calls
    ensures var o := OutcomeOf(s.calls[c]);
            && (o.Pending? <==> !s.calls[c].phase.Received?)
            && (o.TimedOut? <==> s.calls[c].phase == Received(None))
            && (o.Answered? ==> s.calls[c].phase == Received(Some(o.reply)))
  {
    assert CallInv(s, c);
  }

  /** Exactly once over a whole run: a settled outcome stays, and it is what the caller has received. */
  lemma OutcomeIsFinal(run: seq<State>, i: nat, j: nat, c: CallId)
    requires IsRun(run) && run[0] == START && i <= j < |run|
    requires forall i :: 0 <= i < |run| ==> run[i].begun < SEQ_MODULUS
    requires c in run[i].calls && run[i].calls[c].phase.Received?
    ensures c in run[j].calls && OutcomeOf(run[j].calls[c]) == OutcomeOf(run[i].calls[c])
    ensures run[j].calls[c].phase == run[i].calls[c].phase
  {
    var outcomes := seq(|run|, k requires 0 <= k < |run| => Outcomes(run[k]));
    RunRefines(run, outcomes);
    RunKeeps(run, i);
    RunKeeps(run, j);
    ReceivedIsOutcome(run[i], c);
    assert outcomes[i] == Outcomes(run[i]) && outcomes[j] == Outcomes(run[j]);
    SettledStays(outcomes, i, j, c);
    ReceivedIsOutcome(run[j], c);
  }

  /** A nil package is delivered only after the call's own timer has fired. */
  lemma NilMeansTimeout(s: State, c: CallId)
    requires Reachable(s) && c in s.calls
    ensures OutcomeOf(s.calls[c]).TimedOut? <==> s.calls[c].phase == Received(None)
    ensures OutcomeOf(s.calls[c]).TimedOut? ==> s.calls[c].session.timer.Drained?
  {
    ReachableInv(s);
    assert CallInv(s, c);
  }
}
