/**
  session_manager.go and the reply path of service_client.go as the objects they are, run by one
  thread whose caller is ready to receive. Blocking and interleaving are in SessionProtocol; the
  lemmas at the end tie the two together.
 */
module SessionManager {
  import opened Wrappers
  import P = SessionProtocol

  class Node {
    const id: nat
    const address: string  // its ip and port
    const weight: int
    var active: int

    constructor (id: nat, address: string, weight: int)
      ensures this.id == id && this.address == address && this.weight == weight && active == 0
    {
      this.id, this.address, this.weight := id, address, weight;
      active := 0;
    }
  }

  class Channel {
    var sent: seq<Option<P.Message>>
    var closed: bool

    constructor ()
      ensures sent == [] && !closed
    {
      sent := [];
      closed := false;
    }

    method Send(resp: Option<P.Message>)
      requires !closed
      modifies this`sent
      ensures sent == old(sent) + [resp]
    {
      sent := sent + [resp];
    }

    method Close()
      requires !closed
      modifies this`closed
      ensures closed
    {
      closed := true;
    }
  }

  class EasySession {
    const seqNo: nat
    const node: Node
    var respChan: Channel?
    var timer: P.Timer
    ghost const chan: Channel  // the channel the caller was given

    constructor (seqNo: nat, node: Node)
      ensures this.seqNo == seqNo && this.node == node && Valid() && fresh(chan)
      ensures View() == P.NewSession(seqNo, node.id)
    {
      this.seqNo := seqNo;
      this.node := node;
      var ch := new Channel();
      respChan := ch;
      chan := ch;
      timer := P.Running;
    }

    ghost predicate Valid()
      reads this, chan
    {
      if respChan == null then chan.closed && |chan.sent| == 1
      else respChan == chan && !chan.closed && chan.sent == []
    }

    ghost function View(): P.Session
      reads this, chan
    {
      P.Session(seqNo, node.id, respChan != null, chan.closed, chan.sent, None, timer)
    }
  }

  /** What DestorySessionAndRespPkg makes of a session when nobody else holds its mutex. */
  function Destroyed(x: P.Session, resp: Option<P.Message>): P.Session {
    (if x.open then x.Deliver(resp).CloseChan().DropChan() else x).StopTimer()
  }

  class EasySessionManager {
    var sessionMap: map<nat, EasySession>
    var seqNo: nat

    constructor ()
      ensures sessionMap == map[] && seqNo == 0
    {
      sessionMap := map[];
      seqNo := 0;
    }

    ghost predicate Valid()
      reads this
    {
      && seqNo < P.SEQ_MODULUS
      && forall q :: q in sessionMap ==> sessionMap[q].seqNo == q
    }

    /** The one registered session that carries the number, if there is one. */
    method GetSession(sessionId: nat) returns (session: EasySession?)
      requires Valid()
      ensures session == null <==> forall x :: x in sessionMap.Values ==> x.seqNo != sessionId
      ensures session != null ==> session in sessionMap.Values && session.seqNo == sessionId
      ensures session != null ==> forall x :: x in sessionMap.Values && x.seqNo == sessionId ==> x == session
    {
      session := if sessionId in sessionMap then sessionMap[sessionId] else null;
    }

    method InitSession(node: Node) returns (session: EasySession)
      requires Valid()
      modifies this, node`active
      ensures Valid() && seqNo == (old(seqNo) + 1) % P.SEQ_MODULUS
      ensures node.active == old(node.active) + 1
      ensures fresh(session) && fresh(session.chan) && session.node == node && session.Valid()
      ensures session.View() == P.NewSession(seqNo, node.id)
      ensures sessionMap == old(sessionMap)[seqNo := session]
    {
      seqNo := (seqNo + 1) % P.SEQ_MODULUS;
      node.active := node.active + 1;
      session := new EasySession(seqNo, node);
      sessionMap := sessionMap[seqNo := session];
    }

    /** The first destroyer delivers, closes and counts out; a later one finds the channel gone. */
    method DestorySessionAndRespPkg(session: EasySession?, resp: Option<P.Message>)
      requires Valid() && (session != null ==> session.Valid())
      modifies this`sessionMap, session, if session == null then {} else {session.chan, session.node}
      ensures Valid()
      ensures session == null ==> sessionMap == old(sessionMap)
      ensures session != null ==>
                && session.Valid()
                && sessionMap == old(sessionMap) - {session.seqNo}
                && session.View() == Destroyed(old(session.View()), resp)
                && session.node.active == old(session.node.active) - (if old(session.View()).open then 1 else 0)
    {
      if session == null {
        return;
      }
      sessionMap := sessionMap - {session.seqNo};
      var ch := session.respChan;
      if ch != null {
        ch.Send(resp);
        ch.Close();
        session.respChan := null;
        session.node.active := session.node.active - 1;
      }
      if session.timer.Running? {
        session.timer := P.Stopped;
      }
    }

    /** service_client.go's Process: a reply reaches the session registered under its number, if any. */
    method Process(reply: P.Message)
      requires Valid() && (reply.pkg.seqNo in sessionMap ==> sessionMap[reply.pkg.seqNo].Valid())
      modifies this`sessionMap
      modifies if reply.pkg.seqNo in sessionMap
               then {sessionMap[reply.pkg.seqNo], sessionMap[reply.pkg.seqNo].chan, sessionMap[reply.pkg.seqNo].node}
               else {}
      ensures Valid()
      ensures reply.pkg.seqNo == 0 ==> sessionMap == old(sessionMap)
      ensures reply.pkg.seqNo == 0 && 0 in sessionMap ==>
                && sessionMap[0].View() == old(sessionMap[0].View())
                && sessionMap[0].node.active == old(sessionMap[0].node.active)
      ensures reply.pkg.seqNo != 0 ==> sessionMap == old(sessionMap) - {reply.pkg.seqNo}
      ensures reply.pkg.seqNo != 0 && reply.pkg.seqNo in old(sessionMap) ==>
                var session := old(sessionMap)[reply.pkg.seqNo];
                && session.View() == Destroyed(old(session.View()), Some(reply))
                && session.node.active == old(session.node.active) - (if old(session.View()).open then 1 else 0)
    {
      if reply.pkg.seqNo == 0 {
        return;
      }
      var session := GetSession(reply.pkg.seqNo);
      if session == null {
        return;
      }
      DestorySessionAndRespPkg(session, Some(reply));
    }
  }

  /** The first response wins: destroying again, with anything, changes nothing. */
  lemma DestroyedTwice(x: P.Session, first: Option<P.Message>, second: Option<P.Message>)
    ensures Destroyed(Destroyed(x, first), second) == Destroyed(x, first)
  {
  }

  /** What thread `t` reaches by `n` steps without interruption. */
  function Uninterrupted(s: P.State, t: P.ThreadId, n: nat): Option<P.State>
    decreases n
  {
    if n == 0 then Some(s)
    else if P.Enabled(s, P.Advance(t)) then Uninterrupted(P.Apply(s, P.Advance(t)), t, n - 1)
    else None
  }

  /** State `s` with the record of call `th.call` at `k` and thread `t` at `th`. */
  function At(s: P.State, t: P.ThreadId, th: P.Thread, k: P.Call): P.State {
    s.Put(th.call, k).PutThread(t, th)
  }

  /** The shared state after one step at `th.pc`, apart from the thread and its call. */
  function Around(s: P.State, th: P.Thread, k: P.Call): P.State {
    var n := k.session.node;
    s.(sessionMap := if th.pc.Delete? then s.sessionMap - {k.session.seqNo} else s.sessionMap,
       active := if th.pc.Discount? && n in s.active then s.active[n := s.active[n] - 1] else s.active)
  }

  lemma OneStep(s: P.State, t: P.ThreadId, th: P.Thread, k: P.Call)
    requires !th.pc.Park? && !th.pc.Done? && (th.pc.Lock? ==> k.session.lock.None?) && (th.pc.Send? ==> k.phase.Waiting?)
    requires k.session.node in s.active
    ensures P.Enabled(At(s, t, th, k), P.Advance(t))
    ensures P.Step(At(s, t, th, k), t)
            == At(Around(s, th, k), t, th.(pc := P.NextPc(th.pc, k.session.open)), P.Touch(t, th, k))
    ensures k.session.node in Around(s, th, k).active
  {
    var s0 := At(s, t, th, k);
    assert s0.calls[th.call] == k && s0.threads[t] == th;
    assert s0.calls[th.call := P.Touch(t, th, k)] == s.calls[th.call := P.Touch(t, th, k)];
    var th' := th.(pc := P.NextPc(th.pc, k.session.open));
    assert s0.threads[t := th'] == s.threads[t := th'];
  }

  /** Thread `t` alone, from the map delete to the unlock. */
  function Finish(s: P.State, t: P.ThreadId, th: P.Thread, k: P.Call): P.State {
    var n := k.session.node;
    At(s.(sessionMap := s.sessionMap - {k.session.seqNo},
          active := if k.session.open && n in s.active then s.active[n := s.active[n] - 1] else s.active),
       t, th.(pc := P.Done),
       k.(session := Destroyed(k.session, th.resp),
          phase := if k.session.open then P.Received(th.resp) else k.phase,
          counted := if k.session.open then false else k.counted,
          claimer := if k.claimer.None? then Some(t) else k.claimer))
  }

  function ToEnd(s: P.State, t: P.ThreadId, th: P.Thread, k: P.Call): P.State
    decreases P.Left(th.pc)
  {
    if th.pc.Done? then At(s, t, th, k)
    else ToEnd(Around(s, th, k), t, th.(pc := P.NextPc(th.pc, k.session.open)), P.Touch(t, th, k))
  }

  lemma TouchKeeps(t: P.ThreadId, th: P.Thread, k: P.Call)
    requires th.pc.Delete? ==> k.session.lock.None?
    ensures P.Touch(t, th, k).session.node == k.session.node
    ensures th.pc.Delete? ==> P.Touch(t, th, k).session.lock.None?
    ensures !th.pc.Send? && !th.pc.Nil? ==>
              P.Touch(t, th, k).session.open == k.session.open && P.Touch(t, th, k).phase == k.phase
  {
  }

  lemma {:induction false} RunsToEnd(s: P.State, t: P.ThreadId, th: P.Thread, k: P.Call) returns (n: nat)
    requires !th.pc.Park? && k.session.node in s.active
    requires (th.pc.Delete? || th.pc.Lock?) ==> k.session.lock.None?
    requires k.session.open && P.Left(th.pc) >= P.Left(P.Send) ==> k.phase.Waiting?
    requires th.pc.Send? ==> k.session.open
    ensures Uninterrupted(At(s, t, th, k), t, n) == Some(ToEnd(s, t, th, k))
    decreases P.Left(th.pc)
  {
    if th.pc.Done? {
      n := 0;
    } else {
      OneStep(s, t, th, k);
      TouchKeeps(t, th, k);
      var th', k' := th.(pc := P.NextPc(th.pc, k.session.open)), P.Touch(t, th, k);
      var m := RunsToEnd(Around(s, th, k), t, th', k');
      n := m + 1;
    }
  }

  lemma EndFromStop(s: P.State, t: P.ThreadId, th: P.Thread, k: P.Call)
    requires th.pc.Stop?
    ensures ToEnd(s, t, th, k) == At(s, t, th.(pc := P.Done), k.(session := k.session.StopTimer().(lock := None)))
  {
    var th1, k1 := th.(pc := P.Unlock), P.Touch(t, th, k);
    assert ToEnd(s, t, th, k) == ToEnd(s, t, th1, k1);
    assert ToEnd(s, t, th1, k1) == ToEnd(s, t, th.(pc := P.Done), P.Touch(t, th1, k1));
  }

  lemma EndFromSend(s: P.State, t: P.ThreadId, th: P.Thread, k: P.Call)
    requires th.pc.Send? && k.session.node in s.active
    ensures var n := k.session.node;
            ToEnd(s, t, th, k) ==
            ToEnd(s.(active := s.active[n := s.active[n] - 1]), t, th.(pc := P.Stop),
                  k.(session := k.session.Deliver(th.resp).CloseChan().DropChan(),
                     phase := P.Received(th.resp), counted := false))
  {
    var k1 := P.Touch(t, th, k);
    var k2 := P.Touch(t, th.(pc := P.Close), k1);
    var k3 := P.Touch(t, th.(pc := P.Nil), k2);
    assert ToEnd(s, t, th, k) == ToEnd(s, t, th.(pc := P.Close), k1);
    assert ToEnd(s, t, th.(pc := P.Close), k1) == ToEnd(s, t, th.(pc := P.Nil), k2);
    assert ToEnd(s, t, th.(pc := P.Nil), k2) == ToEnd(s, t, th.(pc := P.Discount), k3);
  }

  /** The call's record once thread `t` holds the mutex. */
  function Taken(t: P.ThreadId, k: P.Call): P.Call {
    k.(session := k.session.(lock := Some(t)), claimer := if k.claimer.None? then Some(t) else k.claimer)
  }

  lemma EndFromDelete(s: P.State, t: P.ThreadId, th: P.Thread, k: P.Call)
    requires th.pc.Delete? && k.session.lock.None?
    ensures ToEnd(s, t, th, k) ==
            ToEnd(s.(sessionMap := s.sessionMap - {k.session.seqNo}), t,
                  th.(pc := if k.session.open then P.Send else P.Stop), Taken(t, k))
  {
    var s1 := Around(s, th, k);
    var k1 := P.Touch(t, th, k);
    var k2 := P.Touch(t, th.(pc := P.Lock), k1);
    assert ToEnd(s, t, th, k) == ToEnd(s1, t, th.(pc := P.Lock), k1);
    assert ToEnd(s1, t, th.(pc := P.Lock), k1) == ToEnd(s1, t, th.(pc := P.Check), k2);
  }

  lemma DeliverToEnd(s: P.State, t: P.ThreadId, th: P.Thread, k: P.Call)
    requires th.pc.Send? && k.session.node in s.active
    ensures var n := k.session.node;
            ToEnd(s, t, th, k) ==
            At(s.(active := s.active[n := s.active[n] - 1]), t, th.(pc := P.Done),
               k.(session := k.session.Deliver(th.resp).CloseChan().DropChan().StopTimer().(lock := None),
                  phase := P.Received(th.resp), counted := false))
  {
    EndFromSend(s, t, th, k);
    var n := k.session.node;
    EndFromStop(s.(active := s.active[n := s.active[n] - 1]), t, th.(pc := P.Stop),
                k.(session := k.session.Deliver(th.resp).CloseChan().DropChan(),
                   phase := P.Received(th.resp), counted := false));
  }

  lemma WholeOpen(s: P.State, t: P.ThreadId, th: P.Thread, k: P.Call)
    requires th.pc.Send? && k.session.open && k.session.lock.None? && k.session.node in s.active
    ensures var n := k.session.node;
            ToEnd(s, t, th, Taken(t, k)) ==
            At(s.(active := s.active[n := s.active[n] - 1]), t, th.(pc := P.Done),
               k.(session := Destroyed(k.session, th.resp), phase := P.Received(th.resp), counted := false,
                  claimer := if k.claimer.None? then Some(t) else k.claimer))
  {
    DeliverToEnd(s, t, th, Taken(t, k));
  }

  lemma WholeClosed(s: P.State, t: P.ThreadId, th: P.Thread, k: P.Call)
    requires th.pc.Stop? && !k.session.open && k.session.lock.None?
    ensures ToEnd(s, t, th, Taken(t, k)) ==
            At(s, t, th.(pc := P.Done),
               k.(session := Destroyed(k.session, th.resp), claimer := if k.claimer.None? then Some(t) else k.claimer))
  {
    EndFromStop(s, t, th, Taken(t, k));
  }

  lemma WholeDestroy(s: P.State, t: P.ThreadId, th: P.Thread, k: P.Call)
    requires th.pc.Delete? && k.session.lock.None? && k.session.node in s.active
    ensures ToEnd(s, t, th, k) == Finish(s, t, th, k)
  {
    EndFromDelete(s, t, th, k);
    var s1 := s.(sessionMap := s.sessionMap - {k.session.seqNo});
    if k.session.open {
      WholeOpen(s1, t, th.(pc := P.Send), k);
    } else {
      WholeClosed(s1, t, th.(pc := P.Stop), k);
    }
  }

  lemma AtItself(s: P.State, t: P.ThreadId)
    requires t in s.threads && s.threads[t].call in s.calls
    ensures At(s, t, s.threads[t], s.calls[s.threads[t].call]) == s
  {
    var th := s.threads[t];
    assert s.calls[th.call := s.calls[th.call]] == s.calls && s.threads[t := th] == s.threads;
  }

  /** The method above is the protocol's destroy run without interruption: same table, same load,
      same session, and the waiting caller has the response. */
  lemma UninterruptedDestroy(s: P.State, t: P.ThreadId)
    requires t in s.threads && s.threads[t].call in s.calls && s.threads[t].pc.Delete?
    requires var k := s.calls[s.threads[t].call];
             k.session.lock.None? && k.session.node in s.active && (k.session.open ==> k.phase.Waiting?)
    ensures var th := s.threads[t];
            exists n :: Uninterrupted(s, t, n) == Some(Finish(s, t, th, s.calls[th.call]))
  {
    var th := s.threads[t];
    var k := s.calls[th.call];
    AtItself(s, t);
    var n := RunsToEnd(s, t, th, k);
    WholeDestroy(s, t, th, k);
    assert Uninterrupted(s, t, n) == Some(Finish(s, t, th, k));
  }
}
