/**
  The request/response session protocol of one service client as an interleaved step system.

  A caller numbers its request, counts it on the chosen node, registers a session, hands the
  package to a connection, starts the timer goroutine and waits on the session's unbuffered
  channel. Reply handlers and timer goroutines race through the steps of
  DestorySessionAndRespPkg; every shared access of that function is one step of its own.
  The network keeps every message ever sent, so it may reorder, duplicate or never deliver.
 */
module SessionProtocol {
  import opened Wrappers

  type CallId = nat    // one RequestAsyncWithHead call, and the EasySession object it makes
  type NodeId = nat    // one Node object; a reload makes new ones
  type ThreadId = nat  // one goroutine inside DestorySessionAndRespPkg

  const SEQ_MODULUS: nat := 0x1_0000_0000_0000_0000

  datatype Package = Package(seqNo: nat, ret: int, body: string)

  /** A package on the wire. `origin` is history: the call whose request is being answered. */
  datatype Message = Message(origin: CallId, pkg: Package)

  /** Stop leaves a timer that has already fired alone: its tick stays in the timer's channel. */
  datatype Timer = Running | Fired | Drained | Stopped

  /** `open` says respChan != nil; `sent` is the history of values that went through the channel. */
  datatype Session = Session(seqNo: nat, node: NodeId, open: bool, closed: bool,
                             sent: seq<Option<Message>>, lock: Option<ThreadId>, timer: Timer)
  {
    function Deliver(resp: Option<Message>): Session { this.(sent := sent + [resp]) }
    function CloseChan(): Session { this.(closed := true) }
    function DropChan(): Session { this.(open := false) }
    function StopTimer(): Session { if timer.Running? then this.(timer := Stopped) else this }
  }

  function NewSession(q: nat, n: NodeId): Session {
    Session(q, n, true, false, [], None, Running)
  }

  /** How far RequestAsyncWithHead has got, and then the receive on the returned channel. */
  datatype Phase =
    | Numbered | Counted | Created | Inserted | Failed
    | Sent | Spawned | Waiting | Received(resp: Option<Message>)
  {
    /** The session object is not yet in sessionMap. */
    predicate Early() { Numbered? || Counted? || Created? }

    /** The timer goroutine exists. */
    predicate Timed() { Spawned? || Waiting? || Received? }
  }

  /** `counted`, `claimer` and `timerThread` are history: whether this call is in its node's
      Active, the first thread that deleted it from sessionMap, and its timer goroutine. */
  datatype Call = Call(phase: Phase, session: Session, counted: bool,
                       claimer: Option<ThreadId>, timerThread: Option<ThreadId>)

  datatype Kind = Handler | TimerGoroutine | Caller

  /** Program counter inside the timer goroutine and DestorySessionAndRespPkg. */
  datatype Pc = Park | Delete | Lock | Check | Send | Close | Nil | Discount | Stop | Unlock | Done
  {
    predicate Critical() { Check? || Send? || Close? || Nil? || Discount? || Stop? || Unlock? }
    predicate Past() { !Park? && !Delete? }
  }

  datatype Thread = Thread(call: CallId, kind: Kind, resp: Option<Message>, pc: Pc)

  datatype State = State(
    seqNo: nat, begun: nat,
    nodes: set<NodeId>, active: map<NodeId, int>,
    sessionMap: map<nat, CallId>,
    calls: map<CallId, Call>, threads: map<ThreadId, Thread>,
    requests: set<Message>, replies: set<Message>,
    headKept: bool)  // history: no service has answered under another sequence number
  {
    function Put(c: CallId, k: Call): State { this.(calls := calls[c := k]) }
    function PutThread(t: ThreadId, th: Thread): State { this.(threads := threads[t := th]) }
  }

  datatype Action =
    | Reload(ns: set<NodeId>)
    | Begin(c: CallId, n: NodeId)
    | CountIn(c: CallId)
    | Create(c: CallId)
    | Insert(c: CallId)
    | EncodeFail(c: CallId, t: ThreadId)
    | SendRequest(c: CallId, pkg: Package)
    | Spawn(c: CallId, t: ThreadId)
    | Return(c: CallId)
    | Serve(m: Message, pkg: Package)
    | Handle(t: ThreadId, m: Message)
    | Fire(c: CallId)
    | Wake(t: ThreadId)
    | Advance(t: ThreadId)

  /** The lock waits for the session mutex; the send waits for the caller's receive. */
  predicate CanAdvance(s: State, t: ThreadId)
    requires t in s.threads && s.threads[t].call in s.calls
  {
    var th := s.threads[t];
    var k := s.calls[th.call];
    match th.pc
    case Park => false
    case Done => false
    case Lock => k.session.lock.None?
    case Send => k.phase.Waiting?
    case Discount => k.session.node in s.active
    case _ => true
  }

  predicate Enabled(s: State, a: Action) {
    match a
    case Reload(ns) => ns !! s.active.Keys
    case Begin(c, n) => c !in s.calls && n in s.nodes && n in s.active
    case CountIn(c) => c in s.calls && s.calls[c].phase.Numbered? && s.calls[c].session.node in s.active
    case Create(c) => c in s.calls && s.calls[c].phase.Counted?
    case Insert(c) => c in s.calls && s.calls[c].phase.Created?
    case EncodeFail(c, t) => c in s.calls && s.calls[c].phase.Inserted? && t !in s.threads
    case SendRequest(c, pkg) =>
      c in s.calls && s.calls[c].phase.Inserted? && pkg.seqNo == s.calls[c].session.seqNo
    case Spawn(c, t) => c in s.calls && s.calls[c].phase.Sent? && t !in s.threads
    case Return(c) => c in s.calls && s.calls[c].phase.Spawned?
    case Serve(m, pkg) => m in s.requests
    case Handle(t, m) => t !in s.threads && m in s.replies
    case Fire(c) =>
      c in s.calls && !s.calls[c].phase.Numbered? && !s.calls[c].phase.Counted?
      && s.calls[c].session.timer.Running?
    case Wake(t) =>
      t in s.threads && s.threads[t].pc.Park? && s.threads[t].call in s.calls
      && s.calls[s.threads[t].call].session.timer.Fired?
    case Advance(t) => t in s.threads && s.threads[t].call in s.calls && CanAdvance(s, t)
  }

  function NextPc(pc: Pc, open: bool): Pc {
    match pc
    case Park => Delete
    case Delete => Lock
    case Lock => Check
    case Check => if open then Send else Stop
    case Send => Close
    case Close => Nil
    case Nil => Discount
    case Discount => Stop
    case Stop => Unlock
    case Unlock => Done
    case Done => Done
  }

  /** What one step of thread `t` at `th.pc` does to the record of its own call. */
  function Touch(t: ThreadId, th: Thread, k: Call): Call {
    var x := k.session;
    match th.pc
    case Delete => if k.claimer.None? then k.(claimer := Some(t)) else k
    case Lock => k.(session := x.(lock := Some(t)))
    case Send => k.(session := x.Deliver(th.resp), phase := Received(th.resp))
    case Close => k.(session := x.CloseChan())
    case Nil => k.(session := x.DropChan())
    case Discount => k.(counted := false)
    case Stop => k.(session := x.StopTimer())
    case Unlock => k.(session := x.(lock := None))
    case _ => k
  }

  /** One step of thread `t` inside DestorySessionAndRespPkg. */
  function Step(s: State, t: ThreadId): State
    requires t in s.threads && s.threads[t].call in s.calls && CanAdvance(s, t)
  {
    var th := s.threads[t];
    var k := s.calls[th.call];
    var x := k.session;
    s.(sessionMap := if th.pc.Delete? then s.sessionMap - {x.seqNo} else s.sessionMap,
       active := if th.pc.Discount? then s.active[x.node := s.active[x.node] - 1] else s.active)
     .Put(th.call, Touch(t, th, k))
     .PutThread(t, th.(pc := NextPc(th.pc, x.open)))
  }

  function Apply(s: State, a: Action): State
    requires Enabled(s, a)
  {
    match a
    case Reload(ns) =>
      s.(nodes := ns, active := s.active + map n | n in ns :: 0)
    case Begin(c, n) =>
      var q := (s.seqNo + 1) % SEQ_MODULUS;
      s.(seqNo := q, begun := s.begun + 1).Put(c, Call(Numbered, NewSession(q, n), false, None, None))
    case CountIn(c) =>
      var k := s.calls[c];
      var n := k.session.node;
      s.(active := s.active[n := s.active[n] + 1]).Put(c, k.(phase := Counted, counted := true))
    case Create(c) => s.Put(c, s.calls[c].(phase := Created))
    case Insert(c) =>
      var k := s.calls[c];
      s.(sessionMap := s.sessionMap[k.session.seqNo := c]).Put(c, k.(phase := Inserted))
    case EncodeFail(c, t) =>
      s.Put(c, s.calls[c].(phase := Failed)).PutThread(t, Thread(c, Caller, None, Delete))
    case SendRequest(c, pkg) =>
      s.(requests := s.requests + {Message(c, pkg)}).Put(c, s.calls[c].(phase := Sent))
    case Spawn(c, t) =>
      s.Put(c, s.calls[c].(phase := Spawned, timerThread := Some(t)))
       .PutThread(t, Thread(c, TimerGoroutine, None, Park))
    case Return(c) => s.Put(c, s.calls[c].(phase := Waiting))
    case Serve(m, pkg) =>
      s.(replies := s.replies + {Message(m.origin, pkg)},
         headKept := s.headKept && pkg.seqNo == m.pkg.seqNo)
    case Handle(t, m) =>
      if m.pkg.seqNo == 0 || m.pkg.seqNo !in s.sessionMap then s
      else s.PutThread(t, Thread(s.sessionMap[m.pkg.seqNo], Handler, Some(m), Delete))
    case Fire(c) =>
      var k := s.calls[c];
      s.Put(c, k.(session := k.session.(timer := Fired)))
    case Wake(t) =>
      var th := s.threads[t];
      var k := s.calls[th.call];
      s.Put(th.call, k.(session := k.session.(timer := Drained))).PutThread(t, th.(pc := Delete))
    case Advance(t) => Step(s, t)
  }

  /** How many steps of its own a thread at `pc` has left at most. */
  function Left(pc: Pc): nat {
    match pc
    case Park => 10
    case Delete => 9
    case Lock => 8
    case Check => 7
    case Send => 6
    case Close => 5
    case Nil => 4
    case Discount => 3
    case Stop => 2
    case Unlock => 1
    case Done => 0
  }

  /** The call whose record an action may change. */
  function Subject(s: State, a: Action): Option<CallId>
    requires Enabled(s, a)
  {
    match a
    case Begin(c, _) => Some(c)
    case CountIn(c) => Some(c)
    case Create(c) => Some(c)
    case Insert(c) => Some(c)
    case EncodeFail(c, _) => Some(c)
    case SendRequest(c, _) => Some(c)
    case Spawn(c, _) => Some(c)
    case Return(c) => Some(c)
    case Fire(c) => Some(c)
    case Wake(t) => Some(s.threads[t].call)
    case Advance(t) => Some(s.threads[t].call)
    case _ => None
  }

  /** A fresh client: no sessions, no nodes loaded yet. */
  const START: State := State(0, 0, {}, map[], map[], map[], map[], {}, {}, true)

  ghost predicate Next(s: State, s': State) {
    exists a :: Enabled(s, a) && s' == Apply(s, a)
  }

  /** A run: consecutive states of one execution. */
  ghost predicate IsRun(run: seq<State>) {
    && |run| > 0
    && forall i :: 0 <= i < |run| - 1 ==> Next(run[i], run[i + 1])
  }

  /** Reachable without the 64-bit sequence counter having gone all the way round. */
  ghost predicate Reachable(s: State) {
    exists run :: IsRun(run) && run[0] == START && run[|run| - 1] == s && s.begun < SEQ_MODULUS
  }
}
