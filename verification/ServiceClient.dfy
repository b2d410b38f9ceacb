/**
  service_client.go's request path over the objects it uses: balancer, connections, session table, head
  and codec. What the node manager finds, random draws, the routing hash, the clock and whether a dial
  succeeds are parameters.
 */
module ServiceClient {
  import opened Wrappers
  import opened Package
  import opened Connection
  import opened Pool
  import opened ConnectionTable
  import opened SessionManager
  import opened LoadBalancer
  import P = SessionProtocol

  const ERROR_INTERNAL_ERROR: int := 1001
  const ERROR_SERVICE_NOT_FOUND: int := 1002

  /** What asking for the node list gives. */
  datatype Lookup = NoManager | NotFound | Found(nodes: seq<Node>) {
    function Nodes(): seq<Node> { if Found? then nodes else [] }
  }

  /** How a request ends for its caller: Blocked is the caller waiting for ever in its own send. */
  datatype Answer = Ok(channel: Channel?) | Err(code: int) | Panicked | Blocked

  /** Whether a request is refused before anything is touched but the balancer, or gets a node. */
  datatype Verdict = Refused(answer: Answer) | On(node: Node)

  class ServiceClient {
    const serviceName: string
    const strategy: Strategy
    const lb: Balancer
    const sessions: EasySessionManager
    const pools: PoolTable

    constructor (serviceName: string, poolSize: int, strategy: Strategy)
      ensures this.serviceName == serviceName && this.strategy == strategy && pools.poolSize == poolSize
      ensures Valid() && fresh(lb) && fresh(sessions) && fresh(pools)
      ensures sessions.sessionMap == map[] && pools.poolMap == map[]
    {
      this.serviceName, this.strategy := serviceName, strategy;
      lb := new Balancer();
      sessions := new EasySessionManager();
      pools := new PoolTable(poolSize);
    }

    ghost predicate Valid()
      reads sessions, pools, pools.pools
      reads pools.conns`writeChan, pools.conns`writing, pools.conns`wire, pools.conns`queued
    {
      sessions.Valid() && pools.Valid()
    }

    function LbType(head: Head): Strategy {
      if head.routeKey != "" then Hash else strategy
    }

    /** A route key overrides the client's strategy; an empty node list and an unknown strategy are
        internal errors, an unknown service is its own. */
    function Decide(head: Head, lookup: Lookup, q: nat, draw: nat, hash: nat): (v: Verdict)
      reads lookup.Nodes()
      ensures v.On? ==> lookup.Found? && v.node in lookup.nodes
    {
      if head.service != serviceName || lookup.NoManager? then Refused(Err(ERROR_INTERNAL_ERROR))
      else if lookup.NotFound? then Refused(Err(ERROR_SERVICE_NOT_FOUND))
      else match Choice(lookup.nodes, LbType(head), q, draw, hash).0
        case Selected(node) => On(node)
        case Panic => Refused(Panicked)
        case _ => Refused(Err(ERROR_INTERNAL_ERROR))
    }

    /** The balancer is given the nodes and consulted, once, if the request gets that far. */
    predicate Consults(head: Head, lookup: Lookup) {
      head.service == serviceName && lookup.Found?
    }

    function Turn(head: Head, lookup: Lookup, q: nat, draw: nat, hash: nat): nat
      reads lookup.Nodes()
    {
      if Consults(head, lookup) then Choice(lookup.nodes, LbType(head), q, draw, hash).1 else q
    }

    /** Lines 109 to 132 of service_client.go: nothing but the balancer changes. */
    method Pick(head: EasyHead, lookup: Lookup, draw: nat, hash: nat) returns (v: Verdict)
      modifies lb
      ensures v == old(Decide(head.View(), lookup, lb.counter, draw, hash))
      ensures lb.counter == old(Turn(head.View(), lookup, lb.counter, draw, hash))
      ensures lb.nodeList == if Consults(head.View(), lookup) then lookup.nodes else old(lb.nodeList)
    {
      if head.service != serviceName {
        return Refused(Err(ERROR_INTERNAL_ERROR));
      }
      if lookup.NoManager? {
        return Refused(Err(ERROR_INTERNAL_ERROR));
      }
      var lbType := strategy;
      if head.routeKey != "" {
        lbType := Hash;
      }
      if lookup.NotFound? {
        return Refused(Err(ERROR_SERVICE_NOT_FOUND));
      }
      lb.SetNodes(lookup.nodes);
      var selection := lb.GetNode(lbType, draw, hash);
      match selection {
        case Selected(node) => v := On(node);
        case Panic => v := Refused(Panicked);
        case _ => v := Refused(Err(ERROR_INTERNAL_ERROR));
      }
    }

    /** What beginning a request on `node` leaves, when the table was `table` and the node's load `load`:
        number `q` in the head, the node's load one higher, and a fresh session of that number. If the
        request can be encoded, the session is registered and its channel returned; if not, it is out of
        the table again but stays counted, and the call never returns. */
    ghost predicate Begun(q: nat, table: map<nat, EasySession>, load: int, encoded: bool,
                          head: EasyHead, node: Node, r: Answer, session: EasySession)
      reads sessions, head, node, session, session.chan
    {
      && sessions.seqNo == q && head.seqNo == q && node.active == load + 1
      && session.Valid() && session.node == node && session.View() == P.NewSession(q, node.id)
      && sessions.sessionMap == (if encoded then table[q := session] else table - {q})
      && r == (if encoded then Ok(session.chan) else Blocked)
    }

    function NextNumber(): nat
      reads sessions
    {
      (sessions.seqNo + 1) % P.SEQ_MODULUS
    }

    /** The frame of the request that comes next: under the number its session will have. */
    static function NextFrame(heads: Codecs<Head>, format: Byte, head: Head, seqNo: nat, bodyData: seq<Byte>): Option<seq<Byte>> {
      Encoded(heads, format, head.(seqNo := (seqNo + 1) % P.SEQ_MODULUS), bodyData)
    }

    /** Lines 161 to 189 of service_client.go, less the send; `pkgData` is what is to be sent. */
    method Open(heads: Codecs<Head>, format: Byte, head: EasyHead, bodyData: seq<Byte>, node: Node)
      returns (r: Answer, session: EasySession, pkgData: Option<seq<Byte>>)
      requires sessions.Valid()
      modifies sessions, head`seqNo, node`active
      ensures sessions.Valid() && pkgData == NextFrame(heads, format, old(head.View()), old(sessions.seqNo), bodyData)
      ensures Begun(old(NextNumber()), old(sessions.sessionMap), old(node.active), pkgData.Some?, head, node, r, session)
      ensures fresh(session) && fresh(session.chan)
    {
      session := sessions.InitSession(node);
      head.seqNo := session.seqNo;
      assert head.View() == old(head.View()).(seqNo := session.seqNo);
      var data := EncodeWithBodyData(heads, format, head.View(), bodyData);
      if data == null {
        // the caller's own destroy: out of the table, and then its send finds nobody to receive
        sessions.sessionMap := sessions.sessionMap - {session.seqNo};
        r, pkgData := Blocked, None;
      } else {
        r, pkgData := Ok(session.respChan), Some(data[..]);
      }
    }

    twostate predicate Untouched(head: EasyHead)
      reads sessions, head
    {
      && sessions.sessionMap == old(sessions.sessionMap) && sessions.seqNo == old(sessions.seqNo)
      && head.View() == old(head.View())
    }

    /** Lines 161 to 189: the request is begun, and sent over `conn` if it can be encoded. */
    method Begin(heads: Codecs<Head>, format: Byte, head: EasyHead, bodyData: seq<Byte>, node: Node, conn: EasyConnection,
                 ghost frame: Option<seq<Byte>>)
      returns (r: Answer, session: EasySession)
      requires sessions.Valid() && pools.Valid() && conn in pools.conns && !conn.isClose
      requires frame == NextFrame(heads, format, head.View(), sessions.seqNo, bodyData)
      modifies sessions, head`seqNo, node`active, conn`writeChan, conn`queued
      ensures sessions.Valid() && pools.Valid()
      ensures Begun(old(NextNumber()), old(sessions.sessionMap), old(node.active), frame.Some?, head, node, r, session)
      ensures fresh(session) && fresh(session.chan)
      ensures conn.queued == old(conn.queued) + ToSend(frame, false) && conn.isClose == old(conn.isClose)
      ensures conn.writeChan == old(conn.writeChan) + Somes(ToSend(frame, false)) && conn.writing == old(conn.writing)
      ensures pools.conns == old(pools.conns) && lb.counter == old(lb.counter) && lb.nodeList == old(lb.nodeList)
    {
      var pkgData;
      r, session, pkgData := Open(heads, format, head, bodyData, node);
      if pkgData.Some? {
        pools.SendOn(conn, pkgData.value);
      }
    }

    /** The same with the connection: a node that cannot be reached is an internal error. */
    ghost function Plan(head: Head, lookup: Lookup, draw: nat, hash: nat, now: int, warm: seq<bool>, connects: bool): Verdict
      requires pools.Valid()
      reads lb, lookup.Nodes(), pools, pools.pools, pools.conns
    {
      var d := Decide(head, lookup, lb.counter, draw, hash);
      if d.On? && !pools.Reaches(d.node.address, now, warm, connects) then Refused(Err(ERROR_INTERNAL_ERROR)) else d
    }

    /** What is refused, by its own guard, and with which code. */
    lemma PlanRefuses(head: Head, lookup: Lookup, draw: nat, hash: nat, now: int, warm: seq<bool>, connects: bool)
      requires pools.Valid()
      ensures var p := Plan(head, lookup, draw, hash, now, warm, connects);
              && (head.service != serviceName ==> p == Refused(Err(1001)))
              && (lookup.NoManager? ==> p == Refused(Err(1001)))
              && (p == Refused(Err(1002)) <==> head.service == serviceName && lookup.NotFound?)
              && (lookup == Found([]) ==> p == Refused(Err(1001)))
              && (head.routeKey == "" && strategy == Unknown && lookup.Found? ==> p == Refused(Err(1001)))
              && (p.On? ==> p.node in lookup.Nodes() && pools.Reaches(p.node.address, now, warm, connects))
              && (lookup.Found? && (forall n :: n in lookup.nodes ==> !pools.Reaches(n.address, now, warm, connects)) ==>
                    p == Refused(Err(1001)) || p == Refused(Panicked))
              && (p == Refused(Panicked) ==> head.routeKey == "" && strategy == RandomWeight)
    {
    }

    /** A request with a route key goes to the node its hash names, and is refused only if that one cannot
        be reached. */
    lemma KeyNamesNode(head: Head, nodes: seq<Node>, draw: nat, hash: nat, now: int, warm: seq<bool>, connects: bool)
      requires pools.Valid() && head.service == serviceName && head.routeKey != "" && nodes != []
      ensures Plan(head, Found(nodes), draw, hash, now, warm, connects) ==
              if pools.Reaches(nodes[hash % |nodes|].address, now, warm, connects) then On(nodes[hash % |nodes|])
              else Refused(Err(1001))
    {
    }

    /** So two requests with route keys of the same hash go to the same node, whatever the keys, counters,
        draws and strategies. */
    lemma SameKeySameNode(other: ServiceClient, head: Head, head': Head, nodes: seq<Node>,
                          q: nat, q': nat, draw: nat, draw': nat, hash: nat)
      requires head.service == serviceName && head'.service == other.serviceName
      requires head.routeKey != "" && head'.routeKey != "" && nodes != []
      ensures Decide(head, Found(nodes), q, draw, hash) == other.Decide(head', Found(nodes), q', draw', hash)
      ensures Decide(head, Found(nodes), q, draw, hash) == On(nodes[hash % |nodes|])
    {
    }

    /** Without a key the hash has no influence, unless hashing is the client's strategy. */
    lemma HashUnused(head: Head, lookup: Lookup, q: nat, draw: nat, hash: nat, hash': nat)
      requires head.routeKey == "" && strategy != Hash
      ensures Decide(head, lookup, q, draw, hash) == Decide(head, lookup, q, draw, hash')
      ensures Turn(head, lookup, q, draw, hash) == Turn(head, lookup, q, draw, hash')
    {
    }

    /** Without a key it is the client's strategy that selects. */
    lemma StrategySelects(head: Head, nodes: seq<Node>, q: nat, draw: nat, hash: nat)
      requires head.service == serviceName && head.routeKey == "" && nodes != []
      ensures match strategy
              case RoundRobin =>
                && Decide(head, Found(nodes), q, draw, hash) == On(nodes[(q + 1) % |nodes|])
                && Turn(head, Found(nodes), q, draw, hash) == q + 1
              case Random => Decide(head, Found(nodes), q, draw, hash) == On(nodes[draw % |nodes|])
              case Hash => Decide(head, Found(nodes), q, draw, hash) == On(nodes[hash % |nodes|])
              case LeastActive =>
                var (i, q') := PickActive(Actives(nodes), q);
                Decide(head, Found(nodes), q, draw, hash) == On(nodes[i]) && Turn(head, Found(nodes), q, draw, hash) == q'
              case RandomWeight =>
                var ws := Weights(nodes);
                var total := Prefix(ws, |ws|);
                total > 0 ==> Decide(head, Found(nodes), q, draw, hash) == On(nodes[ScanIndex(ws, draw % total)])
              case Unknown => Decide(head, Found(nodes), q, draw, hash) == Refused(Err(1001))
    {
    }

    /** Lines 109 to 159: the node decided on and a usable connection of its pool, or the reason to
        refuse. Only the balancer and the pools change. */
    method Route(head: EasyHead, lookup: Lookup, draw: nat, hash: nat, now: int, warm: seq<bool>, connects: bool,
                 ghost plan: Verdict, ghost turn: nat)
      returns (v: Verdict, conn: EasyConnection?)
      requires pools.Valid() && |warm| == POOL_MIN_SIZE
      requires plan == Plan(head.View(), lookup, draw, hash, now, warm, connects)
      requires turn == Turn(head.View(), lookup, lb.counter, draw, hash)
      modifies lb, pools, pools.pools, pools.conns`isClose
      ensures pools.Valid() && v == plan && lb.counter == turn
      ensures lb.nodeList == if Consults(head.View(), lookup) then lookup.nodes else old(lb.nodeList)
      ensures v.Refused? <==> conn == null
      ensures conn != null ==>
                && conn in pools.conns && !conn.isClose && now <= conn.activeTime + POOL_ACTIVE_TIME
                && v.node.address in pools.poolMap && conn in pools.poolMap[v.node.address].idle
      ensures conn != null && conn !in old(pools.conns) ==> fresh(conn) && conn.Quiet() && conn.queued == []
      ensures conn != null && old(pools.Quiet()) ==> conn.Quiet()
    {
      conn := null;
      v := Pick(head, lookup, draw, hash);
      if v.On? {
        conn := pools.Connect(v.node.address, now, warm, connects);
        if conn == null {
          v := Refused(Err(ERROR_INTERNAL_ERROR));
        }
      }
    }

    /** A refused request leaves sessions, loads and head alone. Any other is begun on the node decided
        on and sent over an open, unexpired connection of that node's pool. What is decided, where the
        balancer then stands and the request's frame are given as `plan`, `turn` and `frame`. */
    method RequestAsyncWithHead(heads: Codecs<Head>, format: Byte, head: EasyHead, bodyData: seq<Byte>,
                                lookup: Lookup, draw: nat, hash: nat, now: int, warm: seq<bool>, connects: bool,
                                ghost plan: Verdict, ghost turn: nat, ghost frame: Option<seq<Byte>>)
      returns (r: Answer, session: EasySession?, conn: EasyConnection?)
      requires sessions.Valid() && pools.Valid() && |warm| == POOL_MIN_SIZE
      requires plan == Plan(head.View(), lookup, draw, hash, now, warm, connects)
      requires turn == Turn(head.View(), lookup, lb.counter, draw, hash)
      requires frame == NextFrame(heads, format, head.View(), sessions.seqNo, bodyData)
      modifies lb, sessions, head`seqNo, (if plan.On? then {plan.node} else {})`active, pools, pools.pools, pools.conns
      ensures sessions.Valid() && pools.Valid() && lb.counter == turn
      ensures lb.nodeList == if Consults(head.View(), lookup) then lookup.nodes else old(lb.nodeList)
      ensures head.service != serviceName || lookup.NoManager? || lookup == Found([]) ==> r == Err(1001)
      ensures r == Err(1002) <==> head.service == serviceName && lookup.NotFound?
      ensures head.routeKey == "" && strategy == Unknown && lookup.Found? ==> r == Err(1001)
      ensures head.service == serviceName && head.routeKey != "" && lookup.Found? && lookup.nodes != [] ==>
                var node := lookup.nodes[hash % |lookup.nodes|];
                if old(pools.Reaches(node.address, now, warm, connects)) then session != null && session.node == node
                else r == Err(1001)
      ensures plan.Refused? ==> r == plan.answer && session == null && conn == null && Untouched(head)
      ensures plan.On? ==>
                && session != null && fresh(session) && fresh(session.chan)
                && Begun(old(NextNumber()), old(sessions.sessionMap), old(plan.node.active), frame.Some?,
                         head, plan.node, r, session)
      ensures plan.On? ==>
                && conn != null && !conn.isClose && now <= conn.activeTime + POOL_ACTIVE_TIME && conn in pools.conns
                && (conn in old(pools.conns) || fresh(conn))
                && conn.queued == (if conn in old(pools.conns) then old(conn.queued) else []) + ToSend(frame, false)
      ensures plan.On? && old(pools.Quiet()) ==> conn.writing && conn.writeChan == Somes(ToSend(frame, false))
    {
      session := null;
      PlanRefuses(head.View(), lookup, draw, hash, now, warm, connects);
      if head.service == serviceName && head.routeKey != "" && lookup.Found? && lookup.nodes != [] {
        KeyNamesNode(head.View(), lookup.nodes, draw, hash, now, warm, connects);
      }
      ghost var q := NextNumber();
      var v;
      v, conn := Route(head, lookup, draw, hash, now, warm, connects, plan, turn);
      assert sessions.Valid() && Untouched(head) && NextNumber() == q;
      match v {
        case Refused(answer) => r := answer;
        case On(node) =>
          assert node.active == old(node.active);
          assert conn.queued == if conn in old(pools.conns) then old(conn.queued) else [];
          r, session := Begin(heads, format, head, bodyData, node, conn, frame);
      }
    }
  }
}
