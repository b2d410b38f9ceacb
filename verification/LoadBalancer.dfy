/**
  load_balancer.go: the selection methods on the balancer object, and what repeated selection does to
  the nodes' loads. Random draws and the routing hash are parameters.
 */
module LoadBalancer {
  import opened SessionManager

  datatype Strategy = LeastActive | Random | Hash | RoundRobin | RandomWeight | Unknown

  datatype Selection = Selected(node: Node) | ServiceNotFound | InvalidStrategy | Panic

  // ---- Selection on values ----

  /** The last index holding the least value. */
  function LastMin(a: seq<int>): (i: nat)
    requires a != []
    ensures i < |a| && (forall j :: 0 <= j < |a| ==> a[i] <= a[j]) && (forall j :: i < j < |a| ==> a[i] < a[j])
  {
    if |a| == 1 then 0
    else
      var i := LastMin(a[..|a| - 1]);
      if a[i] >= a[|a| - 1] then |a| - 1 else i
  }

  /** The index picked for loads `a` at counter `q`, and the counter after it: a last index that is
      least hands over to round robin. */
  function PickActive(a: seq<int>, q: nat): (nat, nat)
    requires a != []
  {
    if LastMin(a) == |a| - 1 then ((q + 1) % |a|, q + 1) else (LastMin(a), q)
  }

  function Prefix(ws: seq<int>, i: nat): int
    requires i <= |ws|
  {
    if i == 0 then 0 else Prefix(ws, i - 1) + ws[i - 1]
  }

  /** The weighted scan from index `i` with `r` of the draw left; the first node if it runs out. */
  function Scan(ws: seq<int>, i: nat, r: int): nat
    requires i <= |ws|
    decreases |ws| - i
  {
    if i == |ws| then 0
    else if r - ws[i] <= 0 then i
    else Scan(ws, i + 1, r - ws[i])
  }

  lemma {:induction false} ScanInRange(ws: seq<int>, i: nat, r: int)
    requires ws != [] && i <= |ws|
    ensures Scan(ws, i, r) < |ws|
    decreases |ws| - i
  {
    if i == |ws| {
    } else {
      ScanInRange(ws, i + 1, r - ws[i]);
    }
  }

  function ScanIndex(ws: seq<int>, r: int): (i: nat)
    requires ws != []
    ensures i < |ws| && i == Scan(ws, 0, r)
  {
    ScanInRange(ws, 0, r);
    Scan(ws, 0, r)
  }

  // ---- The object ----

  function Actives(nodes: seq<Node>): (a: seq<int>)
    reads nodes
    ensures |a| == |nodes| && forall i :: 0 <= i < |nodes| ==> a[i] == nodes[i].active
  {
    seq(|nodes|, i requires 0 <= i < |nodes| reads nodes => nodes[i].active)
  }

  function Weights(nodes: seq<Node>): (ws: seq<int>)
    ensures |ws| == |nodes| && forall i :: 0 <= i < |nodes| ==> ws[i] == nodes[i].weight
  {
    seq(|nodes|, i requires 0 <= i < |nodes| => nodes[i].weight)
  }

  /** What each strategy selects at counter `q`, and the counter after it. */
  function Choice(nodes: seq<Node>, strategy: Strategy, q: nat, draw: nat, hash: nat): (r: (Selection, nat))
    reads nodes
    ensures r.0.Selected? ==> r.0.node in nodes
  {
    if nodes == [] then (ServiceNotFound, q)
    else match strategy
      case LeastActive =>
        var (i, q') := PickActive(Actives(nodes), q);
        (Selected(nodes[i]), q')
      case RoundRobin => (Selected(nodes[(q + 1) % |nodes|]), q + 1)
      case Random => (Selected(nodes[draw % |nodes|]), q)
      case Hash => (Selected(nodes[hash % |nodes|]), q)
      case RandomWeight =>
        var ws := Weights(nodes);
        var total := Prefix(ws, |ws|);
        (if total <= 0 then Panic else Selected(nodes[ScanIndex(ws, draw % total)]), q)
      case Unknown => (InvalidStrategy, q)
  }

  class Balancer {
    var nodeList: seq<Node>
    var counter: nat

    constructor ()
      ensures nodeList == [] && counter == 0
    {
      nodeList, counter := [], 0;
    }

    method SetNodes(nodes: seq<Node>)
      modifies this`nodeList
      ensures nodeList == nodes
    {
      nodeList := nodes;
    }

    method ByRoundRobin() returns (node: Node)
      requires nodeList != []
      modifies this`counter
      ensures counter == old(counter) + 1 && node == nodeList[counter % |nodeList|]
    {
      counter := counter + 1;
      node := nodeList[counter % |nodeList|];
    }

    method ByActive() returns (node: Node)
      requires nodeList != []
      modifies this`counter
      ensures var (i, q) := PickActive(Actives(nodeList), old(counter)); node == nodeList[i] && counter == q
    {
      ghost var a := Actives(nodeList);
      var n, index, active := |nodeList|, 0, nodeList[0].active;
      for i := 1 to n
        invariant index < i && active == a[index] && index == LastMin(a[..i])
      {
        assert a[..i + 1][..i] == a[..i];
        if active >= nodeList[i].active {
          active := nodeList[i].active;
          index := i;
        }
      }
      assert a[..n] == a;
      if index == n - 1 {
        node := ByRoundRobin();
      } else {
        node := nodeList[index];
      }
    }

    /** `draw` chooses the random number below the total; without a positive total there is none. */
    method ByRandomWeight(draw: nat) returns (s: Selection)
      requires nodeList != []
      ensures var ws := Weights(nodeList);
              var total := Prefix(ws, |ws|);
              s == if total <= 0 then Panic else Selected(nodeList[ScanIndex(ws, draw % total)])
    {
      ghost var ws := Weights(nodeList);
      var total := 0;
      for i := 0 to |nodeList|
        invariant total == Prefix(ws, i)
      {
        total := total + nodeList[i].weight;
      }
      if total <= 0 {
        return Panic;
      }
      var random: int := draw % total;
      ghost var r := random;
      for i := 0 to |nodeList|
        invariant Scan(ws, 0, r) == Scan(ws, i, random)
      {
        random := random - nodeList[i].weight;
        if random <= 0 {
          return Selected(nodeList[i]);
        }
      }
      s := Selected(nodeList[0]);
    }

    method GetNode(strategy: Strategy, draw: nat, hash: nat) returns (s: Selection)
      modifies this`counter
      ensures (s, counter) == Choice(nodeList, strategy, old(counter), draw, hash)
      ensures nodeList == [] ==> s.ServiceNotFound?
      ensures nodeList != [] && strategy == Unknown ==> s.InvalidStrategy?
      ensures nodeList != [] && strategy == LeastActive ==>
                s.Selected? && (counter == old(counter) ==> forall n :: n in nodeList ==> s.node.active <= n.active)
      ensures nodeList != [] && strategy == RoundRobin ==>
                counter == old(counter) + 1 && s == Selected(nodeList[counter % |nodeList|])
      ensures nodeList != [] && strategy == Hash ==> s == Selected(nodeList[hash % |nodeList|]) && counter == old(counter)
      ensures nodeList != [] && strategy == Random ==> s == Selected(nodeList[draw % |nodeList|]) && counter == old(counter)
    {
      if |nodeList| == 0 {
        return ServiceNotFound;
      }
      match strategy {
        case LeastActive =>
          var node := ByActive();
          return Selected(node);
        case Random => return Selected(nodeList[draw % |nodeList|]);
        case RandomWeight => s := ByRandomWeight(draw);
        case RoundRobin =>
          var node := ByRoundRobin();
          return Selected(node);
        case Hash => return Selected(nodeList[hash % |nodeList|]);
        case Unknown => return InvalidStrategy;
      }
    }
  }

  /** GetNode with the least-active strategy: neither the draw nor the hash matters. */
  method LeastActiveNode(lb: Balancer, draw: nat, hash: nat) returns (node: Node)
    requires lb.nodeList != []
    modifies lb`counter
    ensures var (i, q) := PickActive(Actives(lb.nodeList), old(lb.counter)); node == lb.nodeList[i] && lb.counter == q
  {
    var s := lb.GetNode(LeastActive, draw, hash);
    node := s.node;
  }

  function AfterArrival(a: seq<int>, q: nat): (r: (seq<int>, nat))
    requires a != []
  {
    var (i, q') := PickActive(a, q);
    (a[i := a[i] + 1], q')
  }

  lemma OneMore(before: seq<int>, after: seq<int>, q: nat)
    requires before != [] && |before| == |after|
    requires forall j :: 0 <= j < |before| ==> after[j] == before[j] + if j == PickActive(before, q).0 then 1 else 0
    ensures (after, PickActive(before, q).1) == AfterArrival(before, q)
  {
    var i := PickActive(before, q).0;
    assert after == before[i := before[i] + 1];
  }

  /** One request as RequestAsyncWithHead makes it: pick the node, open a session on it. */
  method Arrive(lb: Balancer, sessions: EasySessionManager, draw: nat, hash: nat) returns (session: EasySession)
    requires sessions.Valid() && lb.nodeList != []
    requires forall i, j :: 0 <= i < j < |lb.nodeList| ==> lb.nodeList[i] != lb.nodeList[j]
    modifies lb`counter, sessions, lb.nodeList
    ensures sessions.Valid() && lb.nodeList == old(lb.nodeList)
    ensures (Actives(lb.nodeList), lb.counter) == AfterArrival(old(Actives(lb.nodeList)), old(lb.counter))
    ensures session.node == lb.nodeList[PickActive(old(Actives(lb.nodeList)), old(lb.counter)).0]
  {
    ghost var before, nodes, q := Actives(lb.nodeList), lb.nodeList, lb.counter;
    ghost var i := PickActive(before, q).0;
    var node := LeastActiveNode(lb, draw, hash);
    assert node == nodes[i] && Actives(nodes) == before;
    session := sessions.InitSession(node);
    forall j | 0 <= j < |nodes|
      ensures nodes[j].active == before[j] + if j == i then 1 else 0
    {
      assert nodes[j] == nodes[i] <==> j == i;
    }
    OneMore(before, Actives(nodes), q);
  }
}
