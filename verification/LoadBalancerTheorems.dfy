/** What repeated selection does: least-active balance, exactness of weighted draws, round robin. */
module LoadBalancerTheorems {
  import opened LoadBalancer
  import opened SessionManager

  // ---- Least active ----

  /** ByActive returns a least-active node unless it hands over to round robin and that lands elsewhere. */
  lemma PicksLeastIff(a: seq<int>, q: nat)
    requires a != []
    ensures var i := PickActive(a, q).0;
            (forall j :: 0 <= j < |a| ==> a[i] <= a[j])
            <==> LastMin(a) != |a| - 1 || a[(q + 1) % |a|] == a[|a| - 1]
  {
  }

  /** For instance the busiest of three nodes is picked here. */
  lemma CanPickBusiest()
    ensures PickActive([1, 0, 0], 2).0 == 0
  {
    assert LastMin([1, 0, 0]) == 2;
  }

  function Arrivals(a: seq<int>, q: nat, k: nat): (r: (seq<int>, nat))
    requires a != []
    ensures |r.0| == |a|
  {
    if k == 0 then (a, q) else
      var (b, p) := Arrivals(a, q, k - 1);
      AfterArrival(b, p)
  }

  function Sum(a: seq<int>): int {
    if a == [] then 0 else Sum(a[..|a| - 1]) + a[|a| - 1]
  }

  lemma {:induction false} SumUpdate(a: seq<int>, i: nat, v: int)
    requires i < |a|
    ensures Sum(a[i := v]) == Sum(a) - a[i] + v
  {
    var n := |a| - 1;
    if i == n {
      assert a[i := v][..n] == a[..n];
    } else {
      SumUpdate(a[..n], i, v);
      assert a[i := v][..n] == a[..n][i := v];
    }
  }

  /** Climbing: round robin has taken the nodes from `lo` up to where the counter now points. */
  predicate Climbing(a: seq<int>, q: nat, m: int, lo: nat) {
    var n := |a|;
    && n > 0 && lo <= (q + 1) % n
    && forall x :: 0 <= x < n ==> a[x] == if lo <= x < (q + 1) % n then m + 1 else m
  }

  /** Falling: the nodes below `b` are still to be taken, from the highest down. */
  predicate Falling(a: seq<int>, q: nat, m: int, b: nat) {
    var n := |a|;
    && 0 < b < n && (q + 1) % n == 0
    && forall x :: 0 <= x < n ==> a[x] == if x < b then m else m + 1
  }

  lemma MulGap(a: int, n: nat)
    requires a >= 1
    ensures a * n >= n
  {
    assert (a - 1) * n >= 0;
  }

  lemma DivUnique(e: int, d: int, n: nat, s: nat, r: nat)
    requires s < n && r < n && e * n + s == d * n + r
    ensures e == d
  {
    if e > d { MulGap(e - d, n); }
    if e < d { MulGap(d - e, n); }
    assert (e - d) * n == e * n - d * n;
  }

  lemma ModIs(x: nat, d: nat, n: nat, r: nat)
    requires r < n && x == d * n + r
    ensures x % n == r
  {
    DivUnique(x / n, d, n, x % n, r);
  }

  lemma NextIndex(q: nat, n: nat)
    requires n > 0
    ensures (q + 2) % n == if (q + 1) % n == n - 1 then 0 else (q + 1) % n + 1
  {
    var d, r := (q + 1) / n, (q + 1) % n;
    assert q + 1 == d * n + r;
    if r == n - 1 {
      assert q + 2 == (d + 1) * n;
      ModIs(q + 2, d + 1, n, 0);
    } else {
      ModIs(q + 2, d, n, r + 1);
    }
  }

  lemma ClimbStep(a: seq<int>, q: nat, m: int, lo: nat)
    requires Climbing(a, q, m, lo)
    ensures var (b, p) := AfterArrival(a, q);
            || Climbing(b, p, m, lo) || Falling(b, p, m, lo) || Climbing(b, p, m + 1, 0)
  {
    var n := |a|;
    assert LastMin(a) == n - 1;
    NextIndex(q, n);
    var (b, p) := AfterArrival(a, q);
    assert p == q + 1 && b == a[(q + 1) % n := m + 1];
    if (q + 1) % n < n - 1 {
      assert Climbing(b, p, m, lo);
    } else if lo > 0 {
      assert Falling(b, p, m, lo);
    } else {
      assert Climbing(b, p, m + 1, 0);
    }
  }

  lemma FallStep(a: seq<int>, q: nat, m: int, lo: nat)
    requires Falling(a, q, m, lo)
    ensures var (b, p) := AfterArrival(a, q);
            Falling(b, p, m, lo - 1) || Climbing(b, p, m + 1, 0)
  {
    assert a[0] == m && a[lo - 1] == m;
    assert LastMin(a) == lo - 1;
    var (b, p) := AfterArrival(a, q);
    if lo > 1 {
      assert Falling(b, p, m, lo - 1);
    } else {
      assert Climbing(b, p, m + 1, 0);
    }
  }

  lemma NextPhase(a: seq<int>, q: nat, m: int, lo: nat) returns (m': int, lo': nat)
    requires Climbing(a, q, m, lo) || Falling(a, q, m, lo)
    ensures var (b, p) := AfterArrival(a, q);
            Climbing(b, p, m', lo') || Falling(b, p, m', lo')
  {
    var (b, p) := AfterArrival(a, q);
    if Climbing(a, q, m, lo) {
      ClimbStep(a, q, m, lo);
    } else {
      FallStep(a, q, m, lo);
    }
    if Climbing(b, p, m, lo) || Falling(b, p, m, lo) {
      m', lo' := m, lo;
    } else if Climbing(b, p, m + 1, 0) {
      m', lo' := m + 1, 0;
    } else {
      m', lo' := m, lo - 1;
    }
  }

  lemma ArrivalSum(a: seq<int>, q: nat)
    requires a != []
    ensures Sum(AfterArrival(a, q).0) == Sum(a) + 1
  {
    var i := PickActive(a, q).0;
    SumUpdate(a, i, a[i] + 1);
  }

  lemma {:induction false} ArrivalsPhase(a: seq<int>, q: nat, k: nat) returns (m: int, lo: nat)
    requires a != [] && forall x :: 0 <= x < |a| ==> a[x] == a[0]
    ensures var (b, p) := Arrivals(a, q, k);
            && (Climbing(b, p, m, lo) || Falling(b, p, m, lo))
            && Sum(b) == Sum(a) + k
  {
    if k == 0 {
      m, lo := a[0], (q + 1) % |a|;
    } else {
      m, lo := ArrivalsPhase(a, q, k - 1);
      var (b, p) := Arrivals(a, q, k - 1);
      ArrivalSum(b, p);
      m, lo := NextPhase(b, p, m, lo);
    }
  }

  lemma {:induction false} SumBounds(a: seq<int>, m: int)
    requires forall x :: 0 <= x < |a| ==> m <= a[x] <= m + 1
    ensures |a| * m <= Sum(a) <= |a| * m + |a|
    ensures a != [] && (exists x :: 0 <= x < |a| && a[x] == m) ==> Sum(a) < |a| * m + |a|
  {
    if a == [] {
    } else {
      var n := |a| - 1;
      SumBounds(a[..n], m);
      assert (n + 1) * m == n * m + m;
      if x :| 0 <= x < |a| && a[x] == m && x != n {
        assert a[..n][x] == m;
      }
    }
  }

  lemma {:induction false} SumEqual(a: seq<int>, v: int)
    requires forall x :: 0 <= x < |a| ==> a[x] == v
    ensures Sum(a) == |a| * v
  {
    if a == [] {
    } else {
      SumEqual(a[..|a| - 1], v);
      assert |a| * v == (|a| - 1) * v + v;
    }
  }

  lemma QuotientIs(n: nat, v: int, k: nat, m: int)
    requires n > 0 && n * m <= n * v + k < n * m + n
    ensures m == v + k / n
  {
    var d, r := k / n, k % n;
    var s: nat := n * v + k - n * m;
    assert (m - v) * n + s == d * n + r;
    DivUnique(m - v, d, n, s, r);
  }

  /** From equal loads, k arrivals without departures give every node k / n or one more, wherever the
      counter starts; so two loads never differ by more than one. */
  lemma ArrivalsBalance(a: seq<int>, q: nat, k: nat)
    requires a != [] && forall x :: 0 <= x < |a| ==> a[x] == a[0]
    ensures var b := Arrivals(a, q, k).0;
            forall x :: 0 <= x < |a| ==> a[0] + k / |a| <= b[x] <= a[0] + k / |a| + 1
    ensures var b := Arrivals(a, q, k).0;
            forall x, y :: 0 <= x < |a| && 0 <= y < |a| ==> b[x] - b[y] <= 1
    ensures Sum(Arrivals(a, q, k).0) == |a| * a[0] + k
  {
    var (b, p) := Arrivals(a, q, k);
    var m, lo := ArrivalsPhase(a, q, k);
    SumEqual(a, a[0]);
    SumBounds(b, m);
    assert b[|b| - 1] == m || b[0] == m;
    QuotientIs(|a|, a[0], k, m);
  }

  /** The same for the objects: k requests from equal loads, none of which ends in between. */
  method ArriveTimes(lb: Balancer, sessions: EasySessionManager, k: nat, draw: nat, hash: nat)
    requires sessions.Valid() && lb.nodeList != []
    requires forall i, j :: 0 <= i < j < |lb.nodeList| ==> lb.nodeList[i] != lb.nodeList[j]
    requires forall i :: 0 <= i < |lb.nodeList| ==> lb.nodeList[i].active == lb.nodeList[0].active
    modifies lb`counter, sessions, lb.nodeList
    ensures sessions.Valid() && lb.nodeList == old(lb.nodeList)
    ensures var n, v := |lb.nodeList|, old(lb.nodeList[0].active);
            && Sum(Actives(lb.nodeList)) == n * v + k
            && (forall i :: 0 <= i < n ==> v + k / n <= lb.nodeList[i].active <= v + k / n + 1)
            && (forall i, j :: 0 <= i < n && 0 <= j < n ==> lb.nodeList[i].active - lb.nodeList[j].active <= 1)
  {
    ghost var a, q := Actives(lb.nodeList), lb.counter;
    for i := 0 to k
      invariant sessions.Valid() && lb.nodeList == old(lb.nodeList)
      invariant (Actives(lb.nodeList), lb.counter) == Arrivals(a, q, i)
    {
      var session := Arrive(lb, sessions, draw, hash);
    }
    ArrivalsBalance(a, q, k);
  }

  // ---- Round robin ----

  /** The index picked by the j-th pick after the counter stood at `q`. */
  function Turn(q: nat, n: nat, j: nat): nat
    requires n > 0
  {
    (q + j) % n
  }

  lemma SameTurn(q: nat, n: nat, j: nat, k: nat)
    requires 1 <= j <= k <= n && Turn(q, n, j) == Turn(q, n, k)
    ensures j == k
  {
    var e, f, x := (q + j) / n, (q + k) / n, Turn(q, n, j);
    assert q + j == e * n + x && q + k == f * n + x;
    assert (f - e) * n == k - j;
    DivUnique(f - e, 0, n, 0, k - j);
  }

  /** Any n picks in a row visit every node, and no node twice. */
  lemma RoundRobinCovers(q: nat, n: nat, x: nat) returns (k: nat)
    requires x < n
    ensures 1 <= k <= n && Turn(q, n, k) == x
    ensures forall j :: 1 <= j <= n && Turn(q, n, j) == x ==> j == k
  {
    var d, r := q / n, q % n;
    assert q == d * n + r;
    if x > r {
      k := x - r;
      ModIs(q + k, d, n, x);
    } else {
      k := x - r + n;
      assert (d + 1) * n == d * n + n;
      ModIs(q + k, d + 1, n, x);
    }
    forall j: nat | 1 <= j <= n && Turn(q, n, j) == x
      ensures j == k
    {
      if j <= k { SameTurn(q, n, j, k); } else { SameTurn(q, n, k, j); }
    }
  }

  /** Where the counter stands among `n` nodes, `j` picks further on, counted from the next pick. */
  lemma TurnInRotation(q: nat, n: nat, j: nat)
    requires j < n
    ensures var r := Turn(q, n, 1);
            Turn(q, n, j + 1) == if j < n - r then r + j else r + j - n
  {
    var d, r := (q + 1) / n, Turn(q, n, 1);
    assert q + 1 == d * n + r;
    if j < n - r {
      ModIs(q + 1 + j, d, n, r + j);
    } else {
      assert (d + 1) * n == d * n + n;
      ModIs(q + 1 + j, d + 1, n, r + j - n);
    }
  }

  /** As many selections as there are nodes return the node list itself, from where the counter stands
      on and round again: every node, exactly as often as it is in the list. */
  method TakeTurns(lb: Balancer, draw: nat, hash: nat) returns (picked: seq<Node>)
    requires lb.nodeList != []
    modifies lb`counter
    ensures var r := Turn(old(lb.counter), |lb.nodeList|, 1);
            picked == lb.nodeList[r..] + lb.nodeList[..r]
    ensures forall j :: 0 <= j < |picked| ==> picked[j] == lb.nodeList[Turn(old(lb.counter), |lb.nodeList|, j + 1)]
    ensures multiset(picked) == multiset(lb.nodeList)
    ensures lb.counter == old(lb.counter) + |lb.nodeList|
  {
    ghost var nodes, q, r := lb.nodeList, lb.counter, Turn(lb.counter, |lb.nodeList|, 1);
    picked := [];
    for i := 0 to |lb.nodeList|
      invariant lb.counter == q + i && lb.nodeList == nodes
      invariant picked == (nodes[r..] + nodes[..r])[..i]
      invariant forall j :: 0 <= j < i ==> picked[j] == nodes[Turn(q, |nodes|, j + 1)]
    {
      TurnInRotation(q, |nodes|, i);
      var s := lb.GetNode(RoundRobin, draw, hash);
      picked := picked + [s.node];
    }
    assert nodes == nodes[..r] + nodes[r..];
  }

  // ---- Hash and random ----

  /** The same hash on the same list picks the same node, whatever the draws and the counters. */
  method SameHash(lb: Balancer, other: Balancer, hash: nat, draw: nat, draw': nat) returns (s: Selection, s': Selection)
    requires lb.nodeList == other.nodeList != []
    modifies lb`counter, other`counter
    ensures s.Selected? && s == s' && s.node in lb.nodeList
    ensures lb.counter == old(lb.counter) && other.counter == old(other.counter)
  {
    s := lb.GetNode(Hash, draw, hash);
    s' := other.GetNode(Hash, draw', hash);
  }

  /** The hashes below the number of nodes pick every node of the list, in order, whatever is drawn. */
  method EveryHash(lb: Balancer, draw: nat) returns (picked: seq<Node>)
    modifies lb`counter
    ensures picked == lb.nodeList && lb.counter == old(lb.counter)
  {
    picked := [];
    for i := 0 to |lb.nodeList|
      invariant picked == lb.nodeList[..i] && lb.counter == old(lb.counter)
    {
      ModIs(i, 0, |lb.nodeList|, i);
      var s := lb.GetNode(Hash, draw, i);
      picked := picked + [s.node];
    }
  }

  /** And so do the draws for random selection, whatever the hash. */
  method EveryDraw(lb: Balancer, hash: nat) returns (picked: seq<Node>)
    modifies lb`counter
    ensures picked == lb.nodeList && lb.counter == old(lb.counter)
  {
    picked := [];
    for i := 0 to |lb.nodeList|
      invariant picked == lb.nodeList[..i] && lb.counter == old(lb.counter)
    {
      ModIs(i, 0, |lb.nodeList|, i);
      var s := lb.GetNode(Random, i, hash);
      picked := picked + [s.node];
    }
  }

  // ---- Weighted draws ----

  predicate Weighted(ws: seq<int>) {
    (forall i :: 0 <= i < |ws| ==> ws[i] >= 0) && Prefix(ws, |ws|) > 0
  }

  lemma {:induction false} PrefixGrows(ws: seq<int>, i: nat, j: nat)
    requires Weighted(ws) && i <= j <= |ws|
    ensures 0 <= Prefix(ws, i) <= Prefix(ws, j)
  {
    if j == 0 {
    } else {
      if i < j { PrefixGrows(ws, i, j - 1); } else { PrefixGrows(ws, i - 1, j - 1); }
    }
  }

  /** The scan from `i` stops at the first index whose prefix sum reaches the draw. */
  lemma {:induction false} ScanStops(ws: seq<int>, i: nat, draw: nat)
    requires Weighted(ws) && i < |ws| && draw < Prefix(ws, |ws|) && (i == 0 || Prefix(ws, i) < draw)
    ensures var s := Scan(ws, i, draw - Prefix(ws, i));
            i <= s < |ws| && draw <= Prefix(ws, s + 1) && (s == 0 || Prefix(ws, s) < draw)
    decreases |ws| - i
  {
    if draw <= Prefix(ws, i + 1) {
    } else {
      PrefixGrows(ws, i + 1, |ws|);
      ScanStops(ws, i + 1, draw);
    }
  }

  function Min(x: int, y: int): int { if x < y then x else y }

  /** The least draw beyond those that choose an index below `i`. */
  function Cut(ws: seq<int>, i: nat): int
    requires i <= |ws|
  {
    if i == 0 then 0 else Min(Prefix(ws, i) + 1, Prefix(ws, |ws|))
  }

  function Draws(ws: seq<int>, i: nat): set<int>
    requires ws != []
  {
    set r: int | 0 <= r < Prefix(ws, |ws|) && ScanIndex(ws, r) == i
  }

  lemma CutOrder(ws: seq<int>, i: nat, j: nat)
    requires Weighted(ws) && i <= j <= |ws|
    ensures 0 <= Cut(ws, i) <= Cut(ws, j) <= Prefix(ws, |ws|)
  {
    PrefixGrows(ws, i, j);
    PrefixGrows(ws, j, |ws|);
  }

  /** Exactly which draws choose node `i`: an interval. */
  lemma DrawsInterval(ws: seq<int>, i: nat, r: int)
    requires Weighted(ws) && i < |ws|
    ensures r in Draws(ws, i) <==> Cut(ws, i) <= r < Cut(ws, i + 1)
  {
    PrefixGrows(ws, i, i + 1);
    PrefixGrows(ws, i + 1, |ws|);
    if 0 <= r < Prefix(ws, |ws|) {
      ScanStops(ws, 0, r);
      var s := ScanIndex(ws, r);
      if s < i {
        PrefixGrows(ws, s + 1, i);
      } else if s > i {
        PrefixGrows(ws, i + 1, s);
      }
    }
  }

  lemma {:induction false} IntervalSize(s: set<int>, lo: int, hi: int)
    requires lo <= hi && forall r :: r in s <==> lo <= r < hi
    ensures |s| == hi - lo
    decreases hi - lo
  {
    if lo == hi {
      assert s == {};
    } else {
      IntervalSize(s - {lo}, lo + 1, hi);
    }
  }

  /** How many draws choose node `i`: its weight, one more for node 0, one less for the node that
      completes the total. */
  lemma DrawCount(ws: seq<int>, i: nat)
    requires Weighted(ws) && i < |ws|
    ensures |Draws(ws, i)| == ws[i] + (if i == 0 then 1 else 0)
                              - (if Prefix(ws, i) < Prefix(ws, i + 1) == Prefix(ws, |ws|) then 1 else 0)
  {
    forall r
      ensures r in Draws(ws, i) <==> Cut(ws, i) <= r < Cut(ws, i + 1)
    {
      DrawsInterval(ws, i, r);
    }
    CutOrder(ws, i, i + 1);
    IntervalSize(Draws(ws, i), Cut(ws, i), Cut(ws, i + 1));
    PrefixGrows(ws, i, i + 1);
    PrefixGrows(ws, i + 1, |ws|);
  }

  function TotalDraws(ws: seq<int>, i: nat): int
    requires ws != [] && i <= |ws|
  {
    if i == 0 then 0 else TotalDraws(ws, i - 1) + |Draws(ws, i - 1)|
  }

  lemma {:induction false} DrawsUpTo(ws: seq<int>, i: nat)
    requires Weighted(ws) && i <= |ws|
    ensures TotalDraws(ws, i) == Cut(ws, i)
  {
    if i == 0 {
    } else {
      var j := i - 1;
      DrawsUpTo(ws, j);
      forall r
        ensures r in Draws(ws, j) <==> Cut(ws, j) <= r < Cut(ws, i)
      {
        DrawsInterval(ws, j, r);
      }
      CutOrder(ws, j, i);
      IntervalSize(Draws(ws, j), Cut(ws, j), Cut(ws, i));
    }
  }

  /** Every draw below the total chooses a node by its weight, never by running out; each node is
      chosen by as many draws as its weight, give or take one. */
  lemma WeightedShares(ws: seq<int>)
    requires Weighted(ws)
    ensures TotalDraws(ws, |ws|) == Prefix(ws, |ws|)
    ensures forall i :: 0 <= i < |ws| ==> ws[i] - 1 <= |Draws(ws, i)| <= ws[i] + 1
    ensures forall r: nat :: r < Prefix(ws, |ws|) ==> r <= Prefix(ws, ScanIndex(ws, r) + 1)
  {
    DrawsUpTo(ws, |ws|);
    forall i | 0 <= i < |ws|
      ensures ws[i] - 1 <= |Draws(ws, i)| <= ws[i] + 1
    {
      DrawCount(ws, i);
    }
    forall r: nat | r < Prefix(ws, |ws|)
      ensures r <= Prefix(ws, ScanIndex(ws, r) + 1)
    {
      ScanStops(ws, 0, r);
    }
  }

  function Places<T(==)>(s: seq<T>, x: T): set<int> {
    set k: int | 0 <= k < |s| && s[k] == x
  }

  lemma {:induction false} CountIsPlaces<T>(s: seq<T>, x: T)
    ensures multiset(s)[x] == |Places(s, x)|
  {
    if s == [] {
    } else {
      var n := |s| - 1;
      var rest := s[..n];
      CountIsPlaces(rest, x);
      assert s == rest + [s[n]];
      assert Places(s, x) == Places(rest, x) + if s[n] == x then {n} else {};
    }
  }

  /** How often each of the nodes comes up if draw `r` picks the node that the scan finds for it. */
  lemma WeightedCounts<T>(nodes: seq<T>, ws: seq<int>, picked: seq<T>, i: nat)
    requires Weighted(ws) && |nodes| == |ws| && |picked| == Prefix(ws, |ws|) && i < |ws|
    requires forall a, b :: 0 <= a < b < |nodes| ==> nodes[a] != nodes[b]
    requires forall r :: 0 <= r < |picked| ==> picked[r] == nodes[ScanIndex(ws, r)]
    ensures multiset(picked)[nodes[i]] == ws[i] + (if i == 0 then 1 else 0)
              - (if Prefix(ws, i) < Prefix(ws, i + 1) == Prefix(ws, |ws|) then 1 else 0)
  {
    CountIsPlaces(picked, nodes[i]);
    assert Places(picked, nodes[i]) == Draws(ws, i);
    DrawCount(ws, i);
  }

  /** GetNode with weighted selection: neither the hash nor the counter matters. */
  method WeightedNode(lb: Balancer, draw: nat, hash: nat) returns (node: Node)
    requires var ws := Weights(lb.nodeList); Weighted(ws) && draw < Prefix(ws, |ws|)
    modifies lb`counter
    ensures node == lb.nodeList[ScanIndex(Weights(lb.nodeList), draw)] && lb.counter == old(lb.counter)
  {
    ghost var total := Prefix(Weights(lb.nodeList), |lb.nodeList|);
    ModIs(draw, 0, total, draw);
    var s := lb.GetNode(RandomWeight, draw, hash);
    node := s.node;
  }

  /** Over every draw below the total weight, GetNode picks each node as often as its weight, one more
      for the first, one less for the node that completes the total. */
  method EveryWeightedDraw(lb: Balancer, hash: nat) returns (picked: seq<Node>)
    requires Weighted(Weights(lb.nodeList))
    requires forall i, j :: 0 <= i < j < |lb.nodeList| ==> lb.nodeList[i] != lb.nodeList[j]
    modifies lb`counter
    ensures lb.counter == old(lb.counter)
    ensures var ws := Weights(lb.nodeList);
            && |picked| == Prefix(ws, |ws|)
            && forall i :: 0 <= i < |ws| ==>
                 multiset(picked)[lb.nodeList[i]] == ws[i] + (if i == 0 then 1 else 0)
                   - (if Prefix(ws, i) < Prefix(ws, i + 1) == Prefix(ws, |ws|) then 1 else 0)
  {
    ghost var nodes, ws := lb.nodeList, Weights(lb.nodeList);
    var total := 0;
    for i := 0 to |lb.nodeList|
      invariant total == Prefix(ws, i)
    {
      total := total + lb.nodeList[i].weight;
    }
    picked := [];
    for r := 0 to total
      invariant |picked| == r && lb.counter == old(lb.counter)
      invariant forall k :: 0 <= k < r ==> picked[k] == nodes[ScanIndex(ws, k)]
    {
      var node := WeightedNode(lb, r, hash);
      picked := picked + [node];
    }
    forall i | 0 <= i < |ws|
      ensures multiset(picked)[nodes[i]] == ws[i] + (if i == 0 then 1 else 0)
                - (if Prefix(ws, i) < Prefix(ws, i + 1) == Prefix(ws, |ws|) then 1 else 0)
    {
      WeightedCounts(nodes, ws, picked, i);
    }
  }
}
