/**
  The bounds of PoolThreads are attained, for every pool size. A crowd of k operations that all pass
  the size check together makes curSize reach maxSize - 1 + k; and maxSize + 2 of them are enough for a
  Release to find the channel full.
 */
module PoolScenarios {
  import opened PoolThreads

  lemma ReachStep(s: State, a: Action)
    requires Reachable(s) && Enabled(s, a)
    ensures Reachable(Apply(s, a))
  {
    var run :| IsRun(run) && run[|run| - 1] == s;
    var run' := run + [Apply(s, a)];
    forall i | 0 <= i < |run'| - 1
      ensures Next(run'[i], run'[i + 1])
    {
      if i < |run| - 1 { assert Next(run[i], run[i + 1]); } else { assert run'[i] == s; }
    }
    assert run'[|run'| - 1] == Apply(s, a);
  }

  // ---- One operation at a time ----

  lemma Come(s: State, o: Op) returns (s': State)
    requires Reachable(s) && s.chan == [] && o !in s.ops
    ensures Reachable(s')
    ensures s' == s.(kinds := s.kinds[o := Acquirer], ops := s.ops[o := SizeCheck])
    ensures s'.CreatingOps() == s.CreatingOps()
  {
    ReachStep(s, StartAcquire(o));
    var s1 := Apply(s, StartAcquire(o));
    ReachStep(s1, Advance(o, true, 0));
    s' := Apply(s1, Advance(o, true, 0));
    assert s'.ops == s.ops[o := SizeCheck];
  }

  /** An operation arrives, finds the pool empty and below its size, and goes on to create. */
  lemma Look(s: State, o: Op) returns (s': State)
    requires Reachable(s) && s.chan == [] && s.curSize < s.maxSize && o !in s.ops
    ensures Reachable(s')
    ensures var n := |s.CreatingOps()| + 1;
            s' == s.(kinds := s.kinds[o := Acquirer], ops := s.ops[o := Create], peak := if s.peak < n then n else s.peak)
  {
    var s1 := Come(s, o);
    var go := Advance(o, true, 0);
    ReachStep(s1, go);
    s' := Apply(s1, go);
    assert s'.ops == s.ops[o := Create];
  }

  /** It connects, is counted and hands an open connection to its caller. */
  lemma Obtain(s: State, o: Op, c: Conn) returns (s': State)
    requires Reachable(s) && o in s.ops && o in s.kinds && s.ops[o].Create? && c !in s.place && c !in s.closed
    ensures Reachable(s')
    ensures s' == s.(curSize := s.curSize + 1, counted := s.counted + {c},
                     place := s.place[c := Held], ops := s.ops[o := Done])
  {
    var make, keep := Advance(o, true, c), Advance(o, false, c);
    ReachStep(s, make);
    var s1 := Apply(s, make);
    ReachStep(s1, keep);
    var s2 := Apply(s1, keep);
    ReachStep(s2, keep);
    s' := Apply(s2, keep);
    assert s'.ops == s.ops[o := Done] && s'.place == s.place[c := Held];
  }

  lemma GiveBack(s: State, o: Op, c: Conn) returns (s': State)
    requires Reachable(s) && o !in s.ops && c in s.place && s.place[c].Held? && |s.chan| < 2 * s.maxSize
    ensures Reachable(s')
    ensures s' == s.(chan := s.chan + [c], kinds := s.kinds[o := Releaser],
                     place := s.place[c := InChan], ops := s.ops[o := Done])
  {
    ReachStep(s, StartRelease(o, c));
    var s1 := Apply(s, StartRelease(o, c));
    ReachStep(s1, Advance(o, true, 0));
    s' := Apply(s1, Advance(o, true, 0));
    assert s'.ops == s.ops[o := Done] && s'.place == s.place[c := InChan];
  }

  // ---- A crowd ----

  /** In a pool of size `m`, operations 0.. below `looked` have passed the size check; the first `made`
      of them have handed out connections of the same numbers and the others are about to create. */
  ghost predicate Crowd(s: State, m: nat, made: nat, looked: nat, peak: nat) {
    && Reachable(s) && s.maxSize == m && s.chan == [] && s.closed == {} && s.curSize == made <= looked && s.peak == peak
    && (forall c: Conn :: c in s.place <==> c < made)
    && (forall c: Conn :: c < made ==> s.place[c].Held?)
    && (forall o: Op :: o in s.ops <==> o < looked)
    && (forall o: Op :: o < looked ==> o in s.kinds && s.ops[o] == if o < made then Done else Create)
  }

  lemma {:induction false} Interval(s: set<nat>, lo: nat, hi: nat)
    requires lo <= hi && forall x :: x in s <==> lo <= x < hi
    ensures |s| == hi - lo
    decreases hi - lo
  {
    if lo == hi {
      assert s == {};
    } else {
      Interval(s - {lo}, lo + 1, hi);
    }
  }

  lemma CrowdLooks(s: State, m: nat, made: nat, looked: nat, peak: nat) returns (s': State)
    requires Crowd(s, m, made, looked, peak) && made < m
    ensures Crowd(s', m, made, looked + 1, if peak < looked - made + 1 then looked - made + 1 else peak)
  {
    Interval(s.CreatingOps(), made, looked);
    s' := Look(s, looked);
  }

  lemma CrowdObtains(s: State, m: nat, made: nat, looked: nat, peak: nat) returns (s': State)
    requires Crowd(s, m, made, looked, peak) && made < looked
    ensures Crowd(s', m, made + 1, looked, peak)
  {
    s' := Obtain(s, made, made);
  }

  lemma {:induction false} HoldUpTo(m: nat, n: nat) returns (s: State)
    requires 1 <= m && n <= m
    ensures Crowd(s, m, n, n, 1)
  {
    if n == 0 {
      s := State(m, [], 0, {}, map[], map[], map[], {}, 1);
      assert Elements([]) == {};
      assert s.place == map c | c in Elements([]) :: InChan;
      assert IsRun([s]);
    } else {
      var s0 := HoldUpTo(m, n - 1);
      var s1 := CrowdLooks(s0, m, n - 1, n - 1, 1);
      s := CrowdObtains(s1, m, n - 1, n, 1);
    }
  }

  lemma {:induction false} LookTogether(m: nat, k: nat) returns (s: State)
    requires 1 <= m && 1 <= k
    ensures Crowd(s, m, m - 1, m - 1 + k, k)
  {
    if k == 1 {
      var s0 := HoldUpTo(m, m - 1);
      s := CrowdLooks(s0, m, m - 1, m - 1, 1);
    } else {
      var s0 := LookTogether(m, k - 1);
      s := CrowdLooks(s0, m, m - 1, m - 2 + k, k - 1);
    }
  }

  lemma {:induction false} ObtainAll(m: nat, k: nat, i: nat) returns (s: State)
    requires 1 <= m && 1 <= k && i <= k
    ensures Crowd(s, m, m - 1 + i, m - 1 + k, k)
  {
    if i == 0 {
      s := LookTogether(m, k);
    } else {
      var s0 := ObtainAll(m, k, i - 1);
      s := CrowdObtains(s0, m, m - 2 + i, m - 1 + k, k);
    }
  }

  ghost predicate SizeStaysBelow(m: nat, k: nat, bound: int) {
    forall s: State :: Reachable(s) && s.maxSize == m && s.peak <= k ==> s.curSize <= bound
  }

  /** maxSize - 1 + k is the least bound on curSize for a pool of any size and a crowd of any size. */
  lemma OvershootIsExact(m: nat, k: nat, bound: int)
    requires 1 <= m && 1 <= k
    ensures SizeStaysBelow(m, k, bound) <==> m - 1 + k <= bound
  {
    if m - 1 + k <= bound {
      forall s: State | Reachable(s) && s.maxSize == m && s.peak <= k
        ensures s.curSize <= bound
      {
        OvershootBound(s, k);
      }
    } else {
      var s := ObtainAll(m, k, k);
      assert Reachable(s) && s.peak <= k && s.curSize > bound;
    }
  }

  // ---- They all come back ----

  /** Of the `n` connections held, the first `j` have been released. */
  ghost predicate Returned(s: State, m: nat, n: nat, j: nat, peak: nat) {
    && Reachable(s) && s.maxSize == m && s.peak == peak && |s.chan| == j
    && (forall c: Conn :: j <= c < n ==> c in s.place && s.place[c].Held?)
    && (forall o :: o in s.ops ==> o < n + j)
  }

  lemma {:induction false} GiveAllBack(m: nat, k: nat, j: nat) returns (s: State)
    requires 1 <= m && 1 <= k && j <= 2 * m && j <= m - 1 + k
    ensures Returned(s, m, m - 1 + k, j, k)
  {
    if j == 0 {
      s := ObtainAll(m, k, k);
    } else {
      var s0 := GiveAllBack(m, k, j - 1);
      s := GiveBack(s0, m - 1 + k + j - 1, j - 1);
    }
  }

  /** For every size: once maxSize + 2 operations have created at once, a Release can find the
      channel full. */
  lemma ReleaseCanBlock(m: nat)
    requires 1 <= m
    ensures exists s: State, o: Op :: Reachable(s) && s.maxSize == m && s.peak == m + 2
              && o in s.ops && s.ops[o].Put? && !CanAdvance(s, o, true, 0)
  {
    var s := GiveAllBack(m, m + 2, 2 * m);
    var o, c := 4 * m + 1, 2 * m;
    ReachStep(s, StartRelease(o, c));
    var s' := Apply(s, StartRelease(o, c));
    assert s'.ops[o] == Put(c) && |s'.chan| == 2 * m;
  }

  ghost predicate NoReleaseBlocks(m: nat, k: nat) {
    forall s: State, o: Op :: Reachable(s) && s.maxSize == m && s.peak <= k && o in s.ops && s.ops[o].Put? ==>
      CanAdvance(s, o, true, 0)
  }

  /** Exactly how many operations may create at once for no Release ever to wait for room. */
  lemma NoReleaseBlocksIff(m: nat, k: nat)
    requires 1 <= m
    ensures NoReleaseBlocks(m, k) <==> k <= m + 1
  {
    if k <= m + 1 {
      forall s: State, o: Op | Reachable(s) && s.maxSize == m && s.peak <= k && o in s.ops && s.ops[o].Put?
        ensures CanAdvance(s, o, true, 0)
      {
        ReleaseNeverBlocks(s, o);
      }
    } else {
      ReleaseCanBlock(m);
    }
  }
}
