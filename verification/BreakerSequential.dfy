/** CbCall without overlap: the threaded steps amount to Attempt, and exactly when a breaker trips. */
module BreakerSequential {
  import opened Wrappers
  import opened Breaker
  import opened BreakerThreads

  // ---- A call alone is an Attempt ----

  function Left(pc: Pc): nat {
    match pc
    case Arrived => 18
    case HalfTest => 17
    case HalfFail => 16
    case HalfInvoke => 15
    case Gate => 14
    case ReadFails => 13
    case ReadInvokes(_) => 12
    case TripTest(_, _) => 11
    case RecoverTest => 10
    case RecoverInvoke => 9
    case RecoverFail => 8
    case ResetTest => 7
    case ResetFail => 6
    case ResetInvoke => 5
    case Leave(_) => 4
    case Admitted => 3
    case Running => 2
    case Failing => 1
    case Ended(_, _) => 0
  }

  predicate Readable(pc: Pc) { pc.TripTest? ==> pc.n != 0 }

  /** Where a call at `th` gets to, and what it leaves of the record, if nobody else moves. */
  function Alone(i: Info, th: Thread, draw: real, ok: bool): (Info, Pc)
    decreases Left(th.pc)
  {
    if th.pc.Ended? || !Readable(th.pc) then (i, th.pc)
    else Alone(NextInfo(i, th), th.(pc := NextPc(i, th, draw, ok)), draw, ok)
  }

  lemma AloneFromLeave(i: Info, th: Thread, draw: real, ok: bool)
    requires th.pc == Leave(true)
    ensures Alone(i, th, draw, ok) ==
            (i.(invokeCount := i.invokeCount + 1, failCount := i.failCount + if ok then 0 else 1), Ended(true, ok))
  {
    var i1 := i.(invokeCount := i.invokeCount + 1);
    assert Alone(i, th, draw, ok) == Alone(i, th.(pc := Admitted), draw, ok);
    assert Alone(i, th.(pc := Admitted), draw, ok) == Alone(i1, th.(pc := Running), draw, ok);
    if ok {
      assert Alone(i1, th.(pc := Running), draw, ok) == Alone(i1, th.(pc := Ended(true, true)), draw, ok);
    } else {
      assert Alone(i1, th.(pc := Running), draw, ok) == Alone(i1, th.(pc := Failing), draw, ok);
      assert Alone(i1, th.(pc := Failing), draw, ok)
          == Alone(i1.(failCount := i1.failCount + 1), th.(pc := Ended(true, false)), draw, ok);
    }
  }

  lemma AloneFromReset(i: Info, th: Thread, draw: real, ok: bool)
    requires th.pc.ResetTest?
    ensures var w := ResetWindow(i, th.now);
            Alone(i, th, draw, ok) ==
            (w.(invokeCount := w.invokeCount + 1, failCount := w.failCount + if ok then 0 else 1), Ended(true, ok))
  {
    var w := ResetWindow(i, th.now);
    AloneFromLeave(w, th.(pc := Leave(true)), draw, ok);
    if Resets(i, th.now) {
      var i1 := i.(lastReset := th.now);
      assert Alone(i, th, draw, ok) == Alone(i1, th.(pc := ResetFail), draw, ok);
      assert Alone(i1, th.(pc := ResetFail), draw, ok)
          == Alone(i1.(failCount := 0), th.(pc := ResetInvoke), draw, ok);
    }
  }

  lemma AloneFromRecover(i: Info, th: Thread, draw: real, ok: bool)
    requires th.pc.RecoverTest?
    ensures Alone(i, th, draw, ok) == Alone(Recover(i, th.now), th.(pc := ResetTest), draw, ok)
  {
    if Recovers(i, th.now) {
      var i1 := i.(status := Closed, lastLimitPass := 0);
      assert Alone(i, th, draw, ok) == Alone(i1, th.(pc := RecoverInvoke), draw, ok);
      assert Alone(i1, th.(pc := RecoverInvoke), draw, ok)
          == Alone(i1.(invokeCount := 1), th.(pc := RecoverFail), draw, ok);
    }
  }

  lemma AloneRejected(i: Info, th: Thread, draw: real, ok: bool)
    requires th.pc == Leave(false)
    ensures Alone(i, th, draw, ok) == (i, Ended(false, false))
  {
    assert Alone(i, th, draw, ok) == Alone(i, th.(pc := Ended(false, false)), draw, ok);
  }

  lemma AloneFromGate(i: Info, th: Thread, draw: real, ok: bool)
    requires th.pc.Gate? && i.invokeCount > 0
    ensures Alone(i, th, draw, ok) ==
            if !Passes(i, draw) then (i, Ended(false, false))
            else if TripsOn(i.failCount, i.invokeCount, i.invokeCount, i.config) then
              (i.(status := Open, lastTrip := th.now), Ended(false, false))
            else Alone(i, th.(pc := RecoverTest), draw, ok)
  {
    AloneRejected(i, th.(pc := Leave(false)), draw, ok);
    AloneRejected(i.(status := Open, lastTrip := th.now), th.(pc := Leave(false)), draw, ok);
    if Passes(i, draw) {
      assert Alone(i, th, draw, ok) == Alone(i, th.(pc := ReadFails), draw, ok);
      assert Alone(i, th.(pc := ReadFails), draw, ok) == Alone(i, th.(pc := ReadInvokes(i.failCount)), draw, ok);
      assert Alone(i, th.(pc := ReadInvokes(i.failCount)), draw, ok)
          == Alone(i, th.(pc := TripTest(i.failCount, i.invokeCount)), draw, ok);
    }
  }

  lemma AloneFromArrival(i: Info, th: Thread, draw: real, ok: bool)
    requires th.pc.Arrived?
    ensures Alone(i, th, draw, ok) == Alone(HalfOpen(i, th.now), th.(pc := Gate), draw, ok)
  {
    assert Alone(i, th, draw, ok) == Alone(i, th.(pc := HalfTest), draw, ok);
    if HalfOpens(i, th.now) {
      var i1 := i.(status := Limit, lastLimitPass := th.now, lastTrip := 0);
      assert Alone(i, th.(pc := HalfTest), draw, ok) == Alone(i1, th.(pc := HalfFail), draw, ok);
      assert Alone(i1, th.(pc := HalfFail), draw, ok) == Alone(i1.(failCount := 0), th.(pc := HalfInvoke), draw, ok);
    }
  }

  lemma AloneIsAttempt(i: Info, now: int, draw: real, ok: bool)
    requires i.invokeCount > 0
    ensures var (j, verdict) := Attempt(i, now, draw, ok);
            Alone(i, Thread(now, Arrived, None, None, 0.0), draw, ok)
            == (j, if verdict.Ran? then Ended(true, ok) else Ended(false, false))
  {
    var th := Thread(now, Arrived, None, None, 0.0);
    AloneFromArrival(i, th, draw, ok);
    var h := HalfOpen(i, now);
    AloneFromGate(h, th.(pc := Gate), draw, ok);
    AloneFromRecover(h, th.(pc := RecoverTest), draw, ok);
    AloneFromReset(Recover(h, now), th.(pc := ResetTest), draw, ok);
  }

  function Repeat(s: State, t: Tid, draw: real, ok: bool, n: nat): Option<State>
    decreases n
  {
    if n == 0 then Some(s)
    else if Enabled(s, Advance(t, draw, ok)) then Repeat(Step(s, t, draw, ok), t, draw, ok, n - 1)
    else None
  }

  lemma {:induction false} AloneIgnoresHistory(i: Info, a: Thread, b: Thread, draw: real, ok: bool)
    requires a.now == b.now && a.pc == b.pc
    ensures Alone(i, a, draw, ok) == Alone(i, b, draw, ok)
    decreases Left(a.pc)
  {
    if a.pc.Ended? || !Readable(a.pc) {
    } else {
      AloneIgnoresHistory(NextInfo(i, a), a.(pc := NextPc(i, a, draw, ok)), b.(pc := NextPc(i, b, draw, ok)), draw, ok);
    }
  }

  /** Thread `t` alone in the step system gets where Alone says. */
  lemma {:induction false} AloneIsRepeat(s: State, t: Tid, draw: real, ok: bool) returns (n: nat)
    requires t in s.threads && s.info.invokeCount > 0
    requires s.threads[t].pc.Arrived? ==> s.lock.None?
    requires s.threads[t].pc.TripTest? ==> s.threads[t].pc.n > 0
    ensures Repeat(s, t, draw, ok, n).Some?
    ensures var s' := Repeat(s, t, draw, ok, n).value;
            t in s'.threads && (s'.info, s'.threads[t].pc) == Alone(s.info, s.threads[t], draw, ok)
    decreases Left(s.threads[t].pc)
  {
    if s.threads[t].pc.Ended? {
      n := 0;
    } else {
      var s1 := Step(s, t, draw, ok);
      var m := AloneIsRepeat(s1, t, draw, ok);
      AloneIgnoresHistory(s1.info, s1.threads[t], s.threads[t].(pc := s1.threads[t].pc), draw, ok);
      n := m + 1;
    }
  }

  /** A call that nobody overlaps does exactly what CbInfo.Call does in one go. */
  lemma UninterruptedCall(s: State, t: Tid, draw: real, ok: bool) returns (n: nat)
    requires t in s.threads && s.threads[t].pc.Arrived? && s.lock.None? && s.info.invokeCount > 0
    ensures Repeat(s, t, draw, ok, n).Some?
    ensures var s' := Repeat(s, t, draw, ok, n).value;
            var (i, verdict) := Attempt(s.info, s.threads[t].now, draw, ok);
            && s'.info == i && t in s'.threads
            && s'.threads[t].pc == if verdict.Ran? then Ended(true, ok) else Ended(false, false)
  {
    n := AloneIsRepeat(s, t, draw, ok);
    AloneIsAttempt(s.info, s.threads[t].now, draw, ok);
    AloneIgnoresHistory(s.info, s.threads[t], Thread(s.threads[t].now, Arrived, None, None, 0.0), draw, ok);
  }

  // ---- When a breaker whose calls all fail trips ----

  /** The trip test after `m` more failing calls. */
  predicate TripsAfter(i: Info, m: nat)
    requires i.invokeCount > 0
  {
    TripsOn(i.failCount + m, i.invokeCount + m, i.invokeCount + m, i.config)
  }

  predicate Least(i: Info, m: nat)
    requires i.invokeCount > 0
  {
    TripsAfter(i, m) && forall k: nat :: k < m ==> !TripsAfter(i, k)
  }

  /** The calls made at `nows`, all failing: the record left and how many were run. */
  function AllFail(i: Info, nows: seq<int>): (Info, nat)
    requires i.invokeCount > 0
    decreases |nows|
  {
    if nows == [] then (i, 0)
    else
      var (j, verdict) := Attempt(i, nows[0], 0.0, false);
      var (k, runs) := AllFail(j, nows[1..]);
      (k, runs + if verdict.Ran? then 1 else 0)
  }

  predicate NoReset(i: Info, nows: seq<int>) {
    forall k :: 0 <= k < |nows| ==> nows[k] <= i.lastReset + i.config.resetTime
  }

  lemma {:induction false} StaysOpen(i: Info, nows: seq<int>)
    requires i.invokeCount > 0 && i.status.Open?
    requires forall k :: 0 <= k < |nows| ==> nows[k] <= i.lastTrip + i.config.failTime
    ensures AllFail(i, nows) == (i, 0)
  {
    if nows == [] {
    } else {
      StaysOpen(i, nows[1..]);
    }
  }

  /** The breaker runs every call up to the least count that trips the test, and no call after it
      while failTime has not passed. */
  lemma {:induction false} TripsExactly(i: Info, nows: seq<int>, m: nat)
    requires i.invokeCount > 0 && i.status.Closed? && NoReset(i, nows) && Least(i, m)
    requires m < |nows| ==> forall k :: m <= k < |nows| ==> nows[k] <= nows[m] + i.config.failTime
    ensures AllFail(i, nows) ==
            if |nows| <= m then
              (i.(invokeCount := i.invokeCount + |nows|, failCount := i.failCount + |nows|), |nows|)
            else
              (i.(invokeCount := i.invokeCount + m, failCount := i.failCount + m, status := Open, lastTrip := nows[m]), m)
    decreases |nows|
  {
    if nows == [] {
    } else {
      var j := Attempt(i, nows[0], 0.0, false).0;
      if m == 0 {
        assert TripsAfter(i, 0);
        StaysOpen(j, nows[1..]);
      } else {
        assert !TripsAfter(i, 0);
        assert j == i.(invokeCount := i.invokeCount + 1, failCount := i.failCount + 1);
        forall k: nat
          ensures TripsAfter(j, k) == TripsAfter(i, k + 1)
        {
        }
        TripsExactly(j, nows[1..], m - 1);
      }
    }
  }

  /** With the defaults a new breaker opens after exactly ten failing runs. */
  lemma DefaultsTripAfterTen(now: int)
    ensures Least(NewInfo(now, DEFAULTS), 10)
  {
    var i := NewInfo(now, DEFAULTS);
    RatioAsProduct(10, 11, 0.5);
    assert TripsAfter(i, 10);
  }

  lemma TripBound(i: Info) returns (m: nat)
    requires 0 <= i.failCount < i.invokeCount && i.config.failRate < 1.0
    ensures TripsAfter(i, m)
  {
    var r := i.config.failRate;
    var q := Archimedes(r * i.invokeCount as real - i.failCount as real, 1.0 - r);
    m := q + if i.config.countBase > 0 then i.config.countBase else 0;
    TripArithmetic(i.failCount, i.invokeCount, m, q, r);
    RatioAsProduct(i.failCount + m, i.invokeCount + m, r);
  }

  lemma {:induction false} FirstTrip(i: Info, bound: nat) returns (m: nat)
    requires i.invokeCount > 0 && TripsAfter(i, bound)
    ensures Least(i, m) && m <= bound
  {
    if k: nat :| k < bound && TripsAfter(i, k) {
      m := FirstTrip(i, k);
    } else {
      m := bound;
    }
  }

  /** From a record in order, such a count exists exactly when the failure rate is below one. */
  lemma TripsIff(i: Info)
    requires 0 <= i.failCount < i.invokeCount
    ensures (exists m :: Least(i, m)) <==> i.config.failRate < 1.0
  {
    if i.config.failRate < 1.0 {
      var bound := TripBound(i);
      var m := FirstTrip(i, bound);
      assert Least(i, m);
    } else {
      forall m: nat
        ensures !TripsAfter(i, m)
      {
        var f, n := i.failCount + m, i.invokeCount + m;
        RatioAsProduct(f, n, i.config.failRate);
        assert i.config.failRate * n as real >= n as real;
      }
    }
  }

  lemma Archimedes(a: real, b: real) returns (m: nat)
    requires b > 0.0
    ensures m as real * b > a
  {
    var q := (a / b).Floor + 1;
    m := if q > 0 then q else 0;
    var x := m as real;
    assert x > a / b;
    assert (a / b) * b == a;
    assert (x - a / b) * b > 0.0;
  }

  lemma Monotone(x: real, y: real, b: real)
    requires x <= y && b > 0.0
    ensures x * b <= y * b
  {
    if x < y { assert (y - x) * b > 0.0; }
  }

  lemma TripArithmetic(f: int, n: int, m: nat, q: nat, r: real)
    requires r < 1.0 && q <= m && q as real * (1.0 - r) > r * n as real - f as real
    ensures (f + m) as real > r * (n + m) as real
  {
    var x, y := m as real, q as real;
    Monotone(y, x, 1.0 - r);
    assert x * (1.0 - r) == x - r * x;
    assert r * (n as real + x) == r * n as real + r * x;
    assert (n + m) as real == n as real + x;
  }

  // ---- How many calls a trial admits ----

  /** The least whole number not below `x`. */
  function Ceil(x: real): (c: int)
    ensures c as real - 1.0 < x <= c as real
  {
    -(-x).Floor
  }

  lemma BelowRate(k: nat, n: nat, rate: real)
    requires n > 0
    ensures k as real / n as real < rate <==> k < Ceil(rate * n as real)
  {
    var q := k as real / n as real;
    assert q * n as real == k as real;
    if q < rate {
      assert (rate - q) * n as real > 0.0;
    } else {
      assert (q - rate) * n as real >= 0.0;
    }
  }

  /** With the defaults, a trial admits two of ten evenly spread draws. */
  lemma DefaultsAdmitTwoOfTen()
    ensures Ceil(DEFAULTS.limitRate * 10.0) == 2
  {
  }

  lemma NonNegative(a: real, b: real)
    requires a >= 0.0 && b >= 0.0
    ensures a * b >= 0.0
  {
  }

  lemma ShareInRange(n: nat, rate: real)
    requires 0.0 <= rate <= 1.0
    ensures 0 <= Ceil(rate * n as real) <= n
  {
    var x := n as real;
    NonNegative(rate, x);
    NonNegative(1.0 - rate, x);
    assert (1.0 - rate) * x == x - rate * x;
  }

  lemma StaysBelow(f: int, n: int, m: int, rate: real)
    requires f as real <= rate * n as real && n <= m && rate >= 0.0
    ensures f as real <= rate * m as real
  {
    NonNegative(rate, (m - n) as real);
    assert rate * m as real == rate * n as real + rate * (m - n) as real;
  }

  /** One successful call of a trial: it runs exactly if it draws below the limit rate. */
  method TrialCall(info: CbInfo, now: int, draw: real) returns (ran: bool)
    requires info.Valid() && info.status == Limit && now <= info.lastLimitPass + info.config.limitTime
    requires info.failCount as real <= info.config.failRate * info.invokeCount as real
    modifies info
    ensures info.Valid() && ran == (draw < old(info.config.limitRate))
    ensures info.View() == old(info.View()).(invokeCount := old(info.invokeCount) + if ran then 1 else 0)
  {
    var verdict := info.Call(now, draw, true);
    ran := verdict.Ran?;
  }

  /** In a trial, of calls that draw 0, 1/n, 2/n and so on below 1 and all succeed, as many are run as
      the limit rate says: its share of n, rounded up. */
  method RunTrial(info: CbInfo, now: int, n: nat) returns (ran: nat)
    requires info.Valid() && info.status == Limit && now <= info.lastLimitPass + info.config.limitTime && n > 0
    requires info.failCount as real <= info.config.failRate * info.invokeCount as real && info.config.failRate >= 0.0
    requires 0.0 <= info.config.limitRate <= 1.0
    modifies info
    ensures ran == Ceil(old(info.config.limitRate) * n as real)
    ensures info.View() == old(info.View()).(invokeCount := old(info.invokeCount) + ran)
  {
    ghost var before, rate := info.View(), info.config.limitRate;
    ghost var share := Ceil(rate * n as real);
    ShareInRange(n, rate);
    ran := 0;
    for k := 0 to n
      invariant info.Valid() && info.View() == before.(invokeCount := before.invokeCount + ran)
      invariant ran == if k < share then k else share
    {
      BelowRate(k, n, rate);
      StaysBelow(before.failCount, before.invokeCount, before.invokeCount + ran, before.config.failRate);
      var runs := TrialCall(info, now, k as real / n as real);
      if runs {
        ran := ran + 1;
      }
    }
  }
}
