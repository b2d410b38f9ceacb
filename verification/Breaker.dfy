/**
  circuit_breaker.go for one thread at a time: the breaker's record as a value, each decision of
  CbCall as a function on it, and the mutable record and name table that CbCall and CbConfigure use.
  Rates are reals: float32 rounding is not modelled.
 */
module Breaker {
  datatype Config = Config(failRate: real, limitRate: real, countBase: int,
                           failTime: int, limitTime: int, resetTime: int)

  const DEFAULTS: Config := Config(0.5, 0.2, 10, 30000, 30000, 60000)

  datatype Status = Closed | Open | Limit

  datatype Info = Info(invokeCount: int, failCount: int,
                       lastTrip: int, lastLimitPass: int, lastReset: int,
                       status: Status, config: Config)

  function NewInfo(now: int, config: Config): Info {
    Info(1, 0, 0, 0, now, Closed, config)
  }

  predicate HalfOpens(i: Info, now: int) {
    i.status.Open? && i.lastTrip + i.config.failTime < now
  }

  predicate Passes(i: Info, draw: real) {
    i.status.Closed? || (i.status.Limit? && draw < i.config.limitRate)
  }

  /** The trip test on the counts as read: `f` failures of `n` invocations, then the count again. */
  predicate TripsOn(f: int, n: int, again: int, config: Config)
    requires n != 0
  {
    f as real / n as real > config.failRate && again > config.countBase
  }

  predicate Recovers(i: Info, now: int) {
    i.status.Limit? && i.lastLimitPass + i.config.limitTime < now
  }

  predicate Resets(i: Info, now: int) {
    i.status.Closed? && i.lastReset + i.config.resetTime < now
  }

  function HalfOpen(i: Info, now: int): Info {
    if HalfOpens(i, now) then
      i.(status := Limit, failCount := 0, invokeCount := 1, lastLimitPass := now, lastTrip := 0)
    else i
  }

  function Recover(i: Info, now: int): Info {
    if Recovers(i, now) then i.(status := Closed, invokeCount := 1, failCount := 0, lastLimitPass := 0) else i
  }

  function ResetWindow(i: Info, now: int): Info {
    if Resets(i, now) then i.(lastReset := now, failCount := 0, invokeCount := 1) else i
  }

  datatype Verdict = Rejected | Ran

  /** One whole call that nobody overlaps; `ok` is what `run` returns if it is run. */
  function Attempt(i: Info, now: int, draw: real, ok: bool): (Info, Verdict)
    requires i.invokeCount > 0
  {
    var h := HalfOpen(i, now);
    if !Passes(h, draw) then (h, Rejected)
    else if TripsOn(h.failCount, h.invokeCount, h.invokeCount, h.config) then
      (h.(status := Open, lastTrip := now), Rejected)
    else
      var w := ResetWindow(Recover(h, now), now);
      (w.(invokeCount := w.invokeCount + 1, failCount := w.failCount + if ok then 0 else 1), Ran)
  }

  /** Every call that does not overlap another keeps the counts in order, so the trip test never
      divides by zero and its ratio stays below one. */
  lemma CountsInOrder(i: Info, now: int, draw: real, ok: bool)
    requires 0 <= i.failCount < i.invokeCount
    ensures var j := Attempt(i, now, draw, ok).0; 0 <= j.failCount < j.invokeCount
  {
  }

  lemma RatioAsProduct(f: int, n: int, rate: real)
    requires n > 0
    ensures f as real / n as real > rate <==> f as real > rate * n as real
  {
    var q := f as real / n as real;
    assert q * n as real == f as real;
    if q > rate {
      assert (q - rate) * n as real > 0.0;
    } else {
      assert (rate - q) * n as real >= 0.0;
    }
  }

  /** More failures than the rate allows, of enough invocations to judge. */
  predicate Tripping(i: Info) {
    i.failCount as real > i.config.failRate * i.invokeCount as real && i.invokeCount > i.config.countBase
  }

  /** What a rejected call leaves: of a trip, its time and the counts that caused it; of the start of a
      trial that drew too high, fresh counts; otherwise everything as it was. */
  predicate LeftByRejection(i: Info, j: Info, now: int, draw: real) {
    match i.status
    case Open =>
      if now <= i.lastTrip + i.config.failTime then j == i
      else
        j.config == i.config && j.lastReset == i.lastReset && j.invokeCount == 1 && j.failCount == 0 && j.lastLimitPass == now
        && (if draw < i.config.limitRate then j.status == Open && j.lastTrip == now else j.status == Limit && j.lastTrip == 0)
    case Limit =>
      if draw >= i.config.limitRate then j == i else j == i.(status := Open, lastTrip := now)
    case Closed => j == i.(status := Open, lastTrip := now)
  }

  /** What a call that ran leaves: one more invocation, one more failure if it failed, both counted from
      a fresh start if the call began a trial, ended one or found the counting window over. */
  predicate LeftByRun(i: Info, j: Info, now: int, ok: bool) {
    var recovers := i.status == Limit && now > i.lastLimitPass + i.config.limitTime;
    var closed := i.status == Closed || recovers || (i.status == Open && i.config.limitTime < 0);
    var resets := closed && now > i.lastReset + i.config.resetTime;
    var anew := i.status == Open || recovers || resets;
    && j.config == i.config
    && j.status == (if closed then Closed else Limit)
    && j.invokeCount == (if anew then 1 else i.invokeCount) + 1
    && j.failCount == (if anew then 0 else i.failCount) + (if ok then 0 else 1)
    && j.lastReset == (if resets then now else i.lastReset)
    && j.lastTrip == (if i.status == Open then 0 else i.lastTrip)
    && j.lastLimitPass == (if i.status == Closed then i.lastLimitPass else if closed then 0
                           else if i.status == Open then now else i.lastLimitPass)
  }

  lemma AttemptRuns(i: Info, now: int, draw: real, ok: bool)
    requires 0 <= i.failCount < i.invokeCount
    ensures var ran := Attempt(i, now, draw, ok).1.Ran?;
            match i.status
            case Closed => ran <==> !Tripping(i)
            case Limit => ran <==> draw < i.config.limitRate && !Tripping(i)
            case Open =>
              if now <= i.lastTrip + i.config.failTime then !ran
              else ran <==> draw < i.config.limitRate && !(i.config.failRate < 0.0 && i.config.countBase < 1)
  {
    RatioAsProduct(i.failCount, i.invokeCount, i.config.failRate);
    RatioAsProduct(0, 1, i.config.failRate);
  }

  lemma AttemptLeaves(i: Info, now: int, draw: real, ok: bool)
    requires 0 <= i.failCount < i.invokeCount
    ensures var (j, verdict) := Attempt(i, now, draw, ok);
            if verdict.Ran? then LeftByRun(i, j, now, ok) else LeftByRejection(i, j, now, draw)
  {
  }

  class CbInfo {
    var invokeCount: int
    var failCount: int
    var lastTrip: int
    var lastLimitPass: int
    var lastReset: int
    var status: Status
    var config: Config

    constructor (now: int, config: Config)
      ensures View() == NewInfo(now, config) && Valid()
      ensures status == Closed && invokeCount == 1 && failCount == 0 && lastReset == now && this.config == config
    {
      invokeCount, failCount := 1, 0;
      lastTrip, lastLimitPass, lastReset := 0, 0, now;
      status := Closed;
      this.config := config;
    }

    ghost function View(): Info
      reads this
    {
      Info(invokeCount, failCount, lastTrip, lastLimitPass, lastReset, status, config)
    }

    ghost predicate Valid()
      reads this
    {
      0 <= failCount < invokeCount
    }

    /** Lines 97 to 172 of circuit_breaker.go, in one go. */
    method Invoke(now: int, draw: real, ok: bool) returns (verdict: Verdict)
      requires Valid()
      modifies this
      ensures Valid()
      ensures (View(), verdict) == Attempt(old(View()), now, draw, ok)
    {
      if status == Open && lastTrip + config.failTime < now {
        status := Limit;
        failCount := 0;
        invokeCount := 1;
        lastLimitPass := now;
        lastTrip := 0;
      }
      var pass := false;
      if status == Open {
        pass := false;
      } else if status == Limit {
        if draw < config.limitRate { pass := true; }
      } else {
        pass := true;
      }
      if !pass {
        return Rejected;
      }
      var f := failCount as real / invokeCount as real;
      if f > config.failRate && invokeCount > config.countBase {
        status := Open;
        lastTrip := now;
        return Rejected;
      }
      if status == Limit && lastLimitPass + config.limitTime < now {
        status := Closed;
        invokeCount := 1;
        failCount := 0;
        lastLimitPass := 0;
      }
      if status == Closed && lastReset + config.resetTime < now {
        lastReset := now;
        failCount := 0;
        invokeCount := 1;
      }
      invokeCount := invokeCount + 1;
      if !ok {
        failCount := failCount + 1;
      }
      return Ran;
    }

    /** CbCall once the record has been found. A closed breaker runs every call until the failures trip
        it; an open one none until failTime has passed; a half-open one those that draw below the limit
        rate, unless the failures trip it. */
    method Call(now: int, draw: real, ok: bool) returns (verdict: Verdict)
      requires Valid()
      modifies this
      ensures Valid()
      ensures (View(), verdict) == Attempt(old(View()), now, draw, ok)
      ensures var tripping := old(failCount as real > config.failRate * invokeCount as real && invokeCount > config.countBase);
              && (old(status) == Closed ==> (verdict.Ran? <==> !tripping))
              && (old(status) == Limit ==> (verdict.Ran? <==> draw < old(config.limitRate) && !tripping))
      ensures old(status) == Open && now <= old(lastTrip + config.failTime) ==> verdict.Rejected?
      ensures old(status) == Open && now > old(lastTrip + config.failTime) ==>
                (verdict.Ran? <==> draw < old(config.limitRate) && !old(config.failRate < 0.0 && config.countBase < 1))
      ensures verdict.Rejected? ==> LeftByRejection(old(View()), View(), now, draw)
      ensures verdict.Ran? ==> LeftByRun(old(View()), View(), now, ok)
    {
      AttemptRuns(View(), now, draw, ok);
      AttemptLeaves(View(), now, draw, ok);
      verdict := Invoke(now, draw, ok);
    }
  }

  class Breakers {
    var infos: map<string, CbInfo>

    constructor ()
      ensures infos == map[] && Valid()
    {
      infos := map[];
    }

    ghost predicate Valid()
      reads this, infos.Values
    {
      && (forall a :: a in infos ==> infos[a].Valid())
      && (forall a, b :: a in infos && b in infos && a != b ==> infos[a] != infos[b])
    }

    ghost function View(): map<string, Info>
      reads this, infos.Values
    {
      map a | a in infos :: infos[a].View()
    }

    method FindOrCreate(name: string, now: int, config: Config) returns (info: CbInfo)
      requires Valid()
      modifies this
      ensures Valid() && name in infos && infos[name] == info
      ensures if name in old(infos) then infos == old(infos)
              else infos == old(infos)[name := info] && fresh(info)
      ensures View() == if name in old(infos) then old(View()) else old(View())[name := NewInfo(now, config)]
    {
      if name !in infos {
        var i := new CbInfo(now, config);
        infos := infos[name := i];
      }
      info := infos[name];
    }

    twostate lemma OnlyOne(name: string)
      requires name in infos && infos == old(infos)
      requires forall a :: a in infos && a != name ==> infos[a].View() == old(infos[a].View())
      ensures View() == old(View())[name := infos[name].View()]
    {
    }

    method CbConfigure(name: string, now: int, config: Config)
      requires Valid()
      modifies this, infos.Values
      ensures Valid()
      ensures View() == old(View())[name := if name in old(View()) then old(View()[name]).(config := config)
                                            else NewInfo(now, config)]
    {
      var info := FindOrCreate(name, now, config);
      ghost var views := View();
      assert views[name] == info.View();
      label found:
      info.config := config;
      OnlyOne@found(name);
    }

    /** Calls on one name never touch the record of another. */
    method CbCall(name: string, now: int, draw: real, ok: bool) returns (verdict: Verdict)
      requires Valid()
      modifies this, infos.Values
      ensures Valid()
      ensures var before := if name in old(View()) then old(View()[name]) else NewInfo(now, DEFAULTS);
              && before.invokeCount > 0
              && verdict == Attempt(before, now, draw, ok).1
              && View() == old(View())[name := Attempt(before, now, draw, ok).0]
    {
      var info := FindOrCreate(name, now, DEFAULTS);
      ghost var views := View();
      assert views[name] == info.View();
      label called:
      verdict := info.Call(now, draw, ok);
      OnlyOne@called(name);
    }
  }
}
