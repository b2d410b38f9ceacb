/**
  The connection pool under concurrency, before shutdown. Acquire looks at curSize, then creates, then
  counts, without a lock; so several operations can be between the look and the count at once.
  Closing a connection and discounting it are two steps as well.

  `place`, `counted` and `peak` are history: where each connection is, which connections are in
  curSize, and the most operations that were ever between the size check and the count.
 */
module PoolThreads {
  import opened Wrappers
  import opened Sets

  type Conn = nat
  type Op = nat

  datatype Kind = Acquirer | Releaser | Closer | Drainer

  datatype Pc =
    | Try | SizeCheck | Wait | Create | Created(c: Conn) | Got(c: Conn)
    | CloseConn(c: Conn) | Discount(c: Conn)
    | Put(c: Conn)
    | Drain
    | Done
  {
    function Carried(): Option<Conn> {
      if Created? || Got? || CloseConn? || Discount? || Put? then Some(c) else None
    }

    predicate Creating() { Create? || Created? }
  }

  datatype Place = InChan | Held | With(o: Op) | Gone

  datatype State = State(maxSize: nat, chan: seq<Conn>, curSize: int, closed: set<Conn>,
                         kinds: map<Op, Kind>, ops: map<Op, Pc>,
                         place: map<Conn, Place>, counted: set<Conn>, peak: nat)
  {
    function CreatingOps(): set<Op> {
      set o | o in ops && ops[o].Creating()
    }

    /** The first connection of the channel goes to operation `o`. */
    function Receive(o: Op): State
      requires chan != []
    {
      this.(chan := chan[1..], place := place[chan[0] := With(o)])
    }

    function Go(o: Op, pc: Pc): State { this.(ops := ops[o := pc]) }

    function Discounted(c: Conn): State {
      this.(curSize := curSize - 1, counted := counted - {c}, place := place[c := Gone])
    }
  }

  datatype Action =
    | StartAcquire(o: Op)
    | StartRelease(o: Op, c: Conn)
    | StartClose(o: Op, c: Conn)
    | StartCloseAll(o: Op)
    | Break(c: Conn)
    | Advance(o: Op, choice: bool, made: Conn)

  predicate CanAdvance(s: State, o: Op, choice: bool, made: Conn)
    requires o in s.ops
  {
    match s.ops[o]
    case Wait => choice ==> s.chan != []
    case Create => choice ==> made !in s.place
    case Put(c) => |s.chan| < 2 * s.maxSize
    case Done => false
    case _ => true
  }

  predicate Enabled(s: State, a: Action) {
    match a
    case StartAcquire(o) => o !in s.ops
    case StartRelease(o, c) => o !in s.ops && c in s.place && s.place[c].Held?
    case StartClose(o, c) => o !in s.ops && c in s.place && s.place[c].Held?
    case StartCloseAll(o) => o !in s.ops
    case Break(c) => true
    case Advance(o, choice, made) => o in s.ops && o in s.kinds && CanAdvance(s, o, choice, made)
  }

  function Step(s: State, o: Op, choice: bool, made: Conn): State
    requires o in s.ops && o in s.kinds && CanAdvance(s, o, choice, made)
  {
    match s.ops[o]
    case Try => if s.chan != [] then s.Receive(o).Go(o, Got(s.chan[0])) else s.Go(o, SizeCheck)
    case SizeCheck =>
      if s.curSize >= s.maxSize then s.Go(o, Wait)
      else
        var n := |s.CreatingOps()| + 1;
        s.(peak := if s.peak < n then n else s.peak).Go(o, Create)
    case Wait => if choice then s.Receive(o).Go(o, Got(s.chan[0])) else s.Go(o, Done)
    case Create =>
      if choice then s.(place := s.place[made := With(o)]).Go(o, Created(made)) else s.Go(o, Done)
    case Created(c) => s.(curSize := s.curSize + 1, counted := s.counted + {c}).Go(o, Got(c))
    case Got(c) =>
      if c in s.closed then s.Go(o, Discount(c))
      else if choice then s.Go(o, CloseConn(c))
      else s.(place := s.place[c := Held]).Go(o, Done)
    case CloseConn(c) => s.(closed := s.closed + {c}).Go(o, Discount(c))
    case Discount(c) =>
      s.Discounted(c).Go(o, match s.kinds[o] case Acquirer => Try case Drainer => Drain case _ => Done)
    case Put(c) => s.(chan := s.chan + [c], place := s.place[c := InChan]).Go(o, Done)
    case Drain => if s.chan != [] then s.Receive(o).Go(o, CloseConn(s.chan[0])) else s.Go(o, Done)
  }

  function Apply(s: State, a: Action): State
    requires Enabled(s, a)
  {
    match a
    case StartAcquire(o) => s.(kinds := s.kinds[o := Acquirer]).Go(o, Try)
    case StartRelease(o, c) => s.(kinds := s.kinds[o := Releaser], place := s.place[c := With(o)]).Go(o, Put(c))
    case StartClose(o, c) => s.(kinds := s.kinds[o := Closer], place := s.place[c := With(o)]).Go(o, CloseConn(c))
    case StartCloseAll(o) => s.(kinds := s.kinds[o := Drainer]).Go(o, Drain)
    case Break(c) => s.(closed := s.closed + {c})
    case Advance(o, choice, made) => Step(s, o, choice, made)
  }

  function Elements(chan: seq<Conn>): set<Conn> {
    set c | c in chan
  }

  predicate Distinct(chan: seq<Conn>) {
    forall i, j :: 0 <= i < j < |chan| ==> chan[i] != chan[j]
  }

  /** What NewGenericPool leaves: at most maxSize connections, all idle and counted. */
  predicate Start(s: State) {
    && 1 <= s.maxSize && |s.chan| <= s.maxSize && Distinct(s.chan)
    && s == State(s.maxSize, s.chan, |s.chan|, s.closed, map[], map[],
                  map c | c in Elements(s.chan) :: InChan, Elements(s.chan), 1)
  }

  ghost predicate Next(s: State, s': State) {
    exists a :: Enabled(s, a) && s' == Apply(s, a)
  }

  ghost predicate IsRun(run: seq<State>) {
    && |run| > 0 && Start(run[0])
    && forall i :: 0 <= i < |run| - 1 ==> Next(run[i], run[i + 1])
  }

  ghost predicate Reachable(s: State) {
    exists run :: IsRun(run) && run[|run| - 1] == s
  }

  // ---- The invariant ----

  predicate ConnInv(s: State, c: Conn)
    requires c in s.place
  {
    match s.place[c]
    case InChan => c in s.chan && c in s.counted
    case Held => c !in s.chan && c in s.counted
    case With(o) => c !in s.chan && o in s.ops && s.ops[o].Carried() == Some(c) && (c in s.counted <==> !s.ops[o].Created?)
    case Gone => c !in s.chan && c !in s.counted
  }

  predicate OpInv(s: State, o: Op)
    requires o in s.ops
  {
    && o in s.kinds
    && (s.ops[o].Carried().Some? ==>
          var c := s.ops[o].Carried().value; c in s.place && s.place[c] == With(o))
  }

  predicate SizeInv(s: State) {
    && s.curSize == |s.counted|
    && 1 <= s.maxSize && 1 <= s.peak
    && |s.CreatingOps()| <= s.peak
    && s.curSize + |s.CreatingOps()| <= s.maxSize - 1 + s.peak
  }

  predicate Inv(s: State) {
    && (forall c :: c in s.place ==> ConnInv(s, c))
    && (forall o :: o in s.ops ==> OpInv(s, o))
    && Distinct(s.chan) && (forall c :: c in s.chan ==> c in s.place) && s.counted <= s.place.Keys
    && SizeInv(s)
  }

  /** A step leaves alone every connection but the one its operation carries, the first of the channel
      and a new one. */
  lemma ConnSpared(s: State, o: Op, choice: bool, made: Conn, c: Conn)
    requires o in s.ops && OpInv(s, o) && CanAdvance(s, o, choice, made)
    requires c in s.place && ConnInv(s, c) && Distinct(s.chan)
    requires s.ops[o].Carried() != Some(c) && (s.chan != [] ==> c != s.chan[0])
    ensures ConnInv(Step(s, o, choice, made), c)
  {
    assert forall i :: 1 <= i < |s.chan| ==> s.chan[i] in s.chan[1..];
  }

  lemma ConnStep(s: State, o: Op, choice: bool, made: Conn, c: Conn)
    requires o in s.ops && OpInv(s, o) && CanAdvance(s, o, choice, made)
    requires c in Step(s, o, choice, made).place && (c in s.place ==> ConnInv(s, c))
    requires Distinct(s.chan) && (forall d :: d in s.chan ==> d in s.place) && s.counted <= s.place.Keys
    requires s.chan != [] ==> s.chan[0] in s.place && ConnInv(s, s.chan[0])
    requires s.ops[o].Carried().Some? ==> ConnInv(s, s.ops[o].Carried().value)
    ensures ConnInv(Step(s, o, choice, made), c)
  {
    if c in s.place && s.ops[o].Carried() != Some(c) && (s.chan != [] ==> c != s.chan[0]) {
      ConnSpared(s, o, choice, made, c);
    }
  }

  lemma OpStep(s: State, o: Op, choice: bool, made: Conn, p: Op)
    requires o in s.ops && OpInv(s, o) && CanAdvance(s, o, choice, made)
    requires p in s.ops && OpInv(s, p)
    requires s.chan != [] ==> s.chan[0] in s.place && s.place[s.chan[0]].InChan?
    ensures OpInv(Step(s, o, choice, made), p)
  {
  }

  lemma ChanStep(s: State, o: Op, choice: bool, made: Conn)
    requires o in s.ops && OpInv(s, o) && CanAdvance(s, o, choice, made)
    requires Distinct(s.chan) && (forall d :: d in s.chan ==> d in s.place) && s.counted <= s.place.Keys
    requires s.ops[o].Carried().Some? ==> ConnInv(s, s.ops[o].Carried().value)
    ensures var s' := Step(s, o, choice, made);
            Distinct(s'.chan) && (forall d :: d in s'.chan ==> d in s'.place) && s'.counted <= s'.place.Keys
  {
  }

  lemma CreatingStep(s: State, o: Op, choice: bool, made: Conn)
    requires o in s.ops && o in s.kinds && CanAdvance(s, o, choice, made)
    ensures |Step(s, o, choice, made).CreatingOps()|
            == |s.CreatingOps()| - (if s.ops[o].Creating() then 1 else 0)
               + (if Step(s, o, choice, made).ops[o].Creating() then 1 else 0)
  {
    var s' := Step(s, o, choice, made);
    assert s'.ops == s.ops[o := s'.ops[o]];
    var x, x' := s.CreatingOps(), s'.CreatingOps();
    assert x - {o} == x' - {o};
    SizeAfter(x, x', o);
  }

  lemma SizeStep(s: State, o: Op, choice: bool, made: Conn)
    requires o in s.ops && OpInv(s, o) && CanAdvance(s, o, choice, made) && SizeInv(s)
    requires s.ops[o].Carried().Some? ==> ConnInv(s, s.ops[o].Carried().value)
    ensures SizeInv(Step(s, o, choice, made))
  {
    CreatingStep(s, o, choice, made);
  }

  lemma AdvanceConns(s: State, a: Action, c: Conn)
    requires Inv(s) && a.Advance? && Enabled(s, a) && c in Apply(s, a).place
    ensures ConnInv(Apply(s, a), c)
  {
    assert OpInv(s, a.o);
    assert c in s.place ==> ConnInv(s, c);
    assert s.chan != [] ==> s.chan[0] in s.place && ConnInv(s, s.chan[0]);
    ConnStep(s, a.o, a.choice, a.made, c);
  }

  lemma AdvanceOps(s: State, a: Action, p: Op)
    requires Inv(s) && a.Advance? && Enabled(s, a) && p in Apply(s, a).ops
    ensures OpInv(Apply(s, a), p)
  {
    assert OpInv(s, a.o) && OpInv(s, p);
    assert s.chan != [] ==> s.chan[0] in s.place && ConnInv(s, s.chan[0]);
    OpStep(s, a.o, a.choice, a.made, p);
  }

  lemma StartKeeps(s: State, a: Action)
    requires Inv(s) && !a.Advance? && Enabled(s, a)
    ensures Inv(Apply(s, a))
  {
    var s' := Apply(s, a);
    assert s'.CreatingOps() == s.CreatingOps();
    forall c | c in s'.place
      ensures ConnInv(s', c)
    {
      assert ConnInv(s, c);
    }
    forall o | o in s'.ops
      ensures OpInv(s', o)
    {
      if o in s.ops { assert OpInv(s, o); }
    }
  }

  lemma AdvanceKeeps(s: State, a: Action)
    requires Inv(s) && a.Advance? && Enabled(s, a)
    ensures Inv(Apply(s, a))
  {
    var s' := Apply(s, a);
    forall c | c in s'.place
      ensures ConnInv(s', c)
    {
      AdvanceConns(s, a, c);
    }
    forall o | o in s'.ops
      ensures OpInv(s', o)
    {
      AdvanceOps(s, a, o);
    }
    assert OpInv(s, a.o);
    ChanStep(s, a.o, a.choice, a.made);
    SizeStep(s, a.o, a.choice, a.made);
  }

  lemma {:induction false} ElementsSize(chan: seq<Conn>)
    requires Distinct(chan)
    ensures |Elements(chan)| == |chan|
  {
    if chan == [] {
    } else {
      var rest := chan[..|chan| - 1];
      ElementsSize(rest);
      assert Elements(chan) == Elements(rest) + {chan[|chan| - 1]};
    }
  }

  lemma StartInv(s: State)
    requires Start(s)
    ensures Inv(s)
  {
    ElementsSize(s.chan);
    assert s.CreatingOps() == {};
  }

  lemma NextKeeps(s: State, s': State)
    requires Inv(s) && Next(s, s')
    ensures Inv(s') && s'.maxSize == s.maxSize
  {
    var a :| Enabled(s, a) && s' == Apply(s, a);
    if a.Advance? { AdvanceKeeps(s, a); } else { StartKeeps(s, a); }
  }

  lemma {:induction false} RunKeeps(run: seq<State>, i: nat)
    requires IsRun(run) && i < |run|
    ensures Inv(run[i]) && run[i].maxSize == run[0].maxSize
  {
    if i == 0 {
      StartInv(run[0]);
    } else {
      RunKeeps(run, i - 1);
      assert Next(run[i - 1], run[i - 1 + 1]);
      NextKeeps(run[i - 1], run[i]);
    }
  }

  lemma ReachableInv(s: State)
    requires Reachable(s)
    ensures Inv(s)
  {
    var run :| IsRun(run) && run[|run| - 1] == s;
    RunKeeps(run, |run| - 1);
  }

  // ---- Guarantees ----

  /** With at most k operations ever between the size check and the count, curSize overshoots maxSize
      by at most k - 1, counting the ones still on their way. */
  lemma OvershootBound(s: State, k: nat)
    requires Reachable(s) && 1 <= k && s.peak <= k
    ensures s.curSize + |s.CreatingOps()| <= s.maxSize - 1 + k
    ensures k == 1 ==> s.curSize <= s.maxSize
  {
    ReachableInv(s);
  }

  /** Counted connections that are not idle: with an operation or with a holder. */
  function Out(s: State): set<Conn> {
    set c | c in s.counted && c in s.place && !s.place[c].InChan?
  }

  /** curSize is exactly the idle connections plus those out and not yet discounted. Every connection
      is in one place: idle, held, with the one operation that carries it, or gone. */
  lemma Conservation(s: State)
    requires Reachable(s)
    ensures s.curSize == |s.chan| + |Out(s)|
    ensures forall c :: c in s.place ==> (s.place[c].InChan? <==> c in s.chan)
    ensures forall c :: c in s.place && s.place[c].With? ==>
              s.place[c].o in s.ops && s.ops[s.place[c].o].Carried() == Some(c)
    ensures forall c :: c in s.place ==> (c in s.counted <==>
              s.place[c].InChan? || s.place[c].Held? || (s.place[c].With? && !s.ops[s.place[c].o].Created?))
  {
    ReachableInv(s);
    ElementsSize(s.chan);
    forall c | c in s.place
      ensures (s.place[c].InChan? <==> c in s.chan) && ConnInv(s, c)
    {
      assert ConnInv(s, c);
    }
    assert s.counted == Elements(s.chan) + Out(s);
    assert Elements(s.chan) !! Out(s);
  }

  /** While at most maxSize + 1 operations create at once, a Release never waits for room. */
  lemma ReleaseNeverBlocks(s: State, o: Op)
    requires Reachable(s) && s.peak <= s.maxSize + 1 && o in s.ops && s.ops[o].Put?
    ensures forall choice, made :: CanAdvance(s, o, choice, made)
  {
    ReachableInv(s);
    Conservation(s);
    assert OpInv(s, o);
    var c := s.ops[o].c;
    assert ConnInv(s, c);
    SubsetSize({c}, Out(s));
  }
}
