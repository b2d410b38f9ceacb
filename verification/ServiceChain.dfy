/**
  service_context.go and service_handler.go: the middleware list and the links between its elements,
  the handler that ends the chain, and the reply it sends.
 */
module ServiceChain {
  import opened Wrappers
  import opened Package
  import opened Connection
  import P = SessionProtocol
  import I = SessionInvariant
  import T = SessionTheorems

  const ERROR_METHOD_NOT_FOUND: int := 1002

  /** What an element of the chain runs: a registered middleware, or the handler's own last link. */
  datatype Func = Middleware(id: nat) | Final

  class MiddlewareInfo {
    const func: Func
    ghost const service: string  // the service it is registered for
    var next: MiddlewareInfo?

    constructor (func: Func, ghost service: string)
      ensures this.func == func && this.service == service && next == null
    {
      this.func := func;
      this.service := service;
      next := null;
    }
  }

  predicate Distinct(list: seq<MiddlewareInfo>) {
    forall i, j :: 0 <= i < j < |list| ==> list[i] != list[j]
  }

  /** Following `next` from the first element visits the list in order and then ends; the elements are
      distinct, so the path has no cycle. */
  ghost predicate Linked(list: seq<MiddlewareInfo>)
    reads list
  {
    && Distinct(list)
    && (forall i :: 0 <= i < |list| - 1 ==> list[i].next == list[i + 1])
    && (list != [] ==> list[|list| - 1].next == null)
  }

  function Funcs(list: seq<MiddlewareInfo>): (f: seq<Func>)
    ensures |f| == |list| && forall i :: 0 <= i < |list| ==> f[i] == list[i].func
  {
    seq(|list|, i requires 0 <= i < |list| => list[i].func)
  }

  /** Once its last element is linked to `last`, the list can be continued by it. */
  lemma Extended(list: seq<MiddlewareInfo>, last: MiddlewareInfo)
    requires Distinct(list) && last !in list && last.next == null
    requires forall i :: 0 <= i < |list| - 1 ==> list[i].next == list[i + 1]
    requires list != [] ==> list[|list| - 1].next == last
    ensures Linked(list + [last])
  {
    var path := list + [last];
    assert path[|list|] == last;
  }

  twostate lemma StaysLinked(list: seq<MiddlewareInfo>)
    requires old(Linked(list)) && forall m :: m in list ==> m.next == old(m.next)
    ensures Linked(list)
  {
  }

  function Elements(lists: map<string, seq<MiddlewareInfo>>): (e: set<MiddlewareInfo>)
    ensures forall name, m :: name in lists && m in lists[name] ==> m in e
  {
    set name, m | name in lists && m in lists[name] :: m
  }

  class ServiceContext {
    var middlewares: map<string, seq<MiddlewareInfo>>

    constructor ()
      ensures middlewares == map[] && Valid()
    {
      middlewares := map[];
    }

    ghost predicate Valid()
      reads this, Elements(middlewares)
    {
      && (forall name :: name in middlewares ==> Linked(middlewares[name]))
      && (forall name, m :: name in middlewares && m in middlewares[name] ==> m.service == name && m.func.Middleware?)
    }

    function List(name: string): seq<MiddlewareInfo>
      reads this
    {
      if name in middlewares then middlewares[name] else []
    }

    static method Append(list: seq<MiddlewareInfo>, id: nat, ghost service: string) returns (longer: seq<MiddlewareInfo>)
      requires Linked(list) && forall m :: m in list ==> m.service == service && m.func.Middleware?
      modifies if list == [] then {} else {list[|list| - 1]}
      ensures Linked(longer) && |longer| == |list| + 1 && longer[..|list|] == list && fresh(longer[|list|])
      ensures Funcs(longer) == Funcs(list) + [Middleware(id)]
      ensures forall m :: m in longer ==> m.service == service && m.func.Middleware?
    {
      var minfo := new MiddlewareInfo(Middleware(id), service);
      if |list| > 0 {
        list[|list| - 1].next := minfo;
      }
      longer := list + [minfo];
    }

    /** The longer list, not yet stored; the other services' lists stay linked. */
    method Extend(name: string, id: nat) returns (longer: seq<MiddlewareInfo>)
      requires Valid()
      modifies List(name)
      ensures Linked(longer) && |longer| == |List(name)| + 1 && longer[..|List(name)|] == List(name)
      ensures fresh(longer[|List(name)|]) && Funcs(longer) == Funcs(List(name)) + [Middleware(id)]
      ensures forall m :: m in longer ==> m.service == name && m.func.Middleware?
      ensures forall other :: other in middlewares && other != name ==> Linked(middlewares[other])
    {
      longer := Append(List(name), id, name);
      forall other | other in middlewares && other != name
        ensures Linked(middlewares[other])
      {
        assert forall m :: m in middlewares[other] ==> m.service == other;
        StaysLinked(middlewares[other]);
      }
    }

    /** The new element goes last in its service's list and is linked from the one before it. */
    method AddMiddleware(name: string, id: nat)
      requires Valid()
      modifies this, List(name)
      ensures Valid()
      ensures middlewares == old(middlewares)[name := List(name)]
      ensures |List(name)| == |old(List(name))| + 1 && List(name)[..|List(name)| - 1] == old(List(name))
      ensures fresh(List(name)[|List(name)| - 1])
      ensures Funcs(List(name)) == Funcs(old(List(name))) + [Middleware(id)]
    {
      var list := Extend(name, id);
      middlewares := middlewares[name := list];
    }
  }

  datatype Response = Response(format: Byte, head: Head, body: string) {
    function Pkg(): P.Package { P.Package(head.seqNo, head.ret, body) }
  }

  /** What the service's method does with the response: sets a result in the request's head, or puts
      in a head of its own; it may also choose another format. It answers each run of a request alike. */
  datatype Service =
    | KeepHead(format: Option<Byte>, ret: int, msg: string, body: string)
    | ReplaceHead(format: Option<Byte>, head: Head, body: string)

  function Chosen(format: Byte, other: Option<Byte>): Byte {
    if other.Some? then other.value else format
  }

  /** The reply to a request: under the request's own head unless the service replaced it. */
  function ReplyTo(format: Byte, req: Head, service: Option<Service>): Response {
    match service
    case None => Response(format, req.(ret := ERROR_METHOD_NOT_FOUND, msg := "method " + req.method_ + " not found"), "{}")
    case Some(KeepHead(other, ret, msg, body)) => Response(Chosen(format, other), req.(ret := ret, msg := msg), body)
    case Some(ReplaceHead(other, head, body)) => Response(Chosen(format, other), head, body)
  }

  predicate KeepsNumber(req: Head, service: Option<Service>) {
    service.Some? && service.value.ReplaceHead? ==> service.value.head.seqNo == req.seqNo
  }

  /** The protocol's correlation flag survives a reply exactly when the service kept the number. */
  lemma ServiceKeepsHead(s: P.State, m: P.Message, format: Byte, req: Head, service: Option<Service>)
    requires m in s.requests && req.seqNo == m.pkg.seqNo
    ensures P.Apply(s, P.Serve(m, ReplyTo(format, req, service).Pkg())).headKept
            <==> s.headKept && KeepsNumber(req, service)
  {
  }

  /** A caller receives the answer to its own request exactly when the service kept that request's number. */
  lemma OwnAnswerIff(s: P.State, c: P.CallId, m: P.Message, format: Byte, req: Head, service: Option<Service>)
    requires P.Reachable(s) && m in s.requests && req.seqNo == m.pkg.seqNo && c in s.calls
    requires s.calls[c].phase == P.Received(Some(P.Message(m.origin, ReplyTo(format, req, service).Pkg())))
    ensures m.origin == c <==> KeepsNumber(req, service)
  {
    T.AnswersOwnIff(s, c);
    I.ReachableInv(s);
    assert I.NetInv(s);
  }

  /** The frame that carries a response, if it can be encoded. */
  function ReplyFrame(wire: Wire, response: Response): Option<seq<Byte>> {
    match EncodedBody(wire.bodies, response.format, response.body)
    case None => None
    case Some(bodyData) => Encoded(wire.heads, response.format, response.head, bodyData)
  }

  predicate ReplyFits(wire: Wire, response: Response) {
    var bodyData := EncodedBody(wire.bodies, response.format, response.body);
    bodyData.Some? && Fits(wire.heads, response.format, response.head, bodyData.value)
  }

  /** The frame, decoded, is a package of this format, head and body. */
  predicate Carries(wire: Wire, frame: seq<Byte>, format: Byte, head: Head, body: string) {
    var pkg := DecodeWithBodyData(wire.heads, frame);
    && pkg.Package? && pkg.format == format && pkg.head == head
    && wire.bodies.For(format).Some? && wire.bodies.For(format).value.decode(pkg.bodyData) == Some(body)
  }

  /** One more frame has been queued, and it carries this package. */
  predicate Delivers(wire: Wire, before: seq<seq<Byte>>, queued: seq<seq<Byte>>, format: Byte, head: Head, body: string) {
    |queued| == |before| + 1 && queued[..|before|] == before && Carries(wire, queued[|before|], format, head, body)
  }

  lemma ReplyCarries(wire: Wire, response: Response)
    requires Agreed(wire) && ReplyFits(wire, response)
    ensures ReplyFrame(wire, response).Some?
    ensures Carries(wire, ReplyFrame(wire, response).value, response.format, response.head, response.body)
  {
    var bodyData := EncodedBody(wire.bodies, response.format, response.body).value;
    RoundTrip(wire.heads, response.format, response.head, bodyData);
    assert wire.bodies.For(response.format).value.decode(bodyData) == Some(response.body);
  }

  function Queued(wire: Wire, response: Response, isClose: bool): (q: seq<seq<Byte>>)
    ensures |q| <= 1
  {
    ToSend(ReplyFrame(wire, response), isClose)
  }

  function Times<T>(n: nat, s: seq<T>): seq<T> {
    if n == 0 then [] else Times(n - 1, s) + s
  }

  /** The elements run, in order, when each middleware calls the next as often as `calls` says. */
  function Visited(funcs: seq<Func>, calls: nat -> nat): seq<Func> {
    if funcs == [] then []
    else if funcs[0].Middleware? then [funcs[0]] + Times(calls(funcs[0].id), Visited(funcs[1..], calls))
    else [funcs[0]]
  }

  /** What a run queues: `q` for each time it gets to the last link. */
  function Answers(visited: seq<Func>, q: seq<seq<Byte>>): seq<seq<Byte>> {
    if visited == [] then []
    else (if visited[0].Final? then q else []) + Answers(visited[1..], q)
  }

  lemma AnswersFrom(first: Func, rest: seq<Func>, q: seq<seq<Byte>>)
    ensures Answers([first] + rest, q) == if first.Middleware? then Answers(rest, q) else q + Answers(rest, q)
    ensures Answers([], q) == []
  {
    assert ([first] + rest)[1..] == rest;
  }

  lemma {:induction false} AnswersAppend(a: seq<Func>, b: seq<Func>, q: seq<seq<Byte>>)
    ensures Answers(a + b, q) == Answers(a, q) + Answers(b, q)
  {
    if a == [] {
      assert a + b == b;
    } else {
      var first, rest := if a[0].Final? then q else [], a[1..];
      AnswersAppend(rest, b, q);
      assert (a + b)[0] == a[0] && (a + b)[1..] == rest + b;
      assert first + (Answers(rest, q) + Answers(b, q)) == (first + Answers(rest, q)) + Answers(b, q);
    }
  }

  lemma AnswersTogether(a: seq<Func>, b: seq<Func>, q: seq<seq<Byte>>, queued: seq<seq<Byte>>, chan: seq<Option<seq<Byte>>>)
    ensures queued + Answers(a, q) + Answers(b, q) == queued + Answers(a + b, q)
    ensures chan + Somes(Answers(a, q)) + Somes(Answers(b, q)) == chan + Somes(Answers(a + b, q))
  {
    AnswersAppend(a, b, q);
    SomesAppend(Answers(a, q), Answers(b, q));
  }

  /** The client's connection has been given `frames`, in that order, after what it had. */
  twostate predicate Took(client: EasyConnection, frames: seq<seq<Byte>>)
    reads client`queued, client`writeChan
  {
    && client.queued == old(client.queued) + frames
    && client.writeChan == old(client.writeChan) + Somes(frames)
  }

  /** A whole path from some element on: linked, with the handler's own link at its end only. */
  ghost predicate Ends(rest: seq<MiddlewareInfo>)
    reads rest
  {
    && Linked(rest) && rest != []
    && forall i :: 0 <= i < |rest| ==> (rest[i].func.Final? <==> i == |rest| - 1)
  }

  lemma Onward(rest: seq<MiddlewareInfo>, calls: nat -> nat)
    requires Ends(rest) && rest[0].func.Middleware?
    ensures Ends(rest[1..]) && rest[0].next == rest[1]
    ensures Visited(Funcs(rest), calls)
            == [rest[0].func] + Times(calls(rest[0].func.id), Visited(Funcs(rest[1..]), calls))
  {
    assert Funcs(rest)[1..] == Funcs(rest[1..]);
  }

  /** A chain whose middlewares all call the next once runs every one once, in order, and then the
      last link. */
  lemma {:induction false} AllPass(funcs: seq<Func>, calls: nat -> nat)
    requires forall i :: 0 <= i < |funcs| - 1 ==> funcs[i].Middleware? && calls(funcs[i].id) == 1
    requires funcs != [] ==> funcs[|funcs| - 1].Final?
    ensures Visited(funcs, calls) == funcs
  {
    if |funcs| <= 1 {
    } else {
      AllPass(funcs[1..], calls);
      assert Times(1, funcs[1..]) == Times(0, funcs[1..]) + funcs[1..] == funcs[1..];
    }
  }

  /** A middleware that does not call the next ends the run there: nothing after it is visited. */
  lemma {:induction false} StopsAt(funcs: seq<Func>, calls: nat -> nat, k: nat)
    requires k < |funcs| && funcs[k].Middleware? && calls(funcs[k].id) == 0
    requires forall i :: 0 <= i < k ==> funcs[i].Middleware? && calls(funcs[i].id) == 1
    ensures Visited(funcs, calls) == funcs[..k + 1]
  {
    if k == 0 {
    } else {
      var rest := Visited(funcs[1..], calls);
      StopsAt(funcs[1..], calls, k - 1);
      assert Times(1, rest) == Times(0, rest) + rest == rest;
    }
  }

  /** How often the last link is reached: the product of how often each middleware calls the next. */
  function Reached(list: seq<Func>, calls: nat -> nat): nat {
    if list == [] then 1
    else (if list[0].Middleware? then calls(list[0].id) else 1) * Reached(list[1..], calls)
  }

  lemma {:induction false} TimesAnswers(n: nat, s: seq<Func>, frame: seq<Byte>)
    ensures |Answers(Times(n, s), [frame])| == n * |Answers(s, [frame])|
  {
    if n == 0 {
    } else {
      TimesAnswers(n - 1, s, frame);
      AnswersAppend(Times(n - 1, s), s, [frame]);
      assert n * |Answers(s, [frame])| == (n - 1) * |Answers(s, [frame])| + |Answers(s, [frame])|;
    }
  }

  /** A request is answered once for every way to the last link. */
  lemma {:induction false} AnswerCount(list: seq<Func>, calls: nat -> nat, frame: seq<Byte>)
    requires forall f :: f in list ==> f.Middleware?
    ensures |Answers(Visited(list + [Final], calls), [frame])| == Reached(list, calls)
  {
    if list == [] {
      AnswersFrom(Final, [], [frame]);
    } else {
      var funcs := list + [Final];
      assert list[0] in list && funcs[0] == list[0] && funcs[1..] == list[1..] + [Final];
      AnswerCount(list[1..], calls, frame);
      var rest := Visited(funcs[1..], calls);
      AnswersFrom(funcs[0], Times(calls(list[0].id), rest), [frame]);
      TimesAnswers(calls(list[0].id), rest, frame);
    }
  }

  predicate AllPassOn(list: seq<Func>, calls: nat -> nat) {
    forall f :: f in list ==> f.Middleware? && calls(f.id) == 1
  }

  lemma {:induction false} OneAnswer(list: seq<Func>, q: seq<seq<Byte>>)
    requires forall f :: f in list ==> f.Middleware?
    ensures Answers(list + [Final], q) == q
  {
    if list == [] {
      assert Answers([Final], q) == q + Answers([], q);
    } else {
      OneAnswer(list[1..], q);
      assert list[0] in list && (list + [Final])[0] == list[0] && (list + [Final])[1..] == list[1..] + [Final];
    }
  }

  /** When every middleware calls the next once, all of them run, in order, then the last link, and
      there is one answer. */
  lemma RunsWhole(list: seq<Func>, calls: nat -> nat, q: seq<seq<Byte>>)
    requires AllPassOn(list, calls)
    ensures Visited(list + [Final], calls) == list + [Final]
    ensures Answers(list + [Final], q) == q
  {
    AllPass(list + [Final], calls);
    OneAnswer(list, q);
  }

  lemma WholePath(path: seq<MiddlewareInfo>, calls: nat -> nat, q: seq<seq<Byte>>)
    requires Ends(path) && AllPassOn(Funcs(path[..|path| - 1]), calls)
    ensures Visited(Funcs(path), calls) == Funcs(path)
    ensures Answers(Funcs(path), q) == q
  {
    var list := Funcs(path[..|path| - 1]);
    assert Funcs(path) == list + [Final];
    RunsWhole(list, calls, q);
  }

  class ServiceHandler {
    var middlewares: seq<MiddlewareInfo>
    ghost var path: seq<MiddlewareInfo>  // what following `next` from element 0 visits

    /** The last registered element is linked to the handler's own; with none registered, the list is
        that element alone. Either way the path is the registered elements and then the last link. */
    constructor (list: seq<MiddlewareInfo>)
      requires Linked(list) && (forall m :: m in list ==> m.func.Middleware?)
      modifies list
      ensures Valid() && path[..|path| - 1] == list && fresh(path[|path| - 1])
      ensures middlewares == if list == [] then path else list
      ensures Funcs(path) == Funcs(list) + [Final]
    {
      var final := new MiddlewareInfo(Final, "");
      middlewares := if list == [] then [final] else list;
      path := list + [final];
      new;
      if |list| > 0 {
        list[|list| - 1].next := final;
      }
      Extended(list, final);
    }

    ghost predicate Valid()
      reads this, path
    {
      Ends(path) && middlewares != [] && middlewares[0] == path[0]
    }

    /** Lines 70 to 102 of service_handler.go. */
    static method Reply(wire: Wire, format: Byte, head: EasyHead, client: EasyConnection, service: Option<Service>)
      requires client.Valid()
      modifies head, client`writeChan, client`queued
      ensures client.Valid()
      ensures ReplyTo(format, head.View(), service) == ReplyTo(format, old(head.View()), service)
      ensures Took(client, Queued(wire, ReplyTo(format, old(head.View()), service), client.isClose))
    {
      var body, out, respFormat := "{}", head, format;
      match service {
        case None =>
          head.ret := ERROR_METHOD_NOT_FOUND;
          head.msg := "method " + head.method_ + " not found";
        case Some(KeepHead(other, ret, msg, result)) =>
          head.ret, head.msg := ret, msg;
          body, respFormat := result, Chosen(format, other);
        case Some(ReplaceHead(other, h, result)) =>
          out := new EasyHead(h);
          body, respFormat := result, Chosen(format, other);
      }
      assert Response(respFormat, out.View(), body) == ReplyTo(format, old(head.View()), service);
      var pkgData := EncodeWithBody(wire.heads, wire.bodies, respFormat, out.View(), body);
      if pkgData == null {
        return;
      }
      client.Send(pkgData[..]);
    }
    /** onRequest, with the client seeing what the service did: an unknown method is reported, in the
        request's own head, with an empty object; the result of a known one is the service's own code,
        message and body, in the request's own head unless the service put in another. */
    static method OnRequest(wire: Wire, format: Byte, head: EasyHead, client: EasyConnection, service: Option<Service>)
      requires client.Valid()
      modifies head, client`writeChan, client`queued
      ensures client.Valid()
      ensures ReplyTo(format, head.View(), service) == ReplyTo(format, old(head.View()), service)
      ensures Took(client, Queued(wire, ReplyTo(format, old(head.View()), service), client.isClose))
      ensures client.isClose ==> client.queued == old(client.queued)
      ensures !client.isClose && Agreed(wire) ==>
                match service
                case None =>
                  var h := Head(head.service, head.method_, head.routeKey, old(head.seqNo), 1002,
                                "method " + head.method_ + " not found");
                  ReplyFits(wire, Response(format, h, "{}")) ==> Delivers(wire, old(client.queued), client.queued, format, h, "{}")
                case Some(KeepHead(other, ret, msg, body)) =>
                  var f := if other.Some? then other.value else format;
                  var h := Head(head.service, head.method_, head.routeKey, old(head.seqNo), ret, msg);
                  ReplyFits(wire, Response(f, h, body)) ==> Delivers(wire, old(client.queued), client.queued, f, h, body)
                case Some(ReplaceHead(other, h, body)) =>
                  var f := if other.Some? then other.value else format;
                  ReplyFits(wire, Response(f, h, body)) ==> Delivers(wire, old(client.queued), client.queued, f, h, body)
    {
      ghost var response := ReplyTo(format, head.View(), service);
      Reply(wire, format, head, client, service);
      if Agreed(wire) && ReplyFits(wire, response) {
        ReplyCarries(wire, response);
      }
    }


    /** One request through the chain: each middleware calls the next as often as it does; the last
        link replies to the client each time. A frame that cannot be decoded goes nowhere. */
    method Dispatch(wire: Wire, pkgData: seq<Byte>, client: EasyConnection,
                    calls: nat -> nat, service: Option<Service>)
      returns (visited: seq<Func>)
      requires Valid() && client.Valid()
      modifies client`writeChan, client`queued
      ensures client.Valid()
      ensures var req := DecodeWithBodyData(wire.heads, pkgData);
              if !req.Package? then visited == [] && Took(client, [])
              else
                && visited == Visited(Funcs(path), calls)
                && Took(client, Answers(visited, Queued(wire, ReplyTo(req.format, req.head, service), client.isClose)))
    {
      match DecodeWithBodyData(wire.heads, pkgData) {
        case Package(format, h, _) =>
          var head := new EasyHead(h);
          ghost var q := Queued(wire, ReplyTo(format, h, service), client.isClose);
          visited := Run(middlewares[0], path, wire, format, head, client, calls, service, q);
        case _ => visited := [];
      }
    }

    /** One element of the chain and what follows from it; `q` is what its last link queues. */
    static method Run(m: MiddlewareInfo, ghost rest: seq<MiddlewareInfo>, wire: Wire, format: Byte, head: EasyHead,
                      client: EasyConnection, calls: nat -> nat, service: Option<Service>, ghost q: seq<seq<Byte>>)
      returns (visited: seq<Func>)
      requires Ends(rest) && rest[0] == m && client.Valid()
      requires q == Queued(wire, ReplyTo(format, head.View(), service), client.isClose)
      modifies head, client`writeChan, client`queued
      ensures client.Valid() && Took(client, Answers(visited, q))
      ensures visited == Visited(Funcs(rest), calls)
      ensures q == Queued(wire, ReplyTo(format, head.View(), service), client.isClose)
      decreases |rest|, 0, 0
    {
      visited := [m.func];
      assert [m.func] + [] == [m.func];
      match m.func {
        case Final =>
          OnRequest(wire, format, head, client, service);
          AnswersFrom(m.func, [], q);
        case Middleware(id) =>
          Onward(rest, calls);
          var v := RunTimes(calls(id), m.next, rest[1..], wire, format, head, client, calls, service, q);
          AnswersFrom(m.func, v, q);
          visited := visited + v;
      }
    }

    /** A middleware's calls of the next. */
    static method RunTimes(n: nat, m: MiddlewareInfo, ghost rest: seq<MiddlewareInfo>, wire: Wire, format: Byte, head: EasyHead,
                           client: EasyConnection, calls: nat -> nat, service: Option<Service>, ghost q: seq<seq<Byte>>)
      returns (visited: seq<Func>)
      requires Ends(rest) && rest[0] == m && client.Valid()
      requires q == Queued(wire, ReplyTo(format, head.View(), service), client.isClose)
      modifies head, client`writeChan, client`queued
      ensures client.Valid() && Took(client, Answers(visited, q))
      ensures visited == Times(n, Visited(Funcs(rest), calls))
      ensures q == Queued(wire, ReplyTo(format, head.View(), service), client.isClose)
      decreases |rest|, 1, n
    {
      if n == 0 {
        visited := [];
      } else {
        var u := RunTimes(n - 1, m, rest, wire, format, head, client, calls, service, q);
        assert Ends(rest);
        var v := Run(m, rest, wire, format, head, client, calls, service, q);
        visited := u + v;
        AnswersTogether(u, v, q, old(client.queued), old(client.writeChan));
      }
    }
  }

  /** StartAndWait's use of the list, and one request: it runs through the middlewares registered for the
      service, in the order of registration, and then the handler's own link. */
  method Serve(context: ServiceContext, name: string, wire: Wire, pkgData: seq<Byte>, client: EasyConnection,
               calls: nat -> nat, service: Option<Service>)
    returns (visited: seq<Func>)
    requires context.Valid() && client.Valid()
    modifies context.List(name), client`writeChan, client`queued
    ensures client.Valid()
    ensures var req := DecodeWithBodyData(wire.heads, pkgData);
            if !req.Package? then visited == [] && Took(client, [])
            else
              && visited == Visited(Funcs(context.List(name)) + [Final], calls)
              && Took(client, Answers(visited, Queued(wire, ReplyTo(req.format, req.head, service), client.isClose)))
  {
    ghost var list := Funcs(context.List(name));
    var handler := new ServiceHandler(context.List(name));
    assert client.Valid() && client.queued == old(client.queued) && client.writeChan == old(client.writeChan);
    visited := handler.Dispatch(wire, pkgData, client, calls, service);
    assert Funcs(context.List(name)) == list;
  }
}
