/**
  One request and its reply through both sides, nobody else interfering: Start is the client's request
  path, and Complete, from where Start ends, the wire, the handler's chain, and the wire and the client
  again.
 */
module Exchange {
  import opened Wrappers
  import opened Package
  import opened Connection
  import opened ConnectionTable
  import opened SessionManager
  import opened ServiceClient
  import Chain = ServiceChain
  import C = PlainCodec
  import P = SessionProtocol

  /** The package a received frame holds; a body that cannot be decoded reads as empty. */
  function Received(wire: Wire, pkgData: seq<Byte>): Option<P.Package> {
    match DecodeWithBodyData(wire.heads, pkgData)
    case Package(format, head, bodyData) =>
      var codec := wire.bodies.For(format);
      var body := if codec.Some? then codec.value.decode(bodyData) else None;
      Some(P.Package(head.seqNo, head.ret, if body.Some? then body.value else ""))
    case _ => None
  }

  /** An encoded package within the bounds decodes to what it was made of, and passes every check of Read. */
  lemma FrameArrives(wire: Wire, format: Byte, head: Head, bodyData: seq<Byte>)
    requires Agreed(wire) && Fits(wire.heads, format, head, bodyData)
    ensures var frame := Encoded(wire.heads, format, head, bodyData);
            && frame.Some? && WellFormed(frame.value)
            && DecodeWithBodyData(wire.heads, frame.value) == Package(format, head, bodyData)
  {
    RoundTrip(wire.heads, format, head, bodyData);
    FrameIsWellFormed(format, wire.heads.For(format).value.encode(head).value, bodyData);
  }

  /** The client reads off a reply's frame exactly the response the handler made. */
  lemma ReplyArrives(wire: Wire, response: Chain.Response)
    requires Agreed(wire) && Chain.ReplyFits(wire, response)
    ensures var frame := Chain.ReplyFrame(wire, response);
            frame.Some? && WellFormed(frame.value) && Received(wire, frame.value) == Some(response.Pkg())
  {
    var bodyData := EncodedBody(wire.bodies, response.format, response.body).value;
    FrameArrives(wire, response.format, response.head, bodyData);
    assert wire.bodies.For(response.format).value.decode(bodyData) == Some(response.body);
  }

  /** What an exchange needs: lengths that fit both ways, and a service that keeps the number. */
  predicate Passes(wire: Wire, format: Byte, request: Head, bodyData: seq<Byte>, service: Option<Chain.Service>) {
    && request.seqNo != 0
    && Fits(wire.heads, format, request, bodyData)
    && Chain.ReplyFits(wire, Chain.ReplyTo(format, request, service))
    && Chain.KeepsNumber(request, service)
  }

  /** The handler's side: a request's frame that every middleware passes on once is answered with one
      frame. */
  method Answered(handler: Chain.ServiceHandler, wire: Wire, format: Byte, request: Head, bodyData: seq<Byte>,
                  pkgData: seq<Byte>, back: EasyConnection, calls: nat -> nat, service: Option<Chain.Service>)
    returns (visited: seq<Chain.Func>)
    requires handler.Valid() && back.Quiet() && !back.isClose && Agreed(wire)
    requires Chain.AllPassOn(Chain.Funcs(handler.path[..|handler.path| - 1]), calls)
    requires DecodeWithBodyData(wire.heads, pkgData) == Package(format, request, bodyData)
    requires Chain.ReplyFits(wire, Chain.ReplyTo(format, request, service))
    modifies back`writeChan, back`queued
    ensures back.Valid() && back.writing
    ensures var frame := Chain.ReplyFrame(wire, Chain.ReplyTo(format, request, service));
            frame.Some? && back.writeChan == [Some(frame.value)] && back.queued == old(back.queued) + [frame.value]
  {
    var response := Chain.ReplyTo(format, request, service);
    ReplyArrives(wire, response);
    Chain.WholePath(handler.path, calls, Chain.Queued(wire, response, false));
    visited := handler.Dispatch(wire, pkgData, back, calls, service);
  }

  /** From the request in the client's channel to the reply at the client: over the wire, through the
      handler, and over the wire again. */
  method Respond(handler: Chain.ServiceHandler, wire: Wire, format: Byte, request: Head, bodyData: seq<Byte>,
                 conn: EasyConnection, back: EasyConnection, calls: nat -> nat, service: Option<Chain.Service>)
    returns (reply: seq<Byte>)
    requires handler.Valid() && back.Quiet() && !back.isClose && Agreed(wire) && conn != back
    requires Chain.AllPassOn(Chain.Funcs(handler.path[..|handler.path| - 1]), calls)
    requires Passes(wire, format, request, bodyData, service)
    requires conn.Valid() && conn.writing
    requires conn.writeChan == Somes(ToSend(Encoded(wire.heads, format, request, bodyData), false))
    modifies conn`writeChan, conn`writing, conn`wire, back
    ensures conn.Quiet() && back.Quiet()
    ensures Received(wire, reply) == Some(Chain.ReplyTo(format, request, service).Pkg())
  {
    FrameArrives(wire, format, request, bodyData);
    ReplyArrives(wire, Chain.ReplyTo(format, request, service));
    var requests := Carry(conn, Encoded(wire.heads, format, request, bodyData).value);
    var visited := Answered(handler, wire, format, request, bodyData, requests[0], back, calls, service);
    var replies := Carry(back, Chain.ReplyFrame(wire, Chain.ReplyTo(format, request, service)).value);
    reply := replies[0];
  }

  /** The client's side: a reply under the number of a registered, open session settles that session. */
  method Settle(sessions: EasySessionManager, session: EasySession, reply: P.Message)
    requires sessions.Valid() && reply.pkg.seqNo != 0
    requires reply.pkg.seqNo in sessions.sessionMap && sessions.sessionMap[reply.pkg.seqNo] == session
    requires session.Valid() && session.View().open && session.View().sent == []
    modifies sessions`sessionMap, session, session.chan, session.node
    ensures sessions.Valid() && session.Valid() && sessions.sessionMap == old(sessions.sessionMap) - {reply.pkg.seqNo}
    ensures session.chan.sent == [Some(reply)] && session.chan.closed
    ensures session.node.active == old(session.node.active) - 1
  {
    sessions.Process(reply);
    assert session.View().sent == session.chan.sent && session.View().closed == session.chan.closed;
  }

  /** A request that is not refused and can be encoded leaves just what Complete starts from. */
  method Start(client: ServiceClient, heads: Codecs<Head>, format: Byte, head: EasyHead, bodyData: seq<Byte>,
               lookup: Lookup, draw: nat, hash: nat, now: int, warm: seq<bool>, connects: bool, ghost node: Node)
    returns (r: Answer, session: EasySession, conn: EasyConnection)
    requires client.sessions.Valid() && client.pools.Valid() && client.pools.Quiet() && |warm| == POOL_MIN_SIZE
    requires client.Plan(head.View(), lookup, draw, hash, now, warm, connects) == On(node)
    requires ServiceClient.NextFrame(heads, format, head.View(), client.sessions.seqNo, bodyData).Some?
    modifies client.lb, client.sessions, head`seqNo, node`active, client.pools, client.pools.pools, client.pools.conns
    ensures client.sessions.Valid() && session.Valid() && session.View().open && r == Ok(session.chan)
    ensures client.sessions.seqNo == session.seqNo == old(client.NextNumber())
    ensures head.seqNo == session.seqNo
    ensures client.sessions.sessionMap == old(client.sessions.sessionMap)[session.seqNo := session]
    ensures fresh(session) && fresh(session.chan) && (conn in old(client.pools.conns) || fresh(conn))
    ensures session.node == node && node.active == old(node.active) + 1
    ensures conn.Valid() && conn.writing
    ensures conn.writeChan == Somes(ToSend(Encoded(heads, format, head.View(), bodyData), false))
  {
    ghost var turn := client.Turn(head.View(), lookup, client.lb.counter, draw, hash);
    ghost var frame := ServiceClient.NextFrame(heads, format, head.View(), client.sessions.seqNo, bodyData);
    var s, c;
    r, s, c := client.RequestAsyncWithHead(heads, format, head, bodyData, lookup, draw, hash, now, warm, connects,
                                           On(node), turn, frame);
    session, conn := s, c;
  }

  /** From a request begun and queued to the caller's channel, nobody else interfering: written, read,
      decoded, run through the chain, answered, and all the way back. The caller's channel carries the
      service's response and is closed, the request's number is out of the table, and the node's load is
      one lower again. */
  method Complete(sessions: EasySessionManager, session: EasySession, handler: Chain.ServiceHandler, wire: Wire,
                  format: Byte, request: Head, bodyData: seq<Byte>, conn: EasyConnection, back: EasyConnection,
                  calls: nat -> nat, service: Option<Chain.Service>, origin: nat)
    requires sessions.Valid() && sessions.sessionMap.Items >= {(request.seqNo, session)}
    requires session.Valid() && session.View().open
    requires handler.Valid() && back.Quiet() && !back.isClose && Agreed(wire) && conn != back
    requires Chain.AllPassOn(Chain.Funcs(handler.path[..|handler.path| - 1]), calls)
    requires Passes(wire, format, request, bodyData, service)
    requires conn.Valid() && conn.writing
    requires conn.writeChan == Somes(ToSend(Encoded(wire.heads, format, request, bodyData), false))
    modifies conn`writeChan, conn`writing, conn`wire, back, sessions`sessionMap, session, session.chan, session.node
    ensures sessions.Valid() && sessions.sessionMap == old(sessions.sessionMap) - {request.seqNo}
    ensures |session.chan.sent| == 1 && session.chan.sent[0].Some? && session.chan.sent[0].value.origin == origin
    ensures var pkg := session.chan.sent[0].value.pkg;
            match service
            case None => pkg == P.Package(request.seqNo, 1002, "{}")
            case Some(KeepHead(_, ret, _, body)) => pkg == P.Package(request.seqNo, ret, body)
            case Some(ReplaceHead(_, head, body)) => pkg == P.Package(request.seqNo, head.ret, body)
    ensures session.chan.closed && session.node.active == old(session.node.active) - 1
  {
    var reply := Respond(handler, wire, format, request, bodyData, conn, back, calls, service);
    Settle(sessions, session, P.Message(origin, Received(wire, reply).value));
  }

  // ---- Codecs that satisfy the hypotheses ----

  function PlainWire(): Wire {
    var heads, texts := Codec(C.EncodeHead, C.DecodeHead), Codec(C.EncodeText, C.DecodeText);
    Wire(Codecs(heads, heads), Codecs(texts, texts))
  }

  /** A head these codecs can write within the bounds. */
  predicate Short(h: Head) {
    C.Plain(h) && 40 + |h.service| + |h.method_| + |h.routeKey| + |h.msg| <= HEAD_MAX_LEN
  }

  lemma PlainFits(h: Head, bodyData: seq<Byte>)
    requires Short(h) && |bodyData| <= BODY_MAX_LEN
    ensures Fits(PlainWire().heads, FORMAT_JSON, h, bodyData)
  {
    C.HeadLength(h);
  }

  /** With these codecs any request of ordinary size under any number but 0 can be exchanged, whatever
      result the service sets in its head. */
  lemma PlainWirePasses(h: Head, bodyData: seq<Byte>, ret: int, msg: string, result: string)
    requires Short(h) && h.seqNo != 0 && Short(h.(ret := ret, msg := msg)) && C.Narrow(result)
    requires |bodyData| <= BODY_MAX_LEN && |result| <= BODY_MAX_LEN
    ensures Agreed(PlainWire())
    ensures Passes(PlainWire(), FORMAT_JSON, h, bodyData, Some(Chain.KeepHead(None, ret, msg, result)))
  {
    C.HeadCodecInverse();
    C.TextCodecInverse();
    PlainFits(h, bodyData);
    PlainFits(h.(ret := ret, msg := msg), C.Bytes(result));
  }
}
