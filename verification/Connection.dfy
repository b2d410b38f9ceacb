/**
  easy_connection.go: the write queue and the framing loop of Read over a byte stream.

  The stream hands out a 10-byte header whole unless it ends first. The read of the rest of a frame may
  be cut short anywhere: with `cut`, it returns at most `cut + 1` bytes.
 */
module Connection {
  import opened Wrappers
  import opened Package

  /** The header checks of Read, including the one on line 119, which tests the head length again. */
  predicate HeaderAccepts(prefetch: seq<Byte>)
    requires |prefetch| >= 10
  {
    && prefetch[0] == STX
    && (prefetch[1] == FORMAT_JSON || prefetch[1] == FORMAT_MSGPACK)
    && !(HeadLen(prefetch) > HEAD_MAX_LEN)
    && !(HeadLen(prefetch) > BODY_MAX_LEN)
  }

  /** Header checks and body length are independent: no body length is ever refused. */
  lemma BodyLengthNeverRefused(format: Byte, headLen: nat, bodyLen: nat)
    requires headLen < WORD && bodyLen < WORD
    ensures HeaderAccepts(Header(format, headLen, bodyLen))
            <==> (format == FORMAT_JSON || format == FORMAT_MSGPACK) && headLen <= HEAD_MAX_LEN
  {
    var b := Header(format, headLen, bodyLen);
    assert b + [] == b;
    HeaderFields(format, headLen, bodyLen, []);
  }

  function Min(x: nat, y: nat): nat { if x < y then x else y }

  function Zeros(n: nat): (z: seq<Byte>)
    ensures |z| == n && forall i :: 0 <= i < n ==> z[i] == 0
  {
    seq(n, _ => 0)
  }

  /** A zero-filled buffer of `n` bytes after one read of `got` bytes of `input` into it. */
  function Filled(input: seq<Byte>, got: nat, n: nat): (b: seq<Byte>)
    requires got <= n && got <= |input|
    ensures |b| == n
  {
    input[..got] + Zeros(n - got)
  }

  /** One turn of the loop: the frame handed to Dispatch and how much of the stream it used, or the
      end of the loop. */
  datatype Turn = Stop | Dispatched(frame: seq<Byte>, used: nat)

  function PkgLen(prefetch: seq<Byte>): nat
    requires |prefetch| >= 10
  {
    (11 + HeadLen(prefetch) + BodyLen(prefetch)) % WORD
  }

  /** The length computed in 32 bits is the frame's own exactly under the bound a sender must keep. */
  lemma PkgLenExact(format: Byte, headLen: nat, bodyLen: nat)
    requires headLen < WORD && bodyLen < WORD
    ensures PkgLen(Header(format, headLen, bodyLen)) == 11 + headLen + bodyLen <==> 11 + headLen + bodyLen < WORD
  {
    var b := Header(format, headLen, bodyLen);
    assert b + [] == b;
    HeaderFields(format, headLen, bodyLen, []);
  }

  function ReadFrame(input: seq<Byte>, cut: nat): (t: Turn)
    ensures t.Dispatched? ==> t.used <= |input|
  {
    if input == [] then Stop
    else
      var head := Min(10, |input|);
      var prefetch := Filled(input, head, 10);
      if !HeaderAccepts(prefetch) then Stop
      else
        var pkgLen := PkgLen(prefetch);
        if pkgLen < 10 then Stop
        else
          var rest := input[head..];
          if pkgLen > 10 && rest == [] then Stop
          else
            var got := Min(Min(cut + 1, pkgLen - 10), |rest|);
            var pkgData := prefetch + Filled(rest, got, pkgLen - 10);
            if pkgData[pkgLen - 1] != ETX then Stop else Dispatched(pkgData, head + got)
  }

  type Reader = (seq<Byte>, nat) -> Turn

  function After(input: seq<Byte>, used: nat): seq<Byte> {
    if used <= |input| then input[used..] else []
  }

  /** The loop itself: the frames dispatched when the stream carries `input` and each turn does what
      `turn` says, with the reads cut as `cuts` says. */
  function Loop(turn: Reader, input: seq<Byte>, cuts: seq<nat>): seq<seq<Byte>>
    decreases |cuts|
  {
    if cuts == [] then []
    else
      var t := turn(input, cuts[0]);
      if t.Stop? then [] else [t.frame] + Loop(turn, After(input, t.used), cuts[1..])
  }

  function Dispatches(input: seq<Byte>, cuts: seq<nat>): seq<seq<Byte>> {
    Loop(ReadFrame, input, cuts)
  }

  /** Whatever arrives, a dispatched frame carries the marks and a known format, its head is of an admissible
      length, and it is as long as its two lengths say, in 32 bits; its header is the one that arrived. */
  predicate Sound(frame: seq<Byte>) {
    && |frame| >= 10 && frame[0] == 2 && (frame[1] == 0 || frame[1] == 1) && frame[|frame| - 1] == 3
    && var headLen := frame[2] as int * 0x100_0000 + frame[3] as int * 0x1_0000 + frame[4] as int * 0x100 + frame[5] as int;
       var bodyLen := frame[6] as int * 0x100_0000 + frame[7] as int * 0x1_0000 + frame[8] as int * 0x100 + frame[9] as int;
       headLen <= 257792 && |frame| == (11 + headLen + bodyLen) % 0x1_0000_0000
  }

  lemma ReadsSound(input: seq<Byte>, cut: nat)
    ensures var t := ReadFrame(input, cut);
            t.Dispatched? ==> Sound(t.frame) && 10 <= |input| && t.frame[..10] == input[..10] && t.used <= |t.frame|
  {
  }

  lemma {:induction false} DispatchesSound(input: seq<Byte>, cuts: seq<nat>)
    ensures forall frame :: frame in Dispatches(input, cuts) ==> Sound(frame)
    decreases |cuts|
  {
    if cuts == [] || ReadFrame(input, cuts[0]).Stop? {
    } else {
      ReadsSound(input, cuts[0]);
      DispatchesSound(After(input, ReadFrame(input, cuts[0]).used), cuts[1..]);
    }
  }

  method Turns(input: seq<Byte>, cut: nat) returns (t: Turn)
    ensures t == ReadFrame(input, cut)
  {
    if input == [] {
      return Stop;
    }
    var n := Min(10, |input|);
    var prefetch := Filled(input, n, 10);
    var headLen, bodyLen := HeadLen(prefetch), BodyLen(prefetch);
    if prefetch[0] != STX {
      return Stop;
    }
    if prefetch[1] != FORMAT_JSON && prefetch[1] != FORMAT_MSGPACK {
      return Stop;
    }
    if headLen > HEAD_MAX_LEN {
      return Stop;
    }
    if headLen > BODY_MAX_LEN {
      return Stop;
    }
    var pkgLen := (11 + headLen + bodyLen) % WORD;
    if pkgLen < 10 {
      return Stop;  // the slice from 10 panics and the deferred handler ends the loop
    }
    if pkgLen > 10 && |input| == n {
      return Stop;
    }
    var got := Min(Min(cut + 1, pkgLen - 10), |input| - n);
    var pkgData := prefetch + Filled(input[n..], got, pkgLen - 10);
    if pkgData[pkgLen - 1] != ETX {
      return Stop;
    }
    t := Dispatched(pkgData, n + got);
  }

  lemma LoopTurn(turn: Reader, before: seq<seq<Byte>>, input: seq<Byte>, cuts: seq<nat>, i: nat)
    requires i < |cuts|
    ensures var t := turn(input, cuts[i]);
            before + Loop(turn, input, cuts[i..]) ==
            if t.Stop? then before else before + [t.frame] + Loop(turn, After(input, t.used), cuts[i + 1..])
  {
    assert cuts[i..][0] == cuts[i] && cuts[i..][1..] == cuts[i + 1..];
    var t := turn(input, cuts[i]);
    if t.Dispatched? {
      var rest := Loop(turn, After(input, t.used), cuts[i + 1..]);
      assert before + ([t.frame] + rest) == (before + [t.frame]) + rest;
    }
  }

  method Read(input: seq<Byte>, cuts: seq<nat>) returns (frames: seq<seq<Byte>>)
    ensures frames == Dispatches(input, cuts)
    ensures forall frame :: frame in frames ==> Sound(frame)
  {
    DispatchesSound(input, cuts);
    frames := [];
    var stream := input;
    var i := 0;
    while i < |cuts|
      invariant i <= |cuts| && frames + Loop(ReadFrame, stream, cuts[i..]) == Dispatches(input, cuts)
    {
      LoopTurn(ReadFrame, frames, stream, cuts, i);
      var t := Turns(stream, cuts[i]);
      if t.Stop? {
        return;
      }
      frames := frames + [t.frame];
      stream := stream[t.used..];
      i := i + 1;
    }
  }

  // ---- Framing ----

  predicate IsFrame(frame: seq<Byte>, format: Byte, head: seq<Byte>, body: seq<Byte>) {
    (format == FORMAT_JSON || format == FORMAT_MSGPACK) && FitsLengths(head, body) && frame == Frame(format, head, body)
  }

  /** A frame as the encoder makes it, within the length bounds. */
  ghost predicate Sent(frame: seq<Byte>) {
    exists format, head, body :: IsFrame(frame, format, head, body)
  }

  /** What the receiver relies on in a sent frame. */
  predicate WellFormed(frame: seq<Byte>) {
    |frame| >= 11 && HeaderAccepts(frame[..10]) && PkgLen(frame[..10]) == |frame| && frame[|frame| - 1] == ETX
  }

  lemma FrameIsWellFormed(format: Byte, head: seq<Byte>, body: seq<Byte>)
    requires (format == FORMAT_JSON || format == FORMAT_MSGPACK) && FitsLengths(head, body)
    ensures WellFormed(Frame(format, head, body))
  {
    var h := Header(format, |head|, |body|);
    var frame := Frame(format, head, body);
    assert frame[..10] == h && h + [] == h;
    HeaderFields(format, |head|, |body|, []);
    assert frame[|frame| - 1] == ETX;
    assert HeaderAccepts(h);
    PkgLenExact(format, |head|, |body|);
  }

  /** Every frame the encoder makes passes every check of Read. */
  lemma SentIsWellFormed(frame: seq<Byte>)
    requires Sent(frame)
    ensures WellFormed(frame)
  {
    var format, head, body :| IsFrame(frame, format, head, body);
    FrameIsWellFormed(format, head, body);
  }

  function Concat(frames: seq<seq<Byte>>): seq<Byte> {
    if frames == [] then [] else frames[0] + Concat(frames[1..])
  }

  /** How many frames get through: up to the first that has not all arrived or whose read is cut short. */
  function Whole(frames: seq<seq<Byte>>, arrived: nat, cuts: seq<nat>): (k: nat)
    ensures k <= |frames| && k <= |cuts|
  {
    if frames == [] || cuts == [] || arrived < |frames[0]| || cuts[0] + 11 < |frames[0]| then 0
    else 1 + Whole(frames[1..], arrived - |frames[0]|, cuts[1..])
  }

  /** A frame at the front of the stream is dispatched exactly when the rest of it is read at once:
      otherwise the last byte of the zero-filled buffer is not the end mark. */
  lemma ReadsOneFrame(frame: seq<Byte>, input: seq<Byte>, cut: nat)
    requires WellFormed(frame) && frame <= input
    ensures ReadFrame(input, cut) == if cut + 11 < |frame| then Stop else Dispatched(frame, |frame|)
  {
    assert Filled(input, 10, 10) == frame[..10];
  }

  /** A frame that has arrived only in part is never dispatched. */
  lemma ReadsNoPart(frame: seq<Byte>, input: seq<Byte>, cut: nat)
    requires WellFormed(frame) && input < frame
    ensures ReadFrame(input, cut).Stop?
  {
    if |input| >= 10 {
      assert Filled(input, 10, 10) == frame[..10];
    } else {
      assert ReadFrame(input, cut).Stop?;
    }
  }

  /** What `turn` makes of a frame at the front of the stream, and of a part of one. */
  ghost predicate Reads(turn: Reader, frame: seq<Byte>) {
    && (forall input, cut: nat :: frame <= input ==>
          turn(input, cut) == if cut + 11 < |frame| then Stop else Dispatched(frame, |frame|))
    && (forall input, cut: nat :: input < frame ==> turn(input, cut).Stop?)
  }

  lemma ReadsWellFormed(frame: seq<Byte>)
    requires WellFormed(frame)
    ensures Reads(ReadFrame, frame)
  {
    forall input, cut: nat | frame <= input
      ensures ReadFrame(input, cut) == if cut + 11 < |frame| then Stop else Dispatched(frame, |frame|)
    {
      ReadsOneFrame(frame, input, cut);
    }
    forall input, cut: nat | input < frame
      ensures ReadFrame(input, cut).Stop?
    {
      ReadsNoPart(frame, input, cut);
    }
  }

  lemma PrefixOfTwo(input: seq<Byte>, a: seq<Byte>, b: seq<Byte>)
    requires input <= a + b
    ensures |input| < |a| ==> input < a
    ensures |input| >= |a| ==> a <= input && input[|a|..] <= b
  {
  }

  lemma {:induction false} LoopWhole(turn: Reader, frames: seq<seq<Byte>>, input: seq<Byte>, cuts: seq<nat>)
    requires forall cut: nat :: turn([], cut).Stop?
    requires forall i :: 0 <= i < |frames| ==> Reads(turn, frames[i])
    requires input <= Concat(frames)
    ensures Loop(turn, input, cuts) == frames[..Whole(frames, |input|, cuts)]
    decreases |cuts|
  {
    if cuts == [] || frames == [] {
    } else {
      var frame, rest := frames[0], frames[1..];
      PrefixOfTwo(input, frame, Concat(rest));
      if |input| >= |frame| && cuts[0] + 11 >= |frame| {
        LoopWhole(turn, rest, input[|frame|..], cuts[1..]);
        var k := Whole(rest, |input| - |frame|, cuts[1..]);
        assert [frame] + rest[..k] == frames[..k + 1];
      }
    }
  }

  /** What is dispatched is exactly the first frames sent, up to the first not read whole. */
  lemma DispatchesWhole(frames: seq<seq<Byte>>, input: seq<Byte>, cuts: seq<nat>)
    requires forall i :: 0 <= i < |frames| ==> WellFormed(frames[i])
    requires input <= Concat(frames)
    ensures Dispatches(input, cuts) == frames[..Whole(frames, |input|, cuts)]
  {
    forall i | 0 <= i < |frames|
      ensures Reads(ReadFrame, frames[i])
    {
      ReadsWellFormed(frames[i]);
    }
    LoopWhole(ReadFrame, frames, input, cuts);
  }

  lemma {:induction false} WholeMeansWhole(frames: seq<seq<Byte>>, arrived: nat, cuts: seq<nat>)
    requires |frames| <= |cuts| && |Concat(frames)| <= arrived
    requires forall i :: 0 <= i < |frames| ==> |frames[i]| <= cuts[i] + 11
    ensures Whole(frames, arrived, cuts) == |frames|
  {
    if frames == [] {
    } else {
      WholeMeansWhole(frames[1..], arrived - |frames[0]|, cuts[1..]);
    }
  }

  // ---- The sending side ----

  lemma {:induction false} ConcatAppend(a: seq<seq<Byte>>, b: seq<seq<Byte>>)
    ensures Concat(a + b) == Concat(a) + Concat(b)
  {
    if a == [] {
      assert a + b == b;
    } else {
      var rest := a[1..];
      ConcatAppend(rest, b);
      assert (a + b)[0] == a[0] && (a + b)[1..] == rest + b;
      assert a[0] + (Concat(rest) + Concat(b)) == (a[0] + Concat(rest)) + Concat(b);
    }
  }

  /** The packages among what is in a write channel; a nil tells the Write loop to end. */
  function Packages(chan: seq<Option<seq<Byte>>>): seq<seq<Byte>> {
    if chan == [] then []
    else (if chan[0].Some? then [chan[0].value] else []) + Packages(chan[1..])
  }

  lemma {:induction false} PackagesAppend(a: seq<Option<seq<Byte>>>, b: seq<Option<seq<Byte>>>)
    ensures Packages(a + b) == Packages(a) + Packages(b)
  {
    if a == [] {
      assert a + b == b;
    } else {
      var first, rest := if a[0].Some? then [a[0].value] else [], a[1..];
      PackagesAppend(rest, b);
      assert (a + b)[0] == a[0] && (a + b)[1..] == rest + b;
      assert first + (Packages(rest) + Packages(b)) == (first + Packages(rest)) + Packages(b);
    }
  }

  /** What reaches the channel of a connection: one frame at most. */
  function ToSend(frame: Option<seq<Byte>>, isClose: bool): (q: seq<seq<Byte>>)
    ensures |q| <= 1
  {
    if frame.None? || isClose then [] else [frame.value]
  }

  function Somes(frames: seq<seq<Byte>>): (w: seq<Option<seq<Byte>>>)
    ensures |w| == |frames| && forall i :: 0 <= i < |frames| ==> w[i] == Some(frames[i])
  {
    seq(|frames|, i requires 0 <= i < |frames| => Some(frames[i]))
  }

  lemma SomesAppend(a: seq<seq<Byte>>, b: seq<seq<Byte>>)
    ensures Somes(a + b) == Somes(a) + Somes(b)
  {
  }

  class EasyConnection {
    const activeTime: int
    var isClose: bool
    var writeChan: seq<Option<seq<Byte>>>
    var writing: bool                // the Write loop has not returned
    var wire: seq<Byte>              // what the socket has accepted
    ghost var queued: seq<seq<Byte>> // every package Send has put into the channel

    constructor (now: int)
      ensures Quiet() && !isClose && activeTime == now && queued == []
    {
      activeTime := now;
      isClose, writing := false, true;
      writeChan, queued, wire := [], [], [];
    }

    /** What is on the wire is what was queued, in order, up to what is still in the channel. */
    ghost predicate Valid()
      reads this`writeChan, this`writing, this`wire, this`queued
    {
      && wire <= Concat(queued)
      && (writing ==> Concat(queued) == wire + Concat(Packages(writeChan)))
    }

    /** Nothing is under way: the Write loop waits at an empty channel. */
    ghost predicate Quiet()
      reads this`writeChan, this`writing, this`wire, this`queued
    {
      Valid() && writing && writeChan == []
    }

    method Close()
      modifies this`isClose
      ensures isClose
    {
      isClose := true;
    }

    /** What Read does when its loop ends: from now on Send drops, and the Write loop ends once it has
        written what was queued before. */
    method EndRead()
      requires Valid()
      modifies this`isClose, this`writeChan
      ensures Valid() && isClose && writeChan == old(writeChan) + [None]
    {
      Close();
      PackagesAppend(writeChan, [None]);
      assert Packages([None]) == [];
      assert Packages(writeChan + [None]) == Packages(writeChan);
      writeChan := writeChan + [None];
    }

    /** A closed connection drops the package; an open one queues it last. */
    method Send(pkgData: seq<Byte>)
      requires Valid()
      modifies this`writeChan, this`queued
      ensures Valid()
      ensures queued == if isClose then old(queued) else old(queued) + [pkgData]
      ensures writeChan == if isClose then old(writeChan) else old(writeChan) + [Some(pkgData)]
    {
      if isClose {
        return;
      }
      PackagesAppend(writeChan, [Some(pkgData)]);
      assert Packages([Some(pkgData)]) == [pkgData];
      ConcatAppend(queued, [pkgData]);
      ConcatAppend(Packages(writeChan), [pkgData]);
      writeChan := writeChan + [Some(pkgData)];
      queued := queued + [pkgData];
    }

    /** One turn of the Write loop: a nil ends it; the oldest package goes to the socket, which accepts
        all of it or fails after `accepted` bytes, and then the loop ends as well. */
    method WriteNext(failed: bool, accepted: nat)
      requires Valid() && writing && writeChan != []
      modifies this`writeChan, this`wire, this`writing
      ensures Valid() && writeChan == old(writeChan)[1..]
      ensures old(writeChan)[0].None? ==> !writing && wire == old(wire)
      ensures old(writeChan)[0].Some? ==>
                var pkgData := old(writeChan)[0].value;
                writing == !failed
                && wire == old(wire) + if failed then pkgData[..Min(accepted, |pkgData|)] else pkgData
    {
      var item := writeChan[0];
      writeChan := writeChan[1..];
      if item.None? {
        writing := false;
        return;
      }
      var pkgData := item.value;
      assert Packages(old(writeChan)) == [pkgData] + Packages(writeChan);
      if failed {
        wire := wire + pkgData[..Min(accepted, |pkgData|)];
        writing := false;
      } else {
        wire := wire + pkgData;
      }
    }

    /** End to end: whatever part of the wire has arrived, however the reads are cut, what the other
        side dispatches is an initial run of what was queued, each package whole. */
    lemma DispatchedArePrefix(arrived: seq<Byte>, cuts: seq<nat>)
      requires Valid() && arrived <= wire
      requires forall i :: 0 <= i < |queued| ==> Sent(queued[i])
      ensures Dispatches(arrived, cuts) <= queued
    {
      forall i | 0 <= i < |queued|
        ensures WellFormed(queued[i])
      {
        SentIsWellFormed(queued[i]);
      }
      DispatchesWhole(queued, arrived, cuts);
    }

    /** And with nothing left in the channel, all of the wire arrived and no read cut short, it is
        everything that was queued. */
    lemma AllDispatched(cuts: seq<nat>)
      requires Quiet()
      requires forall i :: 0 <= i < |queued| ==> Sent(queued[i])
      requires |queued| <= |cuts| && forall i :: 0 <= i < |queued| ==> |queued[i]| <= cuts[i] + 11
      ensures Dispatches(wire, cuts) == queued
    {
      forall i | 0 <= i < |queued|
        ensures WellFormed(queued[i])
      {
        SentIsWellFormed(queued[i]);
      }
      assert Concat(queued) == wire;
      WholeMeansWhole(queued, |wire|, cuts);
      DispatchesWhole(queued, wire, cuts);
    }
  }

  /** The one package in a channel, through the Write loop, the wire and the Read loop of the other side. */
  method Carry(conn: EasyConnection, ghost frame: seq<Byte>) returns (frames: seq<seq<Byte>>)
    requires conn.Valid() && conn.writing && conn.writeChan == [Some(frame)] && WellFormed(frame)
    modifies conn`writeChan, conn`writing, conn`wire
    ensures conn.Quiet() && frames == [frame]
  {
    var start := |conn.wire|;
    conn.WriteNext(false, 0);
    var arrived := conn.wire[start..];
    frames := Read(arrived, [|arrived|]);
    assert arrived == frame && Concat([frame]) == frame + Concat([]) == frame;
    DispatchesWhole([frame], frame, [|frame|]);
    assert Whole([frame], |frame|, [|frame|]) == 1 + Whole([], 0, []);
  }
}
