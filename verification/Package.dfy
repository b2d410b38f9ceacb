/**
  easy_package.go: the frame layout, the encoder that fills and patches a buffer, and the decoder that
  slices it. How heads and bodies become bytes is a parameter, one codec per format.
 */
module Package {
  import opened Wrappers

  type Byte = x: int | 0 <= x < 256

  const STX: Byte := 2
  const ETX: Byte := 3
  const FORMAT_MSGPACK: Byte := 0
  const FORMAT_JSON: Byte := 1
  const HEAD_MAX_LEN: nat := 128 * 2014
  const BODY_MAX_LEN: nat := 2 * 1024 * 1024
  const WORD: nat := 0x1_0000_0000

  // ---- Heads ----

  /** What the client and the handler read and write of a head; its other fields are only carried. */
  datatype Head = Head(service: string, method_: string, routeKey: string, seqNo: nat, ret: int, msg: string)

  class EasyHead {
    const service: string
    const method_: string
    const routeKey: string
    var seqNo: nat
    var ret: int
    var msg: string

    constructor (h: Head)
      ensures View() == h
    {
      service, method_, routeKey := h.service, h.method_, h.routeKey;
      seqNo, ret, msg := h.seqNo, h.ret, h.msg;
    }

    function View(): Head
      reads this
    {
      Head(service, method_, routeKey, seqNo, ret, msg)
    }
  }

  // ---- Big-endian words ----

  function PutUint32(v: nat): (b: seq<Byte>)
    requires v < WORD
    ensures |b| == 4
  {
    [v / 0x100_0000, v / 0x1_0000 % 256, v / 256 % 256, v % 256]
  }

  function Uint32(b: seq<Byte>): (v: nat)
    requires |b| == 4
    ensures v < WORD
  {
    (b[0] as int) * 0x100_0000 + (b[1] as int) * 0x1_0000 + (b[2] as int) * 256 + b[3] as int
  }

  lemma WordRoundTrip(v: nat)
    requires v < WORD
    ensures Uint32(PutUint32(v)) == v
  {
    var a, b := v / 256, v / 0x1_0000;
    assert a / 256 == b && b / 256 == v / 0x100_0000;
    assert v == 256 * a + v % 256 && a == 256 * b + a % 256 && b == 256 * (b / 256) + b % 256;
  }

  // ---- Codecs ----

  datatype Codec<!T> = Codec(encode: T -> Option<seq<Byte>>, decode: seq<Byte> -> Option<T>)

  datatype Codecs<!T> = Codecs(msgpack: Codec<T>, json: Codec<T>) {
    function For(format: Byte): Option<Codec<T>> {
      if format == FORMAT_MSGPACK then Some(msgpack)
      else if format == FORMAT_JSON then Some(json)
      else None
    }
  }

  /** The codecs of both sides: for heads and for bodies. */
  datatype Wire = Wire(heads: Codecs<Head>, bodies: Codecs<string>)

  /** Decoding undoes encoding. */
  ghost predicate Inverse<T(!new)>(codec: Codec<T>) {
    forall t, b :: codec.encode(t) == Some(b) ==> codec.decode(b) == Some(t)
  }

  // ---- Layout ----

  function Header(format: Byte, headLen: nat, bodyLen: nat): (b: seq<Byte>)
    ensures |b| == 10
  {
    [STX, format] + PutUint32(headLen % WORD) + PutUint32(bodyLen % WORD)
  }

  function Frame(format: Byte, head: seq<Byte>, body: seq<Byte>): (b: seq<Byte>)
    ensures |b| == 11 + |head| + |body|
  {
    Header(format, |head|, |body|) + head + body + [ETX]
  }

  function HeadLen(data: seq<Byte>): nat
    requires |data| >= 10
  {
    Uint32(data[2..6])
  }

  function BodyLen(data: seq<Byte>): nat
    requires |data| >= 10
  {
    Uint32(data[6..10])
  }

  lemma HeaderFields(format: Byte, headLen: nat, bodyLen: nat, rest: seq<Byte>)
    requires headLen < WORD && bodyLen < WORD
    ensures var data := Header(format, headLen, bodyLen) + rest;
            data[0] == STX && data[1] == format && HeadLen(data) == headLen && BodyLen(data) == bodyLen
  {
    var data := Header(format, headLen, bodyLen) + rest;
    assert data[2..6] == PutUint32(headLen) && data[6..10] == PutUint32(bodyLen);
    WordRoundTrip(headLen);
    WordRoundTrip(bodyLen);
  }

  // ---- Layout in numbers ----

  /** The four bytes from `at` on, most significant first. */
  function BigEndian(data: seq<Byte>, at: nat): int
    requires at + 4 <= |data|
  {
    data[at] as int * 0x100_0000 + data[at + 1] as int * 0x1_0000 + data[at + 2] as int * 0x100 + data[at + 3] as int
  }

  lemma WordInNumbers(v: nat)
    requires v < WORD
    ensures BigEndian(PutUint32(v), 0) == v
  {
    WordRoundTrip(v);
  }

  /** What a peer finds in a frame, byte by byte. */
  lemma FrameLayout(format: Byte, head: seq<Byte>, body: seq<Byte>)
    ensures var data := Frame(format, head, body);
            && |data| == 11 + |head| + |body| && data[0] == 2 && data[1] == format && data[|data| - 1] == 3
            && data[2] as int * 0x100_0000 + data[3] as int * 0x1_0000 + data[4] as int * 0x100 + data[5] as int == |head| % WORD
            && data[6] as int * 0x100_0000 + data[7] as int * 0x1_0000 + data[8] as int * 0x100 + data[9] as int == |body| % WORD
            && data[10..10 + |head|] == head && data[10 + |head|..10 + |head| + |body|] == body
  {
    var data := Frame(format, head, body);
    var h, b := PutUint32(|head| % WORD), PutUint32(|body| % WORD);
    assert data[2..6] == h && data[6..10] == b;
    assert data[2] == h[0] && data[3] == h[1] && data[4] == h[2] && data[5] == h[3];
    assert data[6] == b[0] && data[7] == b[1] && data[8] == b[2] && data[9] == b[3];
    WordInNumbers(|head| % WORD);
    WordInNumbers(|body| % WORD);
  }

  // ---- Encoding ----

  method Patch(a: array<Byte>, at: nat, b: seq<Byte>)
    requires at + |b| <= a.Length
    modifies a
    ensures a[..] == old(a[..at]) + b + old(a[at + |b|..])
  {
    for i := 0 to |b|
      invariant a[..] == old(a[..at]) + b[..i] + old(a[at + i..])
    {
      a[at + i] := b[i];
      assert a[..] == old(a[..at]) + b[..i + 1] + old(a[at + i + 1..]);
    }
    assert b[..|b|] == b;
  }

  /** Appends the end mark to a buffer with ten spare bytes in front and patches the header in. */
  method Seal(buf: seq<Byte>, format: Byte, headLen: nat, bodyLen: nat) returns (pkgData: array<Byte>)
    requires |buf| >= 10
    ensures fresh(pkgData) && pkgData[..] == Header(format, headLen, bodyLen) + buf[10..] + [ETX]
  {
    var sealed := buf + [ETX];
    pkgData := new Byte[|sealed|](i requires 0 <= i < |sealed| => sealed[i]);
    assert pkgData[..] == sealed;
    pkgData[0] := STX;
    pkgData[1] := format;
    assert pkgData[..] == [STX, format] + sealed[2..];
    Patch(pkgData, 2, PutUint32(headLen % WORD));
    assert pkgData[..] == ([STX, format] + PutUint32(headLen % WORD)) + sealed[6..];
    Patch(pkgData, 6, PutUint32(bodyLen % WORD));
    assert pkgData[..] == Header(format, headLen, bodyLen) + sealed[10..];
  }

  /** The frame of a package, if its format is known and its head can be encoded. */
  function Encoded<T>(codecs: Codecs<T>, format: Byte, head: T, bodyData: seq<Byte>): Option<seq<Byte>> {
    match codecs.For(format)
    case None => None
    case Some(codec) =>
      match codec.encode(head)
      case None => None
      case Some(headData) => Some(Frame(format, headData, bodyData))
  }

  function EncodedBody<B>(bodies: Codecs<B>, format: Byte, body: B): Option<seq<Byte>> {
    match bodies.For(format)
    case None => None
    case Some(codec) => codec.encode(body)
  }

  /** Room for the header, then head and body, then the end mark and the header. */
  method Assemble<T>(codecs: Codecs<T>, format: Byte, head: T, bodyData: seq<Byte>)
    returns (pkgData: array?<Byte>)
    ensures pkgData == null <==> Encoded(codecs, format, head, bodyData).None?
    ensures pkgData != null ==> fresh(pkgData) && pkgData[..] == Encoded(codecs, format, head, bodyData).value
  {
    pkgData := null;
    var buf: seq<Byte> := seq(10, _ => 0);
    var headLen, bodyLen := 0, 0;
    if format == FORMAT_MSGPACK {
      var encoded := codecs.msgpack.encode(head);
      if encoded.None? {
        return;
      }
      buf := buf + encoded.value;
      headLen := |buf| - 10;
      buf := buf + bodyData;
      bodyLen := |buf| - headLen - 10;
    } else if format == FORMAT_JSON {
      var encoded := codecs.json.encode(head);
      if encoded.None? {
        return;
      }
      buf := buf + encoded.value;
      headLen := |buf| - 10;
      buf := buf + bodyData;
      bodyLen := |buf| - headLen - 10;
    } else {
      return;
    }
    ghost var encoded := codecs.For(format).value.encode(head).value;
    assert buf[10..] == encoded + bodyData;
    pkgData := Seal(buf, format, headLen, bodyLen);
  }

  /** The package on the wire: start mark, format, the two lengths with the most significant byte first,
      the head as its format's codec writes it, the body, end mark. */
  method EncodeWithBodyData<T>(codecs: Codecs<T>, format: Byte, head: T, bodyData: seq<Byte>)
    returns (pkgData: array?<Byte>)
    ensures pkgData == null <==> Encoded(codecs, format, head, bodyData).None?
    ensures pkgData != null ==> fresh(pkgData) && pkgData[..] == Encoded(codecs, format, head, bodyData).value
    ensures pkgData != null ==>
              && (format == 0 || format == 1)
              && var headData := (if format == 0 then codecs.msgpack else codecs.json).encode(head).value;
              var h, b := |headData|, |bodyData|;
              && pkgData.Length == 11 + h + b && pkgData[0] == 2 && pkgData[1] == format && pkgData[10 + h + b] == 3
              && pkgData[2] as int * 0x100_0000 + pkgData[3] as int * 0x1_0000 + pkgData[4] as int * 0x100 + pkgData[5] as int == h % WORD
              && pkgData[6] as int * 0x100_0000 + pkgData[7] as int * 0x1_0000 + pkgData[8] as int * 0x100 + pkgData[9] as int == b % WORD
              && pkgData[10..10 + h] == headData && pkgData[10 + h..10 + h + b] == bodyData
  {
    pkgData := Assemble(codecs, format, head, bodyData);
    if pkgData != null {
      ghost var headData, data := codecs.For(format).value.encode(head).value, pkgData[..];
      FrameLayout(format, headData, bodyData);
      assert data[10..10 + |headData|] == pkgData[10..10 + |headData|];
    }
  }

  /** EncodeWithBody encodes the body with the same format's codec and lays it out the same way. */
  method EncodeWithBody<T, B>(codecs: Codecs<T>, bodies: Codecs<B>, format: Byte, head: T, body: B)
    returns (pkgData: array?<Byte>)
    ensures var bodyData := EncodedBody(bodies, format, body);
            && (pkgData == null <==> bodyData.None? || Encoded(codecs, format, head, bodyData.value).None?)
            && (pkgData != null ==>
                  fresh(pkgData) && pkgData[..] == Encoded(codecs, format, head, bodyData.value).value)
  {
    pkgData := null;
    if format != FORMAT_MSGPACK && format != FORMAT_JSON {
      return;
    }
    var bodyData := if format == FORMAT_MSGPACK then bodies.msgpack.encode(body) else bodies.json.encode(body);
    if bodyData.None? {
      return;
    }
    pkgData := EncodeWithBodyData(codecs, format, head, bodyData.value);
  }

  // ---- Decoding ----

  datatype Decoded<T> = Package(format: Byte, head: T, bodyData: seq<Byte>) | HeadError | InvalidFormat | Panic

  /** Slice bounds are computed in 32 bits, as the code does; a slice out of range panics. */
  function DecodeSlices<T>(codecs: Codecs<T>, data: seq<Byte>, headLen: nat, bodyLen: nat): Decoded<T>
    requires |data| >= 10
  {
    var headEnd, bodyEnd := (10 + headLen) % WORD, (10 + headLen + bodyLen) % WORD;
    if !(10 <= headEnd <= bodyEnd <= |data|) then Panic
    else match codecs.For(data[1])
      case None => InvalidFormat
      case Some(codec) =>
        match codec.decode(data[10..headEnd])
        case None => HeadError
        case Some(head) => Package(data[1], head, data[headEnd..bodyEnd])
  }

  function DecodeWithBodyData<T>(codecs: Codecs<T>, data: seq<Byte>): Decoded<T> {
    if |data| < 10 then Panic else DecodeSlices(codecs, data, HeadLen(data), BodyLen(data))
  }

  /** The lengths a sender keeps to: an admissible head and a frame whose length fits 32 bits. */
  predicate FitsLengths(head: seq<Byte>, body: seq<Byte>) {
    |head| <= HEAD_MAX_LEN && 11 + |head| + |body| < WORD
  }

  /** The header and the three slices of a frame are exactly where the decoder looks. */
  lemma FrameParts(format: Byte, head: seq<Byte>, body: seq<Byte>)
    requires FitsLengths(head, body)
    ensures var data := Frame(format, head, body);
            && data[0] == STX && data[1] == format && data[|data| - 1] == ETX
            && HeadLen(data) == |head| && BodyLen(data) == |body|
            && data[10..10 + |head|] == head && data[10 + |head|..10 + |head| + |body|] == body
            && |data| == 10 + |head| + |body| + 1
  {
    var data := Frame(format, head, body);
    assert data == Header(format, |head|, |body|) + (head + body + [ETX]);
    HeaderFields(format, |head|, |body|, head + body + [ETX]);
  }

  lemma SliceFrame<T>(codecs: Codecs<T>, data: seq<Byte>, headLen: nat, bodyLen: nat)
    requires |data| == 11 + headLen + bodyLen < WORD && codecs.For(data[1]).Some?
    ensures DecodeSlices(codecs, data, headLen, bodyLen) ==
            match codecs.For(data[1]).value.decode(data[10..10 + headLen])
            case None => HeadError
            case Some(h) => Package(data[1], h, data[10 + headLen..10 + headLen + bodyLen])
  {
  }

  lemma DecodeFrame<T>(codecs: Codecs<T>, format: Byte, head: seq<Byte>, body: seq<Byte>)
    requires codecs.For(format).Some? && FitsLengths(head, body)
    ensures DecodeWithBodyData(codecs, Frame(format, head, body)) ==
            match codecs.For(format).value.decode(head)
            case None => HeadError
            case Some(h) => Package(format, h, body)
  {
    FrameParts(format, head, body);
    SliceFrame(codecs, Frame(format, head, body), |head|, |body|);
  }

  /** The package can be encoded, within the bounds. */
  predicate Fits<T>(codecs: Codecs<T>, format: Byte, head: T, body: seq<Byte>) {
    && codecs.For(format).Some? && codecs.For(format).value.encode(head).Some?
    && FitsLengths(codecs.For(format).value.encode(head).value, body)
  }

  /** Decoding an encoded package returns the format, the head and the body it was made of. */
  lemma RoundTrip<T(!new)>(codecs: Codecs<T>, format: Byte, head: T, body: seq<Byte>)
    requires Inverse(codecs.msgpack) && Inverse(codecs.json) && Fits(codecs, format, head, body)
    ensures Encoded(codecs, format, head, body).Some?
    ensures DecodeWithBodyData(codecs, Encoded(codecs, format, head, body).value) == Package(format, head, body)
  {
    var codec := codecs.For(format).value;
    var b := codec.encode(head).value;
    assert codec.decode(b) == Some(head);
    DecodeFrame(codecs, format, b, body);
  }

  lemma LengthsInNumbers(data: seq<Byte>)
    requires |data| >= 10
    ensures HeadLen(data)
            == data[2] as int * 0x100_0000 + data[3] as int * 0x1_0000 + data[4] as int * 0x100 + data[5] as int
    ensures BodyLen(data)
            == data[6] as int * 0x100_0000 + data[7] as int * 0x1_0000 + data[8] as int * 0x100 + data[9] as int
  {
  }

  lemma DecodeAt<T>(codecs: Codecs<T>, data: seq<Byte>, h: nat, b: nat)
    requires |data| >= 10 && 10 + h + b < WORD
    ensures DecodeSlices(codecs, data, h, b) ==
            if |data| < 10 + h + b then Panic
            else if data[1] != 0 && data[1] != 1 then InvalidFormat
            else
              var head := (if data[1] == 0 then codecs.msgpack else codecs.json).decode(data[10..10 + h]);
              if head.None? then HeadError else Package(data[1], head.value, data[10 + h..10 + h + b])
  {
  }

  /** What the decoder makes of any bytes whose lengths do not wrap, in numbers: too few of them, a
      format that is neither msgpack (0) nor JSON (1), a head that its format's codec cannot read, or the
      package, whatever follows it. */
  lemma DecodeInNumbers<T>(codecs: Codecs<T>, data: seq<Byte>)
    ensures |data| < 10 ==> DecodeWithBodyData(codecs, data).Panic?
    ensures |data| >= 10 ==>
              var h := data[2] as int * 0x100_0000 + data[3] as int * 0x1_0000 + data[4] as int * 0x100 + data[5] as int;
              var b := data[6] as int * 0x100_0000 + data[7] as int * 0x1_0000 + data[8] as int * 0x100 + data[9] as int;
              10 + h + b < 0x1_0000_0000 ==>
                if |data| < 10 + h + b then DecodeWithBodyData(codecs, data).Panic?
                else if data[1] != 0 && data[1] != 1 then DecodeWithBodyData(codecs, data).InvalidFormat?
                else
                  var head := (if data[1] == 0 then codecs.msgpack else codecs.json).decode(data[10..10 + h]);
                  DecodeWithBodyData(codecs, data)
                  == if head.None? then HeadError else Package(data[1], head.value, data[10 + h..10 + h + b])
  {
    if |data| >= 10 {
      LengthsInNumbers(data);
      if 10 + HeadLen(data) + BodyLen(data) < WORD {
        DecodeAt(codecs, data, HeadLen(data), BodyLen(data));
      }
    }
  }

  /** Both sides use codecs that are inverse. */
  ghost predicate Agreed(wire: Wire) {
    Inverse(wire.heads.msgpack) && Inverse(wire.heads.json) && Inverse(wire.bodies.msgpack) && Inverse(wire.bodies.json)
  }

  // ---- A codec that satisfies the hypothesis ----

  /** A head reduced to its sequence number, as eight big-endian bytes. */
  function EncodeSeq(q: nat): Option<seq<Byte>> {
    if q < WORD * WORD then Some(PutUint32(q / WORD) + PutUint32(q % WORD)) else None
  }

  function DecodeSeq(b: seq<Byte>): Option<nat> {
    if |b| == 8 then Some(Uint32(b[..4]) * WORD + Uint32(b[4..])) else None
  }

  lemma SeqCodecInverse()
    ensures Inverse(Codec(EncodeSeq, DecodeSeq))
  {
    forall q: nat, b | EncodeSeq(q) == Some(b)
      ensures DecodeSeq(b) == Some(q)
    {
      assert b[..4] == PutUint32(q / WORD) && b[4..] == PutUint32(q % WORD);
      WordRoundTrip(q / WORD);
      WordRoundTrip(q % WORD);
    }
  }
}
