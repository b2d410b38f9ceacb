/**
  A concrete codec for heads and bodies: numbers as big-endian words, strings with their length in front,
  one byte a character. It satisfies what the other modules assume of msgpack and JSON.
 */
module PlainCodec {
  import opened Wrappers
  import opened Package

  const SEQ_MODULUS: nat := WORD * WORD

  predicate Narrow(s: string) {
    |s| < WORD && forall i :: 0 <= i < |s| ==> s[i] as int < 256
  }

  function Bytes(s: string): (b: seq<Byte>)
    requires Narrow(s)
    ensures |b| == |s|
  {
    seq(|s|, i requires 0 <= i < |s| => s[i] as int)
  }

  function Text(b: seq<Byte>): (s: string)
    ensures |s| == |b|
  {
    seq(|b|, i requires 0 <= i < |b| => b[i] as char)
  }

  lemma TextOfBytes(s: string)
    requires Narrow(s)
    ensures Text(Bytes(s)) == s
  {
  }

  function EncodeText(s: string): Option<seq<Byte>> {
    if Narrow(s) then Some(Bytes(s)) else None
  }

  function DecodeText(b: seq<Byte>): Option<string> {
    Some(Text(b))
  }

  lemma TextCodecInverse()
    ensures Inverse(Codec(EncodeText, DecodeText))
  {
    forall s: string, b | EncodeText(s) == Some(b)
      ensures DecodeText(b) == Some(s)
    {
      TextOfBytes(s);
    }
  }

  // ---- Numbers and strings one after the other ----

  function PutNumber(q: nat): (b: seq<Byte>)
    requires q < SEQ_MODULUS
    ensures |b| == 8
  {
    EncodeSeq(q).value
  }

  function TakeNumber(b: seq<Byte>): Option<(nat, seq<Byte>)> {
    if |b| < 8 then None else Some((DecodeSeq(b[..8]).value, b[8..]))
  }

  lemma NumberBack(q: nat, rest: seq<Byte>)
    requires q < SEQ_MODULUS
    ensures TakeNumber(PutNumber(q) + rest) == Some((q, rest))
  {
    SeqCodecInverse();
    var codec := Codec(EncodeSeq, DecodeSeq);
    assert codec.encode(q) == Some(PutNumber(q)) && codec.decode(PutNumber(q)) == Some(q);
    assert (PutNumber(q) + rest)[..8] == PutNumber(q) && (PutNumber(q) + rest)[8..] == rest;
  }

  function PutText(s: string): (b: seq<Byte>)
    requires Narrow(s)
    ensures |b| == 4 + |s|
  {
    PutUint32(|s|) + Bytes(s)
  }

  function TakeText(b: seq<Byte>): Option<(string, seq<Byte>)> {
    if |b| < 4 || |b| < 4 + Uint32(b[..4]) then None
    else Some((Text(b[4..4 + Uint32(b[..4])]), b[4 + Uint32(b[..4])..]))
  }

  lemma TextBack(s: string, rest: seq<Byte>)
    requires Narrow(s)
    ensures TakeText(PutText(s) + rest) == Some((s, rest))
  {
    var b := PutText(s) + rest;
    assert b[..4] == PutUint32(|s|);
    WordRoundTrip(|s|);
    assert b[4..4 + |s|] == Bytes(s) && b[4 + |s|..] == rest;
    TextOfBytes(s);
  }

  // ---- Heads ----

  /** A signed number as a sign and a magnitude. */
  function Sign(n: int): nat { if n < 0 then 1 else 0 }

  function Magnitude(n: int): nat { if n < 0 then -n else n }

  function Signed(sign: nat, m: nat): int { if sign == 1 then 0 - m else m }

  predicate Plain(h: Head) {
    && h.seqNo < SEQ_MODULUS && Magnitude(h.ret) < SEQ_MODULUS
    && Narrow(h.service) && Narrow(h.method_) && Narrow(h.routeKey) && Narrow(h.msg)
  }

  function EncodeHead(h: Head): Option<seq<Byte>> {
    if Plain(h) then
      Some(PutNumber(h.seqNo) + (PutNumber(Sign(h.ret)) + (PutNumber(Magnitude(h.ret))
           + (PutText(h.service) + (PutText(h.method_) + (PutText(h.routeKey) + (PutText(h.msg) + [])))))))
    else None
  }

  function DecodeNumbers(b: seq<Byte>): Option<(nat, int, seq<Byte>)> {
    match TakeNumber(b)
    case None => None
    case Some((q, b1)) =>
      match TakeNumber(b1)
      case None => None
      case Some((sign, b2)) =>
        match TakeNumber(b2)
        case None => None
        case Some((m, b3)) => Some((q, Signed(sign, m), b3))
  }

  function DecodeTexts(b: seq<Byte>): Option<(string, string, string, string)> {
    match TakeText(b)
    case None => None
    case Some((service, b1)) =>
      match TakeText(b1)
      case None => None
      case Some((method_, b2)) =>
        match TakeText(b2)
        case None => None
        case Some((routeKey, b3)) =>
          match TakeText(b3)
          case None => None
          case Some((msg, _)) => Some((service, method_, routeKey, msg))
  }

  function DecodeHead(b: seq<Byte>): Option<Head> {
    match DecodeNumbers(b)
    case None => None
    case Some((q, ret, rest)) =>
      match DecodeTexts(rest)
      case None => None
      case Some((service, method_, routeKey, msg)) => Some(Head(service, method_, routeKey, q, ret, msg))
  }

  lemma NumbersBack(q: nat, ret: int, rest: seq<Byte>)
    requires q < SEQ_MODULUS && Magnitude(ret) < SEQ_MODULUS
    ensures DecodeNumbers(PutNumber(q) + (PutNumber(Sign(ret)) + (PutNumber(Magnitude(ret)) + rest))) == Some((q, ret, rest))
  {
    NumberBack(q, PutNumber(Sign(ret)) + (PutNumber(Magnitude(ret)) + rest));
    NumberBack(Sign(ret), PutNumber(Magnitude(ret)) + rest);
    NumberBack(Magnitude(ret), rest);
  }

  lemma TextsBack(a: string, b: string, c: string, d: string)
    requires Narrow(a) && Narrow(b) && Narrow(c) && Narrow(d)
    ensures DecodeTexts(PutText(a) + (PutText(b) + (PutText(c) + (PutText(d) + [])))) == Some((a, b, c, d))
  {
    TextBack(a, PutText(b) + (PutText(c) + (PutText(d) + [])));
    TextBack(b, PutText(c) + (PutText(d) + []));
    TextBack(c, PutText(d) + []);
    TextBack(d, []);
  }

  lemma HeadCodecInverse()
    ensures Inverse(Codec(EncodeHead, DecodeHead))
  {
    forall h: Head, b | EncodeHead(h) == Some(b)
      ensures DecodeHead(b) == Some(h)
    {
      TextsBack(h.service, h.method_, h.routeKey, h.msg);
      NumbersBack(h.seqNo, h.ret, PutText(h.service) + (PutText(h.method_) + (PutText(h.routeKey) + (PutText(h.msg) + []))));
    }
  }

  lemma HeadLength(h: Head)
    requires Plain(h)
    ensures EncodeHead(h).Some?
    ensures |EncodeHead(h).value| == 40 + |h.service| + |h.method_| + |h.routeKey| + |h.msg|
  {
  }
}
