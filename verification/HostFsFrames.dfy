/** The file server's frames: byte stuffing as in section 4.2 of RFC 1662, a checksum, and a
    parser that starts over at every flag. */
module HostFsFrames {
  import opened HostFsCrc
  import HostFsPoly

  const FLAG: Byte := 0x7e
  const ESC: Byte := 0x7d
  const FLAG_CODE: Byte := 0x5e
  const ESC_CODE: Byte := 0x5d
  const MAX_BODY: nat := 4096

  datatype Frame = Frame(kind: Byte, payload: seq<Byte>)

  // ---- Encoding ----

  function Escape(x: Byte): seq<Byte> {
    if x == FLAG then [ESC, FLAG_CODE] else if x == ESC then [ESC, ESC_CODE] else [x]
  }

  function EscapeAll(body: seq<Byte>): seq<Byte> {
    if body == [] then [] else EscapeAll(body[..|body| - 1]) + Escape(body[|body| - 1])
  }

  function LowHalf(c: Word): Byte {
    (c & 0xff) as Byte
  }

  function HighHalf(c: Word): Byte {
    (c >> 8) as Byte
  }

  function Join(lo: Byte, hi: Byte): Word {
    High(hi) | Low(lo)
  }

  function Body(f: Frame): seq<Byte> {
    var content := [f.kind] + f.payload;
    content + [LowHalf(Crc(content)), HighHalf(Crc(content))]
  }

  function Encode(f: Frame): seq<Byte> {
    [FLAG] + EscapeAll(Body(f)) + [FLAG]
  }

  /** `encode_frame` */
  method EncodeFrame(kind: Byte, payload: seq<Byte>) returns (bytes: seq<Byte>)
    ensures bytes == Encode(Frame(kind, payload))
  {
    hide Crc, Escape;
    var body := [kind] + payload;
    var crc := HostFsPoly.Crc16(body);
    body := body + [LowHalf(crc), HighHalf(crc)];
    var escaped := [];
    for i := 0 to |body|
      invariant escaped == EscapeAll(body[..i])
    {
      escaped := escaped + Escape(body[i]);
      assert body[..i + 1][..i] == body[..i];
    }
    assert body[..|body|] == body;
    bytes := [FLAG] + escaped + [FLAG];
  }

  // ---- Parsing ----

  datatype Parser = Parser(body: seq<Byte>, inFrame: bool, escaped: bool)

  const START := Parser([], false, false)
  const READY := Parser([], true, false)

  /** What a complete body is worth. */
  function Decode(body: seq<Byte>): seq<Frame> {
    var n := |body|;
    if 3 <= n <= MAX_BODY && Crc(body[..n - 2]) == Join(body[n - 2], body[n - 1]) then [Frame(body[0], body[1..n - 2])]
    else []
  }

  /** What a flag brings to an end. */
  function Closing(p: Parser): seq<Frame> {
    if p.inFrame && !p.escaped && p.body != [] then Decode(p.body) else []
  }

  function Append(p: Parser, x: Byte): Parser {
    if |p.body| < MAX_BODY then Parser(p.body + [x], true, false) else START
  }

  /** One byte of `feed`. */
  function Step(p: Parser, x: Byte): (Parser, seq<Frame>) {
    if x == FLAG then (READY, Closing(p))
    else if !p.inFrame then (p, [])
    else if p.escaped then
      (if x == FLAG_CODE then Append(p, FLAG) else if x == ESC_CODE then Append(p, ESC) else START, [])
    else if x == ESC then (p.(escaped := true), [])
    else (Append(p, x), [])
  }

  function Feed(p: Parser, data: seq<Byte>): (Parser, seq<Frame>) {
    if data == [] then (p, [])
    else
      var (p1, f1) := Feed(p, data[..|data| - 1]);
      var (p2, f2) := Step(p1, data[|data| - 1]);
      (p2, f1 + f2)
  }

  class FrameParser {
    var body: seq<Byte>
    var inFrame: bool
    var escaped: bool

    ghost function State(): Parser reads this { Parser(body, inFrame, escaped) }

    constructor ()
      ensures State() == START
    {
      body, inFrame, escaped := [], false, false;
    }

    /** `FrameParser.feed` */
    method FeedBytes(data: seq<Byte>) returns (frames: seq<Frame>)
      modifies this
      ensures (State(), frames) == Feed(old(State()), data)
    {
      hide Crc, Join;
      frames := [];
      for i := 0 to |data|
        invariant (State(), frames) == Feed(old(State()), data[..i])
      {
        var x := data[i];
        assert data[..i + 1][..i] == data[..i];
        ghost var before := State();
        ghost var soFar := frames;
        if x == FLAG {
          if inFrame && !escaped && body != [] && 3 <= |body| <= MAX_BODY {
            var n := |body|;
            var crc := HostFsPoly.Crc16(body[..n - 2]);
            if crc == Join(body[n - 2], body[n - 1]) { frames := frames + [Frame(body[0], body[1..n - 2])]; }
          }
          body, inFrame, escaped := [], true, false;
        } else if inFrame {
          if escaped && x != FLAG_CODE && x != ESC_CODE {
            body, inFrame, escaped := [], false, false;
          } else if !escaped && x == ESC {
            escaped := true;
          } else {
            if escaped { x := if x == FLAG_CODE then FLAG else ESC; }
            escaped := false;
            if |body| < MAX_BODY { body := body + [x]; } else { body, inFrame, escaped := [], false, false; }
          }
        }
        assert soFar + [] == soFar;
        assert (State(), frames) == (Step(before, data[i]).0, soFar + Step(before, data[i]).1);
      }
      assert data[..|data|] == data;
    }
  }

  // ---- Chunks ----

  /** Feeding a stream in two pieces is feeding it at once. */
  lemma {:induction false} FeedConcat(p: Parser, a: seq<Byte>, b: seq<Byte>)
    ensures Feed(p, a + b).0 == Feed(Feed(p, a).0, b).0
    ensures Feed(p, a + b).1 == Feed(p, a).1 + Feed(Feed(p, a).0, b).1
  {
    hide Step;
    if b == [] {
      assert a + b == a;
    } else {
      assert (a + b)[..|a + b| - 1] == a + b[..|b| - 1];
      FeedConcat(p, a, b[..|b| - 1]);
    }
  }

  function Flatten(chunks: seq<seq<Byte>>): seq<Byte> {
    if chunks == [] then [] else Flatten(chunks[..|chunks| - 1]) + chunks[|chunks| - 1]
  }

  /** Feeding chunk after chunk. */
  function FeedAll(p: Parser, chunks: seq<seq<Byte>>): (Parser, seq<Frame>) {
    if chunks == [] then (p, [])
    else
      var (p1, f1) := FeedAll(p, chunks[..|chunks| - 1]);
      var (p2, f2) := Feed(p1, chunks[|chunks| - 1]);
      (p2, f1 + f2)
  }

  /** However a stream is cut up, the same frames come out. */
  lemma {:induction false} ChunkingIsInvisible(p: Parser, chunks: seq<seq<Byte>>)
    ensures FeedAll(p, chunks) == Feed(p, Flatten(chunks))
  {
    if chunks != [] {
      var n := |chunks| - 1;
      ChunkingIsInvisible(p, chunks[..n]);
      FeedConcat(p, Flatten(chunks[..n]), chunks[n]);
    }
  }

  /** The parser never holds more than a body. */
  ghost predicate Bounded(p: Parser) {
    |p.body| <= MAX_BODY
  }

  lemma {:induction false} FeedBounded(p: Parser, data: seq<Byte>)
    requires Bounded(p)
    ensures Bounded(Feed(p, data).0)
    ensures forall f :: f in Feed(p, data).1 ==> |f.payload| <= MAX_BODY - 3
  {
    if data != [] { FeedBounded(p, data[..|data| - 1]); }
  }

  // ---- Round trip ----

  lemma JoinHalves(c: Word)
    ensures Join(LowHalf(c), HighHalf(c)) == c
  {
  }

  /** A body of the right size decodes to the frame it was made from; a longer one to nothing. */
  lemma DecodeBody(f: Frame)
    ensures Decode(Body(f)) == if |f.payload| <= MAX_BODY - 3 then [f] else []
  {
    hide Crc, Join, LowHalf, HighHalf;
    var body := Body(f);
    var content := [f.kind] + f.payload;
    assert body[..|body| - 2] == content && body[1..|body| - 2] == f.payload;
    JoinHalves(Crc(content));
  }

  lemma FeedOne(p: Parser, x: Byte)
    ensures Feed(p, [x]) == Step(p, x)
  {
    hide Step;
    assert [x][..0] == [];
    assert [] + Step(p, x).1 == Step(p, x).1;
  }

  lemma EscapeOne(p: Parser, x: Byte)
    requires !p.escaped
    ensures p.inFrame ==> Feed(p, Escape(x)) == (Append(p, x), [])
    ensures !p.inFrame ==> Feed(p, Escape(x)) == (p, [])
  {
    var e := Escape(x);
    FeedOne(p, e[0]);
    if |e| == 2 {
      assert e == [e[0]] + [e[1]];
      FeedConcat(p, [e[0]], [e[1]]);
      FeedOne(Step(p, e[0]).0, e[1]);
    }
  }

  /** An escaped body goes in whole if it fits, and is dropped as soon as it does not. */
  lemma {:induction false} EscapedBody(p: Parser, body: seq<Byte>)
    requires p.inFrame && !p.escaped && Bounded(p)
    ensures Feed(p, EscapeAll(body)) ==
      (if |p.body| + |body| <= MAX_BODY then Parser(p.body + body, true, false) else START, [])
  {
    hide Step, Escape;
    if body == [] {
      assert p.body + body == p.body;
    } else {
      var n := |body| - 1;
      EscapedBody(p, body[..n]);
      FeedConcat(p, EscapeAll(body[..n]), Escape(body[n]));
      EscapeOne(Feed(p, EscapeAll(body[..n])).0, body[n]);
      assert p.body + body[..n] + [body[n]] == p.body + body;
    }
  }

  lemma FlagStep(p: Parser)
    ensures Feed(p, [FLAG]) == (READY, Closing(p))
  {
    FeedOne(p, FLAG);
  }

  /** From any state whatever, an encoded frame comes out, behind at most what its opening flag
      closes, if and only if its payload fits; and the parser is ready for the next. */
  lemma RoundTripIff(p: Parser, f: Frame)
    ensures Feed(p, Encode(f)) == (READY, Closing(p) + if |f.payload| <= MAX_BODY - 3 then [f] else [])
  {
    hide Step, Feed, EscapeAll, Body, Decode;
    var coded := EscapeAll(Body(f));
    FeedConcat(p, [FLAG] + coded, [FLAG]);
    FeedConcat(p, [FLAG], coded);
    FlagStep(p);
    EscapedBody(READY, Body(f));
    FlagStep(Feed(p, [FLAG] + coded).0);
    BodySize(f);
    DecodeBody(f);
    assert READY.body + Body(f) == Body(f);
    assert Closing(p) + [] == Closing(p);
  }

  lemma BodySize(f: Frame)
    ensures |Body(f)| == |f.payload| + 3
  {
  }

  function EncodeAll(frames: seq<Frame>): seq<Byte> {
    if frames == [] then [] else EncodeAll(frames[..|frames| - 1]) + Encode(frames[|frames| - 1])
  }

  ghost predicate Fitting(frames: seq<Frame>) {
    forall i :: 0 <= i < |frames| ==> |frames[i].payload| <= MAX_BODY - 3
  }

  /** Encoded one after another, frames come out one after another, whatever came before. */
  lemma {:induction false} StreamRoundTrip(p: Parser, frames: seq<Frame>)
    requires Fitting(frames) && frames != []
    ensures Feed(p, EncodeAll(frames)) == (READY, Closing(p) + frames)
  {
    hide Step, Feed, Encode, Decode;
    var n := |frames| - 1;
    if n == 0 {
      RoundTripIff(p, frames[0]);
      assert EncodeAll(frames[..0]) == [] && EncodeAll(frames) == Encode(frames[0]);
      assert [frames[0]] == frames;
    } else {
      StreamRoundTrip(p, frames[..n]);
      FeedConcat(p, EncodeAll(frames[..n]), Encode(frames[n]));
      RoundTripIff(READY, frames[n]);
      assert [] + [frames[n]] == [frames[n]];
      assert Closing(p) + frames[..n] + [frames[n]] == Closing(p) + frames;
    }
  }

  lemma FreshStart()
    ensures Feed(START, []) == (START, []) && Closing(START) == []
  {
  }

  /** After any garbage, in any chunks, the stream is parsed from its first flag on: behind what
      the garbage amounted to come exactly the frames that were sent. */
  lemma Resynchronises(junk: seq<Byte>, frames: seq<Frame>, chunks: seq<seq<Byte>>)
    requires Fitting(frames) && frames != [] && Flatten(chunks) == junk + EncodeAll(frames)
    ensures var before := Feed(START, junk); FeedAll(START, chunks) == (READY, before.1 + Closing(before.0) + frames)
    ensures junk == [] ==> FeedAll(START, chunks) == (READY, frames)
  {
    hide Step, Encode, EncodeAll, Closing, FeedAll, Flatten, Feed;
    ChunkingIsInvisible(START, chunks);
    FeedConcat(START, junk, EncodeAll(frames));
    var before := Feed(START, junk);
    StreamRoundTrip(before.0, frames);
    assert before.1 + (Closing(before.0) + frames) == before.1 + Closing(before.0) + frames;
    if junk == [] {
      FreshStart();
      assert before.1 + Closing(before.0) + frames == frames;
    }
  }

  // ---- Corruption ----

  lemma JoinInjective(lo: Byte, hi: Byte, lo': Byte, hi': Byte)
    requires Join(lo, hi) == Join(lo', hi')
    ensures lo == lo' && hi == hi'
  {
    JoinSplits(lo, hi);
    JoinSplits(lo', hi');
  }

  lemma JoinSplits(lo: Byte, hi: Byte)
    ensures LowHalf(Join(lo, hi)) == lo && HighHalf(Join(lo, hi)) == hi
  {
  }

  /** A body with exactly one wrong byte, checksum included, is rejected. */
  lemma CorruptByteRejected(f: Frame, i: nat, x: Byte)
    requires i < |Body(f)| && x != Body(f)[i]
    ensures Decode(Body(f)[i := x]) == []
  {
    hide Crc, Join, LowHalf, HighHalf;
    var body := Body(f);
    var bad := body[i := x];
    var n := |body|;
    var content := [f.kind] + f.payload;
    assert body[..n - 2] == content;
    JoinHalves(Crc(content));
    if i < n - 2 {
      OneByteDetected(content[..i], content[i], x, content[i + 1..]);
      assert content == content[..i] + [content[i]] + content[i + 1..];
      assert bad[..n - 2] == content[..i] + [x] + content[i + 1..];
    } else {
      assert bad[..n - 2] == content;
      if Join(bad[n - 2], bad[n - 1]) == Crc(content) {
        JoinInjective(bad[n - 2], bad[n - 1], body[n - 2], body[n - 1]);
      }
    }
  }
}
