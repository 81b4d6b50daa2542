/** The two phases of a connection: frames up to the guest's HELLO are discarded, the frames
    read ahead of it are kept, and nothing after it is lost. */
module HostFsStream {
  import opened Outcomes
  import opened HostFsCrc
  import opened HostFsFrames

  const TYPE_HELLO: Byte := 0xf0

  predicate IsHello(f: Frame) {
    f.kind == TYPE_HELLO && |f.payload| == 4
  }

  /** The token of the first valid HELLO, and the frames behind it. */
  function AfterHello(frames: seq<Frame>): Option<(seq<Byte>, seq<Frame>)> {
    if frames == [] then None
    else if IsHello(frames[0]) then Some((frames[0].payload, frames[1..]))
    else AfterHello(frames[1..])
  }

  /** `AfterHello` cuts exactly behind the first valid HELLO. */
  lemma {:induction false} AfterHelloCuts(frames: seq<Frame>, i: nat)
    requires i < |frames| && IsHello(frames[i]) && forall j :: 0 <= j < i ==> !IsHello(frames[j])
    ensures AfterHello(frames) == Some((frames[i].payload, frames[i + 1..]))
  {
    if i > 0 {
      AfterHelloCuts(frames[1..], i - 1);
      assert frames[1..][i..] == frames[i + 1..];
    }
  }

  lemma {:induction false} NoHello(frames: seq<Frame>)
    ensures AfterHello(frames).None? <==> forall j :: 0 <= j < |frames| ==> !IsHello(frames[j])
  {
    if frames != [] { NoHello(frames[1..]); }
  }

  /** What the dispatcher does with a frame, unpaused. */
  datatype Action =
    | Reset(payload: seq<Byte>)
    | Command(kind: Byte, payload: seq<Byte>)
    | Ignored

  function ActionOf(f: Frame): Action {
    if f.kind == TYPE_HELLO then (if |f.payload| == 4 then Reset(f.payload) else Ignored)
    else if 1 <= f.kind <= 8 then Command(f.kind, f.payload)
    else Ignored
  }

  const CMD_OPEN: Byte := 1
  const CMD_READ: Byte := 2
  const CMD_CLOSE: Byte := 3
  const CMD_STAT: Byte := 4
  const CMD_READDIR: Byte := 5
  const CMD_CREATE: Byte := 6
  const CMD_WRITE: Byte := 7
  const CMD_MKDIR: Byte := 8

  predicate IsCommand(kind: Byte) {
    kind in {CMD_OPEN, CMD_READ, CMD_CLOSE, CMD_STAT, CMD_READDIR, CMD_CREATE, CMD_WRITE, CMD_MKDIR}
  }

  /** What a frame calls for, by its kind: one of the eight commands is carried out with its own
      payload, only a HELLO of four bytes resets the session and answers with its token, and
      everything else is passed over. */
  predicate Answers(f: Frame, a: Action) {
    && (a.Command? <==> IsCommand(f.kind)) && (a.Command? ==> a.kind == f.kind && a.payload == f.payload)
    && (a.Reset? <==> f.kind == TYPE_HELLO && |f.payload| == 4) && (a.Reset? ==> a.payload == f.payload)
  }

  lemma AnswersIff(f: Frame, a: Action)
    ensures Answers(f, a) <==> a == ActionOf(f)
  {
    CommandKinds(f.kind);
  }

  lemma CommandKinds(kind: Byte)
    ensures IsCommand(kind) <==> 1 <= kind <= 8
    ensures !IsCommand(TYPE_HELLO)
  {
  }

  function ActionsOf(frames: seq<Frame>): (acts: seq<Action>)
    ensures |acts| == |frames| && forall i :: 0 <= i < |frames| ==> acts[i] == ActionOf(frames[i])
  {
    seq(|frames|, i requires 0 <= i < |frames| => ActionOf(frames[i]))
  }

  /** Frame by frame, in order. */
  predicate Answered(frames: seq<Frame>, acts: seq<Action>) {
    |acts| == |frames| && forall i :: 0 <= i < |frames| ==> Answers(frames[i], acts[i])
  }

  lemma ActionsAnswer(frames: seq<Frame>)
    ensures Answered(frames, ActionsOf(frames))
  {
    hide Answers, ActionOf;
    forall i | 0 <= i < |frames| ensures Answers(frames[i], ActionsOf(frames)[i]) {
      AnswersIff(frames[i], ActionOf(frames[i]));
    }
  }

  /** The frames of a whole byte stream. */
  function FramesOf(chunks: seq<seq<Byte>>): seq<Frame> {
    Feed(START, Flatten(chunks)).1
  }

  lemma {:induction false} FlattenSplit(a: seq<seq<Byte>>, b: seq<seq<Byte>>)
    ensures Flatten(a + b) == Flatten(a) + Flatten(b)
  {
    if b == [] {
      assert a + b == a;
    } else {
      var n := |b| - 1;
      var ab := a + b;
      assert ab[..|ab| - 1] == a + b[..n] && ab[|ab| - 1] == b[n];
      FlattenSplit(a, b[..n]);
      assert Flatten(a) + Flatten(b[..n]) + b[n] == Flatten(a) + (Flatten(b[..n]) + b[n]);
    }
  }

  lemma FlattenFirst(chunks: seq<seq<Byte>>)
    requires chunks != []
    ensures Flatten(chunks) == chunks[0] + Flatten(chunks[1..])
  {
    assert chunks == [chunks[0]] + chunks[1..];
    FlattenSplit([chunks[0]], chunks[1..]);
    assert [chunks[0]][..0] == [];
    assert Flatten([chunks[0]]) == chunks[0];
  }

  /** What is received before the end of the stream, which is an empty piece. */
  function Arrived(chunks: seq<seq<Byte>>): (r: seq<seq<Byte>>)
    ensures r <= chunks && forall i :: 0 <= i < |r| ==> r[i] != []
    ensures |r| < |chunks| ==> chunks[|r|] == []
  {
    if chunks == [] || chunks[0] == [] then [] else [chunks[0]] + Arrived(chunks[1..])
  }

  /** A byte stream that arrives in pieces of any size. */
  class Connection {
    const chunks: seq<seq<Byte>>
    var pos: nat

    ghost predicate Valid() reads this { pos <= |chunks| }

    /** The pieces still to be received. */
    ghost function Coming(): seq<seq<Byte>>
      reads this
      requires Valid()
    {
      Arrived(chunks[pos..])
    }

    constructor (chunks: seq<seq<Byte>>)
      ensures this.chunks == chunks && pos == 0
    {
      this.chunks := chunks;
      pos := 0;
    }

    /** The next piece; an empty one is the end of the stream, for good. */
    method Recv() returns (data: seq<Byte>)
      requires Valid()
      modifies `pos
      ensures Valid()
      ensures data != [] ==> pos == old(pos) + 1 && old(Coming()) == [data] + Coming()
      ensures data == [] ==> pos == old(pos) && old(Coming()) == []
    {
      if pos == |chunks| { return []; }
      if chunks[pos] != [] {
        assert chunks[pos..][1..] == chunks[pos + 1..];
        pos := pos + 1;
        return chunks[pos - 1];
      }
      return [];
    }
  }

  class FrameStream {
    const parser: FrameParser
    var pending: seq<Frame>

    constructor ()
      ensures parser.State() == START && pending == [] && fresh(parser)
    {
      parser := new FrameParser();
      pending := [];
    }

    /** Everything this stream will still deliver from the connection. */
    ghost function Remaining(conn: Connection): seq<Frame>
      reads this, parser, conn
      requires conn.Valid()
    {
      pending + Feed(parser.State(), Flatten(conn.Coming())).1
    }

    ghost function Left(conn: Connection): nat
      reads this, conn
      requires conn.Valid()
    {
      |conn.chunks| - conn.pos + if pending == [] then 0 else 1
    }

    /** `recv_frames` */
    method RecvFrames(conn: Connection) returns (frames: Option<seq<Frame>>)
      requires conn.Valid()
      modifies this, parser, conn
      ensures conn.Valid() && Left(conn) <= old(Left(conn)) && pending == []
      ensures frames.Some? ==> frames.value + Remaining(conn) == old(Remaining(conn)) && Left(conn) < old(Left(conn))
      ensures frames.None? ==> old(Remaining(conn)) == [] && Remaining(conn) == []
    {
      hide Feed, Flatten;
      if pending != [] {
        frames := Some(pending);
        pending := [];
        assert [] + Feed(parser.State(), Flatten(conn.Coming())).1 == Feed(parser.State(), Flatten(conn.Coming())).1;
        return;
      }
      ghost var rest := conn.Coming();
      ghost var before := parser.State();
      var data := conn.Recv();
      if data == [] {
        NothingLeft(before, rest);
        return None;
      }
      var got := parser.FeedBytes(data);
      FlattenFirst(rest);
      assert rest[1..] == conn.Coming();
      FeedConcat(before, data, Flatten(rest[1..]));
      return Some(got);
    }

    method Retain(frames: seq<Frame>)
      modifies `pending
      ensures pending == old(pending) + frames
    {
      pending := pending + frames;
    }
  }

  lemma NothingLeft(p: Parser, rest: seq<seq<Byte>>)
    requires rest == []
    ensures Feed(p, Flatten(rest)) == (p, [])
  {
  }

  /** Frames come in batches: the first HELLO is in the first batch that has one. */
  lemma {:induction false} SkipBatch(batch: seq<Frame>, rest: seq<Frame>)
    requires forall i :: 0 <= i < |batch| ==> !IsHello(batch[i])
    ensures AfterHello(batch + rest) == AfterHello(rest)
  {
    if batch == [] {
      assert batch + rest == rest;
    } else {
      assert (batch + rest)[1..] == batch[1..] + rest;
      SkipBatch(batch[1..], rest);
    }
  }

  lemma HelloInBatch(batch: seq<Frame>, i: nat, rest: seq<Frame>)
    requires i < |batch| && IsHello(batch[i]) && forall j :: 0 <= j < i ==> !IsHello(batch[j])
    ensures AfterHello(batch + rest) == Some((batch[i].payload, batch[i + 1..] + rest))
  {
    AfterHelloCuts(batch + rest, i);
    assert (batch + rest)[i + 1..] == batch[i + 1..] + rest;
  }

  /** `wait_for_handshake`: `None` is the end of the stream before any HELLO. */
  method WaitForHandshake(stream: FrameStream, conn: Connection) returns (hello: Option<seq<Byte>>)
    requires conn.Valid()
    modifies stream, stream.parser, conn
    ensures conn.Valid()
    ensures var after := AfterHello(old(stream.Remaining(conn)));
      if after.None? then hello.None? else hello == Some(after.value.0) && stream.Remaining(conn) == after.value.1
  {
    hide Feed, Flatten, AfterHello;
    ghost var all := stream.Remaining(conn);
    while true
      invariant conn.Valid() && AfterHello(stream.Remaining(conn)) == AfterHello(all)
      decreases stream.Left(conn)
    {
      var got := stream.RecvFrames(conn);
      if got.None? {
        NoHello([]);
        return None;
      }
      var frames := got.value;
      ghost var rest := stream.Remaining(conn);
      var index := 0;
      while index < |frames| && !(frames[index].kind == TYPE_HELLO && |frames[index].payload| == 4)
        invariant 0 <= index <= |frames| && forall i :: 0 <= i < index ==> !IsHello(frames[i])
      {
        index := index + 1;
      }
      if index < |frames| {
        HelloInBatch(frames, index, rest);
        stream.Retain(frames[index + 1..]);
        return Some(frames[index].payload);
      }
      SkipBatch(frames, rest);
    }
  }

  /** The frame loop of `dispatch`, in an unpaused run: the actions it takes until the end. */
  method Dispatch(stream: FrameStream, conn: Connection) returns (actions: seq<Action>)
    requires conn.Valid()
    modifies stream, stream.parser, conn
    ensures conn.Valid() && actions == ActionsOf(old(stream.Remaining(conn)))
    ensures Answered(old(stream.Remaining(conn)), actions)
  {
    hide Feed, Flatten, Arrived, ActionOf, Answered;
    ghost var all := stream.Remaining(conn);
    actions := [];
    while true
      invariant conn.Valid() && |actions| <= |all| && stream.Remaining(conn) == all[|actions|..]
      invariant actions == ActionsOf(all)[..|actions|]
      decreases stream.Left(conn)
    {
      var got := stream.RecvFrames(conn);
      if got.None? {
        ActionsAnswer(all);
        return;
      }
      var frames := got.value;
      ghost var start := |actions|;
      assert all[start..] == frames + stream.Remaining(conn);
      for index := 0 to |frames|
        invariant conn.Valid() && stream.Remaining(conn) == all[start + |frames|..]
        invariant |actions| == start + index && actions == ActionsOf(all)[..start + index]
      {
        assert frames[index] == all[start..][index];
        actions := actions + [ActionOf(frames[index])];
      }
    }
  }

  /** A whole connection: the actions taken are those of the frames after the first valid HELLO
      in the byte stream, in order, however the stream was cut up, up to its end. */
  method Serve(chunks: seq<seq<Byte>>) returns (hello: Option<seq<Byte>>, actions: seq<Action>)
    ensures var after := AfterHello(FramesOf(Arrived(chunks)));
      if after.None? then hello.None? && actions == []
      else hello == Some(after.value.0) && actions == ActionsOf(after.value.1) && Answered(after.value.1, actions)
  {
    hide Feed, Flatten, AfterHello, Answered;
    var conn := new Connection(chunks);
    var stream := new FrameStream();
    assert chunks[0..] == chunks;
    assert stream.Remaining(conn) == FramesOf(Arrived(chunks))
      by { assert [] + FramesOf(Arrived(chunks)) == FramesOf(Arrived(chunks)); }
    hello := WaitForHandshake(stream, conn);
    actions := [];
    if hello.Some? { actions := Dispatch(stream, conn); }
  }
}
