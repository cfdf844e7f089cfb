/**
  Cutting a Modbus TCP byte stream into frames (MBAP header, section 3.1.3 of the MODBUS Messaging
  on TCP/IP Implementation Guide V1.0b): bytes 4 and 5 hold the number of bytes that follow.
 */
module ModbusFraming {
  import opened Wrappers
  import opened Words

  function WordAt(b: seq<Byte>, i: nat): Word
    requires i + 2 <= |b|
  {
    var hi: int, lo: int := b[i], b[i + 1];
    hi * 256 + lo
  }

  function WordBytes(w: Word): seq<Byte> { [w / 256, w % 256] }

  function Total(b: seq<Byte>): nat
    requires |b| >= 6
  {
    6 + WordAt(b, 4)
  }

  predicate HasFrame(b: seq<Byte>) { |b| >= 7 && |b| >= Total(b) }

  datatype Split = Split(frames: seq<seq<Byte>>, rest: seq<Byte>)

  /** The frames of a byte stream and what is left over. */
  function Frames(b: seq<Byte>): Split
    decreases |b|
  {
    if !HasFrame(b) then Split([], b)
    else
      var s := Frames(b[Total(b)..]);
      Split([b[..Total(b)]] + s.frames, s.rest)
  }

  lemma TotalOfPrefix(a: seq<Byte>, b: seq<Byte>)
    requires |a| >= 6
    ensures Total(a + b) == Total(a)
  {
  }

  /** More bytes only add frames: cutting early and going on with the rest loses nothing. */
  lemma {:induction false} FramesExtend(a: seq<Byte>, b: seq<Byte>)
    ensures var s := Frames(a);
            var t := Frames(s.rest + b);
            Frames(a + b) == Split(s.frames + t.frames, t.rest)
    decreases |a|
  {
    hide WordAt;
    if HasFrame(a) {
      var n := Total(a);
      FramesExtend(a[n..], b);
      TotalOfPrefix(a, b);
      CutOfConcat(a, b, n);
      var s := Frames(a[n..]);
      Regroup([a[..n]], s.frames, Frames(s.rest + b).frames);
      hide Total;
    }
  }

  lemma CutOfConcat(a: seq<Byte>, b: seq<Byte>, n: nat)
    requires n <= |a|
    ensures (a + b)[..n] == a[..n] && (a + b)[n..] == a[n..] + b
  {
  }

  function Concat(parts: seq<seq<Byte>>): seq<Byte> {
    if parts == [] then [] else parts[0] + Concat(parts[1..])
  }

  /** Feeding the chunks one after the other, starting with `buffer` left over. */
  function Feed(buffer: seq<Byte>, chunks: seq<seq<Byte>>): Split
    decreases |chunks|
  {
    if chunks == [] then Split([], buffer)
    else
      var s := Frames(buffer + chunks[0]);
      var t := Feed(s.rest, chunks[1..]);
      Split(s.frames + t.frames, t.rest)
  }

  /** However the stream is chunked, the frames and the leftover are the same. */
  lemma {:induction false} ChunkingDoesNotMatter(buffer: seq<Byte>, chunks: seq<seq<Byte>>)
    requires Frames(buffer) == Split([], buffer)
    ensures Feed(buffer, chunks) == Frames(buffer + Concat(chunks))
    decreases |chunks|
  {
    hide Total, WordAt, HasFrame, Frames;
    if chunks == [] {
      assert buffer + [] == buffer;
    } else {
      var s, later := Frames(buffer + chunks[0]), Concat(chunks[1..]);
      FramesExtend(buffer + chunks[0], later);
      Regroup(buffer, chunks[0], later);
      assert Concat(chunks) == chunks[0] + later;
      hide Concat;
      RestHasNoFrame(buffer + chunks[0]);
      ChunkingDoesNotMatter(s.rest, chunks[1..]);
    }
  }

  lemma {:induction false} RestHasNoFrame(b: seq<Byte>)
    ensures Frames(Frames(b).rest) == Split([], Frames(b).rest)
    decreases |b|
  {
    if HasFrame(b) { RestHasNoFrame(b[Total(b)..]); }
  }

  lemma FirstFrame(frame: seq<Byte>, frames: seq<seq<Byte>>, rest: seq<Byte>)
    ensures Concat([frame] + frames) + rest == frame + (Concat(frames) + rest)
  {
    assert ([frame] + frames)[1..] == frames;
  }

  /** Nothing is lost: the frames and the leftover make up the stream. */
  lemma {:induction false} FramesMakeUpTheStream(b: seq<Byte>)
    ensures Concat(Frames(b).frames) + Frames(b).rest == b
    decreases |b|
  {
    if HasFrame(b) {
      var frame, tail := b[..Total(b)], b[Total(b)..];
      FramesMakeUpTheStream(tail);
      hide Total, HasFrame;
      assert b == frame + tail;
      FirstFrame(frame, Frames(tail).frames, Frames(tail).rest);
    }
  }

  /** A message whose header states its own length. */
  predicate WellFramed(m: seq<Byte>) { |m| >= 7 && |m| == Total(m) }

  /** Messages that state their length are cut apart again exactly. */
  lemma {:induction false} WellFramedSplitsBack(ms: seq<seq<Byte>>)
    requires forall m :: m in ms ==> WellFramed(m)
    ensures Frames(Concat(ms)) == Split(ms, [])
  {
    if ms != [] {
      var b := Concat(ms);
      assert ms[0] in ms;
      TotalOfPrefix(ms[0], Concat(ms[1..]));
      assert b[..|ms[0]|] == ms[0] && b[|ms[0]|..] == Concat(ms[1..]);
      WellFramedSplitsBack(ms[1..]);
    }
  }

  /** Every frame that was cut states its length. */
  lemma {:induction false} FramesStateTheirLength(b: seq<Byte>)
    ensures forall f :: f in Frames(b).frames ==> |f| >= 6 && |f| == Total(f)
    decreases |b|
  {
    if HasFrame(b) {
      FramesStateTheirLength(b[Total(b)..]);
      TotalOfPrefix(b[..Total(b)], b[Total(b)..]);
      assert b == b[..Total(b)] + b[Total(b)..];
    }
  }

  /** Messages with a full header are cut apart again exactly if and only if each states its length. */
  lemma SplitsBackIffWellFramed(ms: seq<seq<Byte>>)
    requires forall m :: m in ms ==> |m| >= 7
    ensures Frames(Concat(ms)) == Split(ms, []) <==> forall m :: m in ms ==> WellFramed(m)
  {
    if Frames(Concat(ms)) == Split(ms, []) {
      FramesStateTheirLength(Concat(ms));
    } else if forall m :: m in ms ==> WellFramed(m) {
      WellFramedSplitsBack(ms);
    }
  }
}
