/** The receiving loop of the peer (tests/mock_socket_server.py `_Handler.handle`): frames are put
    together from chunks of any size, one frame at a time. */
module Frames {
  import opened Prelude
  import opened Wire

  /** `datatotal` and `data_len`; `need` is 0 between frames. */
  datatype Buffer = Buffer(total: Bytes, need: int)

  const EMPTY := Buffer([], 0)

  /** What one received chunk does: the loop ends, goes on, or has a whole frame. */
  datatype Fed = TooShort | More(buffer: Buffer) | Complete(frame: Bytes)

  function Feed(b: Buffer, chunk: Bytes): Fed {
    if b.need == 0 && |chunk| < 4 then TooShort
    else
      var need := if b.need == 0 then UnpackI32(chunk[..4]) else b.need;
      var total := if b.need == 0 then b.total + chunk[4..] else b.total + chunk;
      if |total| < need then More(Buffer(total, need))
      else if |total| > need then More(EMPTY)
      else Complete(total)
  }

  /** The loop over a list of chunks: the frames delivered, the buffer left, and whether it goes on. */
  datatype Outcome = Outcome(frames: seq<Bytes>, buffer: Buffer, open: bool)

  function FeedAll(b: Buffer, chunks: seq<Bytes>): Outcome
    decreases |chunks|
  {
    if chunks == [] then Outcome([], b, true)
    else
      match Feed(b, chunks[0])
      case TooShort => Outcome([], b, false)
      case More(b') => FeedAll(b', chunks[1..])
      case Complete(frame) =>
        var rest := FeedAll(EMPTY, chunks[1..]);
        rest.(frames := [frame] + rest.frames)
  }

  lemma {:induction false} FeedAllConcat(b: Buffer, a: seq<Bytes>, c: seq<Bytes>)
    requires FeedAll(b, a).open
    ensures var first := FeedAll(b, a);
            var then_ := FeedAll(first.buffer, c);
            FeedAll(b, a + c) == then_.(frames := first.frames + then_.frames)
    decreases |a|
  {
    if a == [] {
      assert a + c == c;
      assert [] + FeedAll(b, c).frames == FeedAll(b, c).frames;
    } else {
      var fed := Feed(b, a[0]);
      FeedAllFirst(b, a);
      FeedAllFirst(b, a + c);
      assert (a + c)[1..] == a[1..] + c;
      if fed.More? {
        FeedAllConcat(fed.buffer, a[1..], c);
      } else {
        FeedAllConcat(EMPTY, a[1..], c);
        var rest := FeedAll(EMPTY, a[1..]);
        AppendAssoc([fed.frame], rest.frames, FeedAll(rest.buffer, c).frames);
      }
    }
  }

  /** One turn of the loop. */
  lemma FeedAllFirst(b: Buffer, chunks: seq<Bytes>)
    requires chunks != []
    ensures FeedAll(b, chunks) ==
            match Feed(b, chunks[0])
            case TooShort => Outcome([], b, false)
            case More(b') => FeedAll(b', chunks[1..])
            case Complete(frame) =>
              var rest := FeedAll(EMPTY, chunks[1..]);
              rest.(frames := [frame] + rest.frames)
  {
  }

  predicate NoneEmpty(chunks: seq<Bytes>) {
    forall k :: 0 <= k < |chunks| ==> chunks[k] != []
  }

  /** The chunks carry one frame of `body`, followed in the last chunk by `extra`. */
  ghost predicate Carries(chunks: seq<Bytes>, body: Bytes, extra: Bytes) {
    && |body| <= MAX_I32
    && chunks != []
    && NoneEmpty(chunks)
    && Flatten(chunks) == RawFrame(body) + extra
    && |chunks[|chunks| - 1]| > |extra|
  }

  /** The rest of a frame whose beginning is in the buffer. */
  lemma {:induction false} FinishFrame(b: Buffer, chunks: seq<Bytes>, body: Bytes, extra: Bytes)
    requires chunks != [] && |chunks[|chunks| - 1]| > |extra|
    requires 0 < |body| == b.need && |b.total| < |body|
    requires b.total + Flatten(chunks) == body + extra
    ensures FeedAll(b, chunks) == Outcome(if extra == [] then [body] else [], EMPTY, true)
    decreases |chunks|
  {
    var total := b.total + chunks[0];
    assert b.total + Flatten(chunks) == total + Flatten(chunks[1..]);
    if |chunks| == 1 {
      assert Flatten(chunks[1..]) == [];
      assert total == body + extra;
      assert extra == [] ==> total == body;
      assert FeedAll(EMPTY, chunks[1..]) == Outcome([], EMPTY, true);
    } else {
      LastIsPart(chunks[1..]);
      assert |total| + |Flatten(chunks[1..])| == |body| + |extra|;
      FinishFrame(Buffer(total, b.need), chunks[1..], body, extra);
    }
  }

  lemma {:induction false} LastIsPart<T>(parts: seq<seq<T>>)
    requires parts != []
    ensures |Flatten(parts)| >= |parts[|parts| - 1]|
  {
    if |parts| > 1 {
      LastIsPart(parts[1..]);
    }
  }

  lemma SplitLength(head: Bytes, content: Bytes, first: Bytes, rest: Bytes)
    requires head + content == first + rest && |first| >= |head|
    ensures first[..|head|] == head && first[|head|..] + rest == content
  {
    assert first[..|head|] == (first + rest)[..|head|];
    assert first[|head|..] + rest == (first + rest)[|head|..];
  }

  lemma HeadOfFrame(chunks: seq<Bytes>, body: Bytes, rest: Bytes)
    requires |body| <= MAX_I32 && chunks != [] && |chunks[0]| >= 4
    requires Flatten(chunks) == RawFrame(body) + rest
    ensures UnpackI32(chunks[0][..4]) == |body|
    ensures chunks[0] == PackI32(|body|) + chunks[0][4..]
    ensures chunks[0][4..] + Flatten(chunks[1..]) == body + rest
  {
    I32RoundTrip(|body|);
    AppendAssoc(PackI32(|body|), body, rest);
    SplitLength(PackI32(|body|), body + rest, chunks[0], Flatten(chunks[1..]));
  }

  lemma FirstChunk(chunks: seq<Bytes>, body: Bytes, extra: Bytes)
    requires Carries(chunks, body, extra) && |chunks[0]| >= 4
    ensures UnpackI32(chunks[0][..4]) == |body|
    ensures chunks[0][4..] + Flatten(chunks[1..]) == body + extra
    ensures |chunks| > 1 ==> |chunks[0][4..]| < |body|
  {
    HeadOfFrame(chunks, body, extra);
    if |chunks| > 1 {
      LastIsPart(chunks[1..]);
      assert |chunks[0][4..]| + |Flatten(chunks[1..])| == |body| + |extra|;
    }
  }

  /** One frame, in any chunks the first of which holds the length, is delivered once and leaves the
      buffer empty; but if the chunk that ends it also holds bytes of what follows, it is lost. */
  lemma FrameDelivered(chunks: seq<Bytes>, body: Bytes, extra: Bytes)
    requires Carries(chunks, body, extra) && |chunks[0]| >= 4
    ensures FeedAll(EMPTY, chunks) == Outcome(if extra == [] then [body] else [], EMPTY, true)
  {
    FirstChunk(chunks, body, extra);
    var begun, rest := chunks[0][4..], chunks[1..];
    assert EMPTY.total + begun == begun;
    if rest == [] {
      assert begun == body + extra;
      assert extra == [] ==> begun == body;
    } else {
      FinishFrame(Buffer(begun, |body|), rest, body, extra);
    }
  }

  /** Exactly when a frame that is not merged with the next one gets through: its first chunk must
      hold the whole length. */
  lemma FrameDeliveredIff(chunks: seq<Bytes>, body: Bytes)
    requires Carries(chunks, body, [])
    ensures FeedAll(EMPTY, chunks) == Outcome([body], EMPTY, true) <==> |chunks[0]| >= 4
  {
    if |chunks[0]| >= 4 {
      FrameDelivered(chunks, body, []);
    }
  }

  /** A first chunk that does not hold the length ends the loop; nothing after it is looked at. */
  lemma ShortChunkEnds(chunk: Bytes, rest: seq<Bytes>)
    requires |chunk| < 4
    ensures FeedAll(EMPTY, [chunk] + rest) == Outcome([], EMPTY, false)
  {
  }

  /** Each group of chunks carries one frame, with the whole length in its first chunk. */
  ghost predicate Separated(chunkings: seq<seq<Bytes>>, bodies: seq<Bytes>) {
    && |chunkings| == |bodies|
    && forall i :: 0 <= i < |bodies| ==> Carries(chunkings[i], bodies[i], []) && |chunkings[i][0]| >= 4
  }

  lemma SeparatedTail(chunkings: seq<seq<Bytes>>, bodies: seq<Bytes>)
    requires Separated(chunkings, bodies) && bodies != []
    ensures Carries(chunkings[0], bodies[0], []) && |chunkings[0][0]| >= 4
    ensures Separated(chunkings[1..], bodies[1..])
    ensures Flatten(chunkings) == chunkings[0] + Flatten(chunkings[1..])
  {
  }

  lemma OneFrameMore(group: seq<Bytes>, body: Bytes, later: seq<Bytes>, rest: seq<Bytes>)
    requires FeedAll(EMPTY, group) == Outcome([body], EMPTY, true)
    requires FeedAll(EMPTY, later) == Outcome(rest, EMPTY, true)
    ensures FeedAll(EMPTY, group + later) == Outcome([body] + rest, EMPTY, true)
  {
    FeedAllConcat(EMPTY, group, later);
  }

  /** A sequence of frames, each chunked on its own, is delivered in order. */
  lemma {:induction false} FramesDelivered(chunkings: seq<seq<Bytes>>, bodies: seq<Bytes>)
    requires Separated(chunkings, bodies)
    ensures FeedAll(EMPTY, Flatten(chunkings)) == Outcome(bodies, EMPTY, true)
  {
    if bodies != [] {
      SeparatedTail(chunkings, bodies);
      var body, rest := bodies[0], bodies[1..];
      assert bodies == [body] + rest;
      FrameDelivered(chunkings[0], body, []);
      FramesDelivered(chunkings[1..], rest);
      OneFrameMore(chunkings[0], body, Flatten(chunkings[1..]), rest);
    }
  }

  // ---------------------------------------------------------------- which chunkings get through

  function Stream(bodies: seq<Bytes>): Bytes
    requires forall body <- bodies :: |body| <= MAX_I32
  {
    if bodies == [] then [] else RawFrame(bodies[0]) + Stream(bodies[1..])
  }

  /** The bytes it takes to deliver frames. */
  function Weight(frames: seq<Bytes>): nat {
    if frames == [] then 0 else 4 + |frames[0]| + Weight(frames[1..])
  }

  lemma {:induction false} StreamWeight(bodies: seq<Bytes>)
    requires forall body <- bodies :: |body| <= MAX_I32
    ensures |Stream(bodies)| == Weight(bodies)
  {
    if bodies != [] {
      StreamWeight(bodies[1..]);
    }
  }

  /** The loop delivers no more bytes than it was given. */
  lemma {:induction false} DeliversAtMost(b: Buffer, chunks: seq<Bytes>)
    ensures Weight(FeedAll(b, chunks).frames) <= (if b.need == 0 then 0 else 4) + |b.total| + |Flatten(chunks)|
    decreases |chunks|
  {
    if chunks != [] {
      match Feed(b, chunks[0])
      case TooShort =>
      case More(b') => DeliversAtMost(b', chunks[1..]);
      case Complete(frame) =>
        DeliversAtMost(EMPTY, chunks[1..]);
        assert ([frame] + FeedAll(EMPTY, chunks[1..]).frames)[1..] == FeedAll(EMPTY, chunks[1..]).frames;
    }
  }

  lemma TakeOneMore<T>(parts: seq<seq<T>>, n: nat)
    requires n < |parts|
    ensures Flatten(parts[..n + 1]) == parts[0] + Flatten(parts[1..][..n])
    ensures parts[n + 1..] == parts[1..][n..]
  {
    assert parts[..n + 1][1..] == parts[1..][..n];
  }

  /** The frame in the buffer ends with this chunk. */
  lemma FrameEndsHere(b: Buffer, chunks: seq<Bytes>, body: Bytes, rest: Bytes)
    requires chunks != [] && 0 < |body| == b.need && |b.total| + |chunks[0]| == |body|
    requires b.total + Flatten(chunks) == body + rest
    ensures b.total + Flatten(chunks[..1]) == body && Flatten(chunks[1..]) == rest
    ensures var after := FeedAll(EMPTY, chunks[1..]);
            FeedAll(b, chunks) == after.(frames := [body] + after.frames)
  {
    var total := b.total + chunks[0];
    AppendAssoc(b.total, chunks[0], Flatten(chunks[1..]));
    SplitLength(body, rest, total, Flatten(chunks[1..]));
    assert total == body;
    TakeOneMore(chunks, 0);
    FeedAllFirst(b, chunks);
  }

  /** When no byte is lost, the frame in the buffer ends where a chunk ends. */
  lemma {:induction false} FrameEnds(b: Buffer, chunks: seq<Bytes>, body: Bytes, rest: Bytes) returns (k: nat)
    requires 0 < |body| == b.need && |b.total| < |body|
    requires b.total + Flatten(chunks) == body + rest
    requires Weight(FeedAll(b, chunks).frames) == 4 + |body| + |rest|
    ensures 0 < k <= |chunks|
    ensures b.total + Flatten(chunks[..k]) == body && Flatten(chunks[k..]) == rest
    ensures var after := FeedAll(EMPTY, chunks[k..]);
            FeedAll(b, chunks) == after.(frames := [body] + after.frames)
    decreases |chunks|
  {
    var total := b.total + chunks[0];
    AppendAssoc(b.total, chunks[0], Flatten(chunks[1..]));
    assert |total| + |Flatten(chunks[1..])| == |body| + |rest|;
    FeedAllFirst(b, chunks);
    if |total| > |body| {
      DeliversAtMost(EMPTY, chunks[1..]);
    } else if |total| == |body| {
      FrameEndsHere(b, chunks, body, rest);
      k := 1;
    } else {
      var n := FrameEnds(Buffer(total, b.need), chunks[1..], body, rest);
      k := n + 1;
      TakeOneMore(chunks, n);
      AppendAssoc(b.total, chunks[0], Flatten(chunks[1..][..n]));
    }
  }

  /** The same from an empty buffer: the first frame has its own chunks, the first of which holds the length. */
  lemma FirstFrame(chunks: seq<Bytes>, body: Bytes, rest: Bytes) returns (k: nat)
    requires |body| <= MAX_I32 && Flatten(chunks) == RawFrame(body) + rest
    requires Weight(FeedAll(EMPTY, chunks).frames) == 4 + |body| + |rest|
    ensures 0 < k <= |chunks| && |chunks[0]| >= 4
    ensures Flatten(chunks[..k]) == RawFrame(body) && Flatten(chunks[k..]) == rest
    ensures var after := FeedAll(EMPTY, chunks[k..]);
            FeedAll(EMPTY, chunks) == after.(frames := [body] + after.frames)
  {
    FeedAllFirst(EMPTY, chunks);
    HeadOfFrame(chunks, body, rest);
    var begun := chunks[0][4..];
    assert EMPTY.total + begun == begun;
    assert |begun| + |Flatten(chunks[1..])| == |body| + |rest|;
    if |begun| > |body| {
      DeliversAtMost(EMPTY, chunks[1..]);
    } else if |begun| == |body| {
      SplitLength(body, rest, begun, Flatten(chunks[1..]));
      assert begun == body;
      k := 1;
      TakeOneMore(chunks, 0);
    } else {
      var n := FrameEnds(Buffer(begun, |body|), chunks[1..], body, rest);
      k := n + 1;
      TakeOneMore(chunks, n);
      AppendAssoc(PackI32(|body|), begun, Flatten(chunks[1..][..n]));
    }
  }

  lemma GroupCarries(chunks: seq<Bytes>, k: nat, body: Bytes)
    requires 0 < k <= |chunks| && NoneEmpty(chunks) && |body| <= MAX_I32
    requires Flatten(chunks[..k]) == RawFrame(body)
    ensures Carries(chunks[..k], body, [])
    ensures chunks == chunks[..k] + chunks[k..] && NoneEmpty(chunks[k..])
  {
    assert RawFrame(body) + [] == RawFrame(body);
    assert chunks[..k][k - 1] == chunks[k - 1];
  }

  /** When every frame gets through, the first frame has chunks of its own, and the rest gets through too. */
  lemma FirstGroup(chunks: seq<Bytes>, bodies: seq<Bytes>) returns (group: seq<Bytes>, later: seq<Bytes>)
    requires bodies != [] && NoneEmpty(chunks) && forall body <- bodies :: |body| <= MAX_I32
    requires Flatten(chunks) == Stream(bodies) && FeedAll(EMPTY, chunks).frames == bodies
    ensures chunks == group + later && NoneEmpty(later)
    ensures Carries(group, bodies[0], []) && |group[0]| >= 4
    ensures Flatten(later) == Stream(bodies[1..]) && FeedAll(EMPTY, later).frames == bodies[1..]
  {
    var body, rest := bodies[0], bodies[1..];
    StreamWeight(bodies);
    StreamWeight(rest);
    var k := FirstFrame(chunks, body, Stream(rest));
    group, later := chunks[..k], chunks[k..];
    GroupCarries(chunks, k, body);
    assert ([body] + FeedAll(EMPTY, later).frames)[1..] == FeedAll(EMPTY, later).frames;
  }

  lemma SeparatedCons(group: seq<Bytes>, chunkings: seq<seq<Bytes>>, bodies: seq<Bytes>)
    requires bodies != [] && Carries(group, bodies[0], []) && |group[0]| >= 4 && Separated(chunkings, bodies[1..])
    ensures Separated([group] + chunkings, bodies)
    ensures Flatten([group] + chunkings) == group + Flatten(chunkings)
  {
    assert ([group] + chunkings)[1..] == chunkings;
  }

  lemma NoBytesNoChunks(chunks: seq<Bytes>)
    requires Flatten(chunks) == [] && NoneEmpty(chunks)
    ensures chunks == []
  {
    if chunks != [] {
      LastIsPart(chunks);
    }
  }

  /** If every frame gets through, the chunks fall into one group per frame. */
  lemma {:induction false} Regroup(chunks: seq<Bytes>, bodies: seq<Bytes>) returns (chunkings: seq<seq<Bytes>>)
    requires NoneEmpty(chunks) && forall body <- bodies :: |body| <= MAX_I32
    requires Flatten(chunks) == Stream(bodies) && FeedAll(EMPTY, chunks).frames == bodies
    ensures Flatten(chunkings) == chunks && Separated(chunkings, bodies)
    decreases |bodies|
  {
    if bodies == [] {
      NoBytesNoChunks(chunks);
      return [];
    }
    var group, later := FirstGroup(chunks, bodies);
    var groups := Regroup(later, bodies[1..]);
    SeparatedCons(group, groups, bodies);
    chunkings := [group] + groups;
  }

  /** Exactly when a sequence of frames gets through, in whatever chunks its bytes arrive: the chunks fall
      into one group per frame, each with the whole length in its first chunk. */
  lemma FramesDeliveredIff(chunks: seq<Bytes>, bodies: seq<Bytes>)
    requires NoneEmpty(chunks) && forall body <- bodies :: |body| <= MAX_I32
    requires Flatten(chunks) == Stream(bodies)
    ensures FeedAll(EMPTY, chunks) == Outcome(bodies, EMPTY, true)
            <==> exists chunkings :: Flatten(chunkings) == chunks && Separated(chunkings, bodies)
  {
    if FeedAll(EMPTY, chunks) == Outcome(bodies, EMPTY, true) {
      var chunkings := Regroup(chunks, bodies);
    }
    if chunkings :| Flatten(chunkings) == chunks && Separated(chunkings, bodies) {
      FramesDelivered(chunkings, bodies);
    }
  }
}
