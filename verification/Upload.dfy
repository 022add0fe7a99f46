/** The peer's dispatch of whole frames and the four-step upload 21, 22, 23..., 24
    (tests/mock_socket_server.py `_Handler`).

    JSON, gzip and the answers of the other datatypes are parameters of the peer. */
module Upload {
  import opened Prelude
  import opened Wire
  import opened Frames
  import Client

  datatype Info = Info(filepath: string, gzip: bool)

  datatype Reply = Crash | NoReply | Reply(data: Bytes)

  /** `parse` reads the JSON of a 21 request, `decompress` undoes gzip, `answer` is `_on_data`;
      a None or a Crash is the exception that ends the connection. */
  datatype Peer = Peer(
    parse: Bytes -> Option<Info>,
    decompress: Bytes -> Option<Bytes>,
    answer: (int, Bytes) -> Reply)

  datatype State = State(
    filepath: string,
    gzip: bool,
    content: Bytes,
    length: nat,
    binary: bool,
    files: map<string, Bytes>,
    sent: seq<Bytes>)

  datatype Step = Go(state: State) | Stop(state: State)

  const ACK21: Bytes := [0x32, 0x31, 0x20, 0x6f, 0x6b]
  const ACK22: Bytes := [0x32, 0x32, 0x20, 0x6f, 0x6b]
  const ACK23: Bytes := [0x32, 0x33, 0x20, 0x6f, 0x6b]
  const ACK24: Bytes := [0x32, 0x34, 0x20, 0x6f, 0x6b]

  /** The marker `^$` for an empty file. */
  const EMPTY_MARK: Bytes := [0x5e, 0x24]

  predicate Spells(bytes: Bytes, text: string) {
    |bytes| == |text| && forall i :: 0 <= i < |text| ==> bytes[i] as int == text[i] as int
  }

  /** The bytes of the acknowledgements and of the marker. */
  lemma Texts()
    ensures Spells(ACK21, "21 ok") && Spells(ACK22, "22 ok") && Spells(ACK23, "23 ok") && Spells(ACK24, "24 ok")
    ensures Spells(EMPTY_MARK, "^$")
  {
  }

  function Stored(content: Bytes): Bytes {
    if content == EMPTY_MARK then [] else content
  }

  /** A frame is content while the binary flag is set, and a request otherwise. */
  function Dispatch(s: State, frame: Bytes, peer: Peer): Step {
    if s.binary then Append(s, frame)
    else if |frame| < 4 then Stop(s)
    else
      var dt, data := UnpackI32(frame[..4]), frame[4..];
      if dt == 21 then Begin(s, data, peer)
      else if dt == 22 then Announce(s, data)
      else if dt == 23 then Append(s, data)
      else if dt == 24 then Finish(s, peer)
      else
        match peer.answer(dt, data)
        case Crash => Stop(s)
        case NoReply => Go(s)
        case Reply(r) => Go(s.(sent := s.sent + [r]))
  }

  function Begin(s: State, data: Bytes, peer: Peer): Step {
    match peer.parse(data)
    case None => Stop(s)
    case Some(info) => Go(s.(filepath := info.filepath, gzip := info.gzip, sent := s.sent + [ACK21]))
  }

  function Announce(s: State, data: Bytes): Step {
    if |data| != 8 then Stop(s)
    else Go(s.(length := UnpackU64(data), content := [], binary := true, sent := s.sent + [ACK22]))
  }

  function Append(s: State, data: Bytes): Step {
    var content := s.content + data;
    if |content| == s.length then Go(s.(content := content, binary := false, sent := s.sent + [ACK23]))
    else if |content| > s.length then Stop(s.(content := content, binary := false))
    else Go(s.(content := content))
  }

  function Finish(s: State, peer: Peer): Step {
    match if s.gzip then peer.decompress(s.content) else Some(s.content)
    case None => Stop(s)
    case Some(content) =>
      Go(s.(files := s.files[s.filepath := Stored(content)], content := [], sent := s.sent + [ACK24]))
  }

  function DispatchAll(s: State, frames: seq<Bytes>, peer: Peer): Step
    decreases |frames|
  {
    if frames == [] then Go(s)
    else
      match Dispatch(s, frames[0], peer)
      case Stop(s') => Stop(s')
      case Go(s') => DispatchAll(s', frames[1..], peer)
  }

  lemma {:induction false} DispatchAllConcat(s: State, a: seq<Bytes>, b: seq<Bytes>, peer: Peer)
    ensures DispatchAll(s, a + b, peer) ==
            match DispatchAll(s, a, peer)
            case Stop(s') => Stop(s')
            case Go(s') => DispatchAll(s', b, peer)
    decreases |a|
  {
    if a == [] {
      assert a + b == b;
    } else {
      assert (a + b)[1..] == a[1..] + b;
      match Dispatch(s, a[0], peer)
      case Stop(_) =>
      case Go(s') => DispatchAllConcat(s', a[1..], b, peer);
    }
  }

  // ---------------------------------------------------------------- the upload

  function Request(dt: int, payload: Bytes): Bytes
    requires FitsI32(dt)
  {
    Body(dt, payload)
  }

  lemma RequestParts(dt: int, payload: Bytes)
    requires FitsI32(dt)
    ensures |Request(dt, payload)| >= 4
    ensures UnpackI32(Request(dt, payload)[..4]) == dt && Request(dt, payload)[4..] == payload
  {
    I32RoundTrip(dt);
    assert Request(dt, payload)[..4] == PackI32(dt);
  }

  /** The request that closes an upload. */
  function Closing(): seq<Bytes> {
    [Request(24, [])]
  }

  /** The frames of an upload of `data`, cut into `pieces`. */
  function UploadFrames(info: Bytes, data: Bytes, pieces: seq<Bytes>): seq<Bytes>
    requires |data| < TWO_TO_64
  {
    [Request(21, info), Request(22, PackU64(|data|))] + pieces + Closing()
  }

  /** The frames that end the connection: a request without a datatype, a 21 whose JSON cannot be read, a 22
      whose length is not 8 bytes, content beyond the announced length, a 24 that cannot be unpacked, and
      any other request the peer fails on. */
  lemma EndsConnectionIff(s: State, frame: Bytes, peer: Peer)
    ensures Dispatch(s, frame, peer).Stop? <==>
              if s.binary then |s.content| + |frame| > s.length
              else if |frame| < 4 then true
              else
                var dt, data := UnpackI32(frame[..4]), frame[4..];
                || (dt == 21 && peer.parse(data) == None)
                || (dt == 22 && |data| != 8)
                || (dt == 23 && |s.content| + |data| > s.length)
                || (dt == 24 && s.gzip && peer.decompress(s.content) == None)
                || (dt != 21 && dt != 22 && dt != 23 && dt != 24 && peer.answer(dt, data) == Crash)
    ensures Dispatch(s, frame, peer).Stop? ==>
              Dispatch(s, frame, peer).state.files == s.files && Dispatch(s, frame, peer).state.sent == s.sent
  {
  }

  /** A request the peer does not answer changes nothing. */
  lemma SilentRequest(s: State, dt: int, payload: Bytes, peer: Peer)
    requires !s.binary && FitsI32(dt) && dt != 21 && dt != 22 && dt != 23 && dt != 24
    requires peer.answer(dt, payload) == NoReply
    ensures Dispatch(s, Request(dt, payload), peer) == Go(s)
  {
    RequestParts(dt, payload);
  }

  /** A cut the protocol can carry: the announced length is reached by the last piece and not before. */
  predicate Carriable(pieces: seq<Bytes>) {
    pieces != [] && (|pieces| == 1 || pieces[|pieces| - 1] != [])
  }

  /** While raw frames add up to less than the announced length they are only collected: the binary flag
      stays set and nothing is acknowledged. */
  lemma {:induction false} RawFramesPending(s: State, pieces: seq<Bytes>, peer: Peer)
    requires s.binary && |s.content| + |Flatten(pieces)| < s.length
    ensures DispatchAll(s, pieces, peer) == Go(s.(content := s.content + Flatten(pieces)))
    decreases |pieces|
  {
    if pieces == [] {
      assert s.content + Flatten(pieces) == s.content;
    } else {
      var content := s.content + pieces[0];
      assert s.content + Flatten(pieces) == content + Flatten(pieces[1..]);
      RawFramesPending(s.(content := content), pieces[1..], peer);
    }
  }

  /** The frame that reaches the length clears the flag and is acknowledged, once. */
  lemma {:induction false} RawFrames(s: State, pieces: seq<Bytes>, peer: Peer)
    requires s.binary && |s.content| + |Flatten(pieces)| == s.length
    requires pieces != [] && (|pieces| > 1 ==> |s.content| < s.length)
    requires pieces[|pieces| - 1] != [] || |pieces| == 1
    ensures DispatchAll(s, pieces, peer) ==
            Go(s.(content := s.content + Flatten(pieces), binary := false, sent := s.sent + [ACK23]))
    decreases |pieces|
  {
    var content := s.content + pieces[0];
    assert s.content + Flatten(pieces) == content + Flatten(pieces[1..]);
    if |pieces| == 1 {
      assert content + Flatten(pieces[1..]) == content;
    } else {
      LastIsPart(pieces[1..]);
      RawFrames(s.(content := content), pieces[1..], peer);
    }
  }

  /** In any other cut, the frame after the one that completes the length is misread. */
  lemma {:induction false} EmptyTailStops(s: State, pieces: seq<Bytes>, peer: Peer)
    requires s.binary && |s.content| + |Flatten(pieces)| == s.length
    requires |pieces| > 1 && pieces[|pieces| - 1] == []
    ensures DispatchAll(s, pieces, peer).Stop?
    decreases |pieces|
  {
    var content := s.content + pieces[0];
    var rest := pieces[1..];
    assert |content| + |Flatten(rest)| == s.length;
    assert |rest| == 1 ==> rest[1..] == [] && Flatten(rest) == rest[0];
    if Flatten(rest) == [] {
      assert |rest[0]| == 0;
    } else {
      EmptyTailStops(s.(content := content), rest, peer);
    }
  }

  lemma TwoRequests(s: State, info: Bytes, data: Bytes, parsed: Info, peer: Peer)
    requires !s.binary && peer.parse(info) == Some(parsed) && |data| < TWO_TO_64
    ensures DispatchAll(s, [Request(21, info), Request(22, PackU64(|data|))], peer) == Go(Announced(s, parsed, data))
  {
    RequestParts(21, info);
    RequestParts(22, PackU64(|data|));
    U64RoundTrip(|data|);
    var frames := [Request(21, info), Request(22, PackU64(|data|))];
    var begun := s.(filepath := parsed.filepath, gzip := parsed.gzip, sent := s.sent + [ACK21]);
    assert Dispatch(s, frames[0], peer) == Go(begun);
    assert Dispatch(begun, frames[1], peer) == Go(Announced(s, parsed, data)) by {
      assert begun.sent + [ACK22] == s.sent + [ACK21, ACK22];
    }
    assert frames[1..] == [frames[1]];
    assert frames[1..][1..] == [];
    assert DispatchAll(begun, frames[1..], peer) == Go(Announced(s, parsed, data));
    assert DispatchAll(s, frames, peer) == DispatchAll(begun, frames[1..], peer);
  }

  function Announced(s: State, parsed: Info, data: Bytes): State {
    s.(filepath := parsed.filepath, gzip := parsed.gzip, length := |data|, content := [], binary := true,
       sent := s.sent + [ACK21, ACK22])
  }

  /** The frames of an upload one part after the other: the two requests, the content, the last request. */
  lemma {:induction false} UploadInParts(s: State, info: Bytes, parsed: Info, data: Bytes, pieces: seq<Bytes>, peer: Peer)
    requires !s.binary && peer.parse(info) == Some(parsed) && |data| < TWO_TO_64
    ensures DispatchAll(s, UploadFrames(info, data, pieces), peer) ==
            match DispatchAll(Announced(s, parsed, data), pieces, peer)
            case Stop(s') => Stop(s')
            case Go(s') => DispatchAll(s', Closing(), peer)
  {
    var opening := [Request(21, info), Request(22, PackU64(|data|))];
    TwoRequests(s, info, data, parsed, peer);
    DispatchAllConcat(s, opening, pieces + Closing(), peer);
    DispatchAllConcat(Announced(s, parsed, data), pieces, Closing(), peer);
    AppendAssoc(opening, pieces, Closing());
  }

  lemma LastRequest(s: State, peer: Peer)
    ensures DispatchAll(s, Closing(), peer) == if s.binary then Append(s, Request(24, [])) else Finish(s, peer)
  {
    RequestParts(24, []);
    assert Closing()[1..] == [];
  }

  lemma CarriableArrives(s: State, parsed: Info, content: Bytes, data: Bytes, pieces: seq<Bytes>, peer: Peer)
    requires |data| < TWO_TO_64 && Flatten(pieces) == data && Carriable(pieces)
    requires if parsed.gzip then peer.decompress(data) == Some(content) else data == content
    ensures var read := DispatchAll(Announced(s, parsed, data), pieces, peer);
            read.Go? && !read.state.binary && Finish(read.state, peer) == Go(Uploaded(s, parsed, content, data))
  {
    if |pieces| > 1 {
      LastIsPart(pieces);
    }
    RawFrames(Announced(s, parsed, data), pieces, peer);
    assert [] + Flatten(pieces) == data;
    assert s.sent + [ACK21, ACK22] + [ACK23] + [ACK24] == s.sent + [ACK21, ACK22, ACK23, ACK24];
  }

  /** The upload arrives exactly when the cut is carriable: the file then holds the content, except
      that the marker stands for the empty file; in any other case the connection ends instead. */
  lemma UploadArrivesIff(s: State, info: Bytes, parsed: Info, content: Bytes, data: Bytes, pieces: seq<Bytes>, peer: Peer)
    requires !s.binary && peer.parse(info) == Some(parsed)
    requires |data| < TWO_TO_64 && Flatten(pieces) == data
    requires if parsed.gzip then peer.decompress(data) == Some(content) else data == content
    ensures DispatchAll(s, UploadFrames(info, data, pieces), peer) == Go(Uploaded(s, parsed, content, data))
            <==> Carriable(pieces)
    ensures !Carriable(pieces) ==> DispatchAll(s, UploadFrames(info, data, pieces), peer).Stop?
  {
    UploadInParts(s, info, parsed, data, pieces, peer);
    if Carriable(pieces) {
      CarriableArrives(s, parsed, content, data, pieces, peer);
      LastRequest(DispatchAll(Announced(s, parsed, data), pieces, peer).state, peer);
    } else if pieces != [] {
      EmptyTailStops(Announced(s, parsed, data), pieces, peer);
    } else {
      LastRequest(Announced(s, parsed, data), peer);
    }
  }

  function Uploaded(s: State, parsed: Info, content: Bytes, data: Bytes): State {
    s.(filepath := parsed.filepath, gzip := parsed.gzip, length := |data|, content := [], binary := false,
       files := s.files[parsed.filepath := Stored(content)], sent := s.sent + [ACK21, ACK22, ACK23, ACK24])
  }

  // ---------------------------------------------------------------- the whole loop

  /** `handle`: chunks in, whole frames dispatched as they complete. */
  datatype Served = Served(state: State, buffer: Buffer, open: bool)

  function Serve(s: State, b: Buffer, chunks: seq<Bytes>, peer: Peer): Served
    decreases |chunks|
  {
    if chunks == [] then Served(s, b, true)
    else if chunks[0] == [] then Served(s, b, false)
    else
      match Feed(b, chunks[0])
      case TooShort => Served(s, b, false)
      case More(b') => Serve(s, b', chunks[1..], peer)
      case Complete(frame) =>
        match Dispatch(s, frame, peer)
        case Stop(s') => Served(s', EMPTY, false)
        case Go(s') => Serve(s', EMPTY, chunks[1..], peer)
  }

  /** An empty chunk, the peer's sign that the client has closed, ends the loop. */
  lemma EmptyChunkEnds(s: State, b: Buffer, rest: seq<Bytes>, peer: Peer)
    ensures Serve(s, b, [[]] + rest, peer) == Served(s, b, false)
  {
  }

  /** Serving chunks is dispatching the frames they carry... */
  lemma {:induction false} ServeDispatchesFrames(s: State, b: Buffer, chunks: seq<Bytes>, peer: Peer)
    requires NoneEmpty(chunks)
    requires FeedAll(b, chunks).open && DispatchAll(s, FeedAll(b, chunks).frames, peer).Go?
    ensures var fed := FeedAll(b, chunks);
            Serve(s, b, chunks, peer) == Served(DispatchAll(s, fed.frames, peer).state, fed.buffer, true)
    decreases |chunks|
  {
    if chunks != [] {
      match Feed(b, chunks[0])
      case TooShort =>
      case More(b') => ServeDispatchesFrames(s, b', chunks[1..], peer);
      case Complete(frame) =>
        var rest := FeedAll(EMPTY, chunks[1..]);
        assert ([frame] + rest.frames)[1..] == rest.frames;
        ServeDispatchesFrames(Dispatch(s, frame, peer).state, EMPTY, chunks[1..], peer);
    }
  }

  /** ...up to the frame that ends the connection. */
  lemma {:induction false} ServeStops(s: State, b: Buffer, chunks: seq<Bytes>, peer: Peer)
    requires NoneEmpty(chunks) && DispatchAll(s, FeedAll(b, chunks).frames, peer).Stop?
    ensures Serve(s, b, chunks, peer) == Served(DispatchAll(s, FeedAll(b, chunks).frames, peer).state, EMPTY, false)
    decreases |chunks|
  {
    if chunks != [] {
      match Feed(b, chunks[0])
      case TooShort =>
      case More(b') => ServeStops(s, b', chunks[1..], peer);
      case Complete(frame) =>
        var rest := FeedAll(EMPTY, chunks[1..]);
        assert ([frame] + rest.frames)[1..] == rest.frames;
        match Dispatch(s, frame, peer)
        case Stop(_) =>
        case Go(s') => ServeStops(s', EMPTY, chunks[1..], peer);
    }
  }

  lemma {:induction false} NoEmptyChunks(chunkings: seq<seq<Bytes>>)
    requires forall i :: 0 <= i < |chunkings| ==> NoneEmpty(chunkings[i])
    ensures NoneEmpty(Flatten(chunkings))
  {
    if chunkings != [] {
      NoEmptyChunks(chunkings[1..]);
    }
  }

  /** End to end: whatever the chunks each message arrives in, as long as none is merged with its
      neighbour and each begins with its whole length, the peer stores what was uploaded and is ready
      for the next request. */
  lemma UploadEndToEnd(s: State, info: Bytes, parsed: Info, content: Bytes, data: Bytes, pieces: seq<Bytes>,
                       chunkings: seq<seq<Bytes>>, peer: Peer)
    requires !s.binary && peer.parse(info) == Some(parsed)
    requires |data| < TWO_TO_64 && Flatten(pieces) == data && Carriable(pieces)
    requires if parsed.gzip then peer.decompress(data) == Some(content) else data == content
    requires Separated(chunkings, UploadFrames(info, data, pieces))
    ensures Serve(s, EMPTY, Flatten(chunkings), peer) == Served(Uploaded(s, parsed, content, data), EMPTY, true)
  {
    FramesDelivered(chunkings, UploadFrames(info, data, pieces));
    UploadArrivesIff(s, info, parsed, content, data, pieces, peer);
    NoEmptyChunks(chunkings);
    ServeDispatchesFrames(s, EMPTY, Flatten(chunkings), peer);
  }

  /** The file read back is the content sent, except for the marker. */
  lemma UploadedFile(s: State, parsed: Info, content: Bytes, data: Bytes)
    ensures Uploaded(s, parsed, content, data).files[parsed.filepath] == content <==> content != EMPTY_MARK
    ensures content == EMPTY_MARK ==> Uploaded(s, parsed, content, data).files[parsed.filepath] == []
  {
  }

  // ---------------------------------------------------------------- the class

  /** `_Handler`: the fields a connection keeps, and the loop. */
  class Handler {
    const peer: Peer
    var filepath: string
    var content: Bytes
    var length: nat
    var binary: bool
    var gzip: bool
    var files: map<string, Bytes>
    var sent: seq<Bytes>

    ghost function Value(): State
      reads this
    {
      State(filepath, gzip, content, length, binary, files, sent)
    }

    constructor (peer: Peer, files: map<string, Bytes>)
      ensures this.peer == peer
      ensures Value() == State("tmp", false, [], 0, false, files, [])
    {
      this.peer := peer;
      this.files := files;
      filepath, content, length, binary, gzip, sent := "tmp", [], 0, false, false, [];
    }

    /** One whole frame; `ok` says that the loop goes on. */
    method OnFrame(frame: Bytes) returns (ok: bool)
      modifies this
      ensures Dispatch(old(Value()), frame, peer) == if ok then Go(Value()) else Stop(Value())
    {
      var dt, data := 23, frame;
      if !binary {
        if |frame| < 4 {
          return false;
        }
        dt, data := UnpackI32(frame[..4]), frame[4..];
      }
      if dt == 21 {
        var info := peer.parse(data);
        if info == None {
          return false;
        }
        filepath, gzip, sent := info.value.filepath, info.value.gzip, sent + [ACK21];
        return true;
      } else if dt == 22 {
        if |data| != 8 {
          return false;
        }
        length, content, binary, sent := UnpackU64(data), [], true, sent + [ACK22];
        return true;
      } else if dt == 23 {
        content := content + data;
        if |content| == length {
          binary, sent := false, sent + [ACK23];
          return true;
        } else if |content| > length {
          binary := false;
          return false;
        }
        return true;
      } else if dt == 24 {
        var body := if gzip then peer.decompress(content) else Some(content);
        if body == None {
          return false;
        }
        files, content, sent := files[filepath := Stored(body.value)], [], sent + [ACK24];
        return true;
      }
      match peer.answer(dt, data)
      case Crash => return false;
      case NoReply => return true;
      case Reply(r) =>
        sent := sent + [r];
        return true;
    }

    /** The loop over the chunks received, up to an empty one. */
    method Handle(chunks: seq<Bytes>) returns (open: bool, ghost left: Buffer)
      modifies this
      ensures Serve(old(Value()), EMPTY, chunks, peer) == Served(Value(), left, open)
    {
      var datatotal: Bytes, dataLen := [], 0;
      for n := 0 to |chunks|
        invariant Serve(old(Value()), EMPTY, chunks, peer) == Serve(Value(), Buffer(datatotal, dataLen), chunks[n..], peer)
      {
        var data := chunks[n];
        assert chunks[n..][1..] == chunks[n + 1..];
        if data == [] {
          return false, Buffer(datatotal, dataLen);
        }
        if dataLen == 0 {
          if |data| < 4 {
            return false, Buffer(datatotal, dataLen);
          }
          dataLen := UnpackI32(data[..4]);
          datatotal := datatotal + data[4..];
        } else {
          datatotal := datatotal + data;
        }
        if |datatotal| < dataLen {
          continue;
        }
        if |datatotal| > dataLen {
          datatotal, dataLen := [], 0;
          continue;
        }
        var frame := datatotal;
        datatotal, dataLen := [], 0;
        var ok := OnFrame(frame);
        if !ok {
          return false, EMPTY;
        }
      }
      return true, Buffer(datatotal, dataLen);
    }
  }
}
