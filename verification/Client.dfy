/** The client side of a persistent connection (socket_client.py).

    `incoming` is what the peer will still deliver on this connection; the socket hands it over in
    chunks of its own choosing.  An empty chunk stands for both ways a read can end early, the peer
    closing and the socket timing out, since `_recv_n` raises in both. */
module Client {
  import opened Prelude
  import opened Wire

  datatype ReadError = ClosedEarly

  datatype SendError = DoesNotFit

  datatype Prefix = I32 | U64

  function Positive(n: int): nat {
    if n < 0 then 0 else n
  }

  datatype Taken = Taken(body: Bytes, rest: Bytes)

  /** What an exact read of n bytes gives; a negative n reads nothing. */
  function TakeN(stream: Bytes, n: int): Result<Taken, ReadError> {
    if n > |stream| then Err(ClosedEarly) else Ok(Taken(stream[..Positive(n)], stream[Positive(n)..]))
  }

  /** A length prefix and as many bytes as it says. */
  function TakeBody(prefix: Prefix, stream: Bytes): Result<Taken, ReadError> {
    var width := if prefix == I32 then 4 else 8;
    if |stream| < width then Err(ClosedEarly)
    else TakeN(stream[width..], if prefix == I32 then UnpackI32(stream[..4]) else UnpackU64(stream[..8]))
  }

  predicate Fits(prefix: Prefix, body: Bytes) {
    if prefix == I32 then |body| <= MAX_I32 else |body| < TWO_TO_64
  }

  function Encode(prefix: Prefix, body: Bytes): Bytes
    requires Fits(prefix, body)
  {
    (if prefix == I32 then PackI32(|body|) else PackU64(|body|)) + body
  }

  lemma TakeAfterPrefix(head: Bytes, body: Bytes, rest: Bytes)
    ensures (head + body + rest)[..|head|] == head
    ensures (head + body + rest)[|head|..] == body + rest
    ensures TakeN(body + rest, |body|) == Ok(Taken(body, rest))
  {
  }

  lemma TakeBodyOfEncode(prefix: Prefix, body: Bytes, rest: Bytes)
    requires Fits(prefix, body)
    ensures TakeBody(prefix, Encode(prefix, body) + rest) == Ok(Taken(body, rest))
  {
    if prefix == I32 {
      I32RoundTrip(|body|);
      TakeAfterPrefix(PackI32(|body|), body, rest);
    } else {
      U64RoundTrip(|body|);
      TakeAfterPrefix(PackU64(|body|), body, rest);
    }
  }

  /** A response that is cut off is never taken for a whole one. */
  lemma CutOffFails(prefix: Prefix, body: Bytes, k: nat)
    requires Fits(prefix, body) && k < |Encode(prefix, body)|
    ensures TakeBody(prefix, Encode(prefix, body)[..k]) == Err(ClosedEarly)
  {
    var whole := Encode(prefix, body);
    if prefix == I32 {
      I32RoundTrip(|body|);
      if k >= 4 {
        assert whole[..k][..4] == PackI32(|body|);
      }
    } else {
      U64RoundTrip(|body|);
      if k >= 8 {
        assert whole[..k][..8] == PackU64(|body|);
      }
    }
  }

  /** The 4-byte prefix is signed: a negative length reads an empty body. */
  lemma NegativeLengthIsEmpty(n: int, rest: Bytes)
    requires FitsI32(n) && n < 0
    ensures TakeBody(I32, PackI32(n) + rest) == Ok(Taken([], rest))
  {
    I32RoundTrip(n);
    TakeAfterPrefix(PackI32(n), [], rest);
    assert PackI32(n) + [] + rest == PackI32(n) + rest;
    assert (PackI32(n) + rest)[..4] == PackI32(n) && (PackI32(n) + rest)[4..] == rest;
  }

  datatype Response = Response(prefix: Prefix, body: Bytes)

  predicate AllFit(rs: seq<Response>) {
    forall i :: 0 <= i < |rs| ==> Fits(rs[i].prefix, rs[i].body)
  }

  function EncodeAll(rs: seq<Response>): Bytes
    requires AllFit(rs)
  {
    if rs == [] then [] else Encode(rs[0].prefix, rs[0].body) + EncodeAll(rs[1..])
  }

  /** Reading one response after another with the receivers of the given prefixes. */
  function DecodeAll(prefixes: seq<Prefix>, stream: Bytes): Result<(seq<Bytes>, Bytes), ReadError> {
    if prefixes == [] then Ok(([], stream))
    else
      match TakeBody(prefixes[0], stream)
      case Err(e) => Err(e)
      case Ok(taken) =>
        match DecodeAll(prefixes[1..], taken.rest)
        case Err(e) => Err(e)
        case Ok(more) => Ok(([taken.body] + more.0, more.1))
  }

  function Prefixes(rs: seq<Response>): (ps: seq<Prefix>)
    ensures |ps| == |rs| && forall i :: 0 <= i < |rs| ==> ps[i] == rs[i].prefix
  {
    seq(|rs|, i requires 0 <= i < |rs| => rs[i].prefix)
  }

  function Bodies(rs: seq<Response>): (bs: seq<Bytes>)
    ensures |bs| == |rs| && forall i :: 0 <= i < |rs| ==> bs[i] == rs[i].body
  {
    seq(|rs|, i requires 0 <= i < |rs| => rs[i].body)
  }

  /** A persistent connection stays aligned: any list of responses, with 4-byte and 8-byte prefixes
      mixed, read with the matching receivers, gives back the bodies in order and leaves the rest. */
  lemma {:induction false} ConnectionStaysAligned(rs: seq<Response>, rest: Bytes)
    requires AllFit(rs)
    ensures DecodeAll(Prefixes(rs), EncodeAll(rs) + rest) == Ok((Bodies(rs), rest))
  {
    if rs == [] {
      assert EncodeAll(rs) + rest == rest;
      assert Prefixes(rs) == [] && Bodies(rs) == [];
    } else {
      ConnectionStaysAligned(rs[1..], rest);
      EncodeFirst(rs, rest);
      PartsOfFirst(rs);
      DecodeFirst(Prefixes(rs[1..]), rs[0], EncodeAll(rs[1..]) + rest);
    }
  }

  lemma PartsOfFirst(rs: seq<Response>)
    requires rs != []
    ensures Prefixes(rs) == [rs[0].prefix] + Prefixes(rs[1..])
    ensures Bodies(rs) == [rs[0].body] + Bodies(rs[1..])
  {
  }

  lemma EncodeFirst(rs: seq<Response>, rest: Bytes)
    requires rs != [] && AllFit(rs)
    ensures EncodeAll(rs) + rest == Encode(rs[0].prefix, rs[0].body) + (EncodeAll(rs[1..]) + rest)
  {
    AppendAssoc(Encode(rs[0].prefix, rs[0].body), EncodeAll(rs[1..]), rest);
  }

  lemma DecodeFirst(prefixes: seq<Prefix>, first: Response, stream: Bytes)
    requires Fits(first.prefix, first.body)
    requires DecodeAll(prefixes, stream).Ok?
    ensures DecodeAll([first.prefix] + prefixes, Encode(first.prefix, first.body) + stream) ==
            Ok(([first.body] + DecodeAll(prefixes, stream).value.0, DecodeAll(prefixes, stream).value.1))
  {
    TakeBodyOfEncode(first.prefix, first.body, stream);
    assert ([first.prefix] + prefixes)[1..] == prefixes;
  }

  // ---------------------------------------------------------------- fetch

  const LEFT_BRACE: byte := 123

  /** How the fetch branch of `socket_listen` ends; `Rejected` is the error path. */
  datatype Fetched = Content(body: Bytes) | Rejected | Broken

  function FetchOutcome(stream: Bytes): Fetched {
    if |stream| < 8 then Broken
    else if stream[0] == LEFT_BRACE then Rejected
    else
      match TakeBody(U64, stream)
      case Ok(taken) => Content(taken.body)
      case Err(_) => Broken
  }

  /** The first byte decides, and it is the low byte of the length: a body of length L comes back
      exactly when L mod 256 is not the byte of '{'; otherwise it is taken for an error. */
  lemma FetchDiscriminates(body: Bytes, rest: Bytes)
    requires |body| < TWO_TO_64
    ensures FetchOutcome(Encode(U64, body) + rest) == if |body| % 256 != 123 then Content(body) else Rejected
  {
    U64RoundTrip(|body|);
    TakeBodyOfEncode(U64, body, rest);
  }

  /** A body that is cut off is never returned. */
  lemma FetchCutOff(body: Bytes, k: nat)
    requires |body| < TWO_TO_64 && k < 8 + |body|
    ensures FetchOutcome(Encode(U64, body)[..k]) == if k >= 8 && |body| % 256 == 123 then Rejected else Broken
  {
    U64RoundTrip(|body|);
    CutOffFails(U64, body, k);
  }

  // ---------------------------------------------------------------- the class

  class Connection {
    var incoming: Bytes
    var outgoing: Bytes

    constructor (incoming: Bytes)
      ensures this.incoming == incoming && outgoing == []
    {
      this.incoming := incoming;
      outgoing := [];
    }

    /** The socket: any non-empty chunk of at most `max` bytes, nothing once all is delivered. */
    method Recv(max: nat) returns (chunk: Bytes)
      requires max > 0
      modifies this`incoming
      ensures chunk + incoming == old(incoming)
      ensures |chunk| <= max
      ensures old(incoming) != [] ==> chunk != []
    {
      if incoming == [] {
        return [];
      }
      assert 1 <= max && 1 <= |incoming|;
      var m: nat :| 1 <= m <= max && m <= |incoming|;
      chunk := incoming[..m];
      incoming := incoming[m..];
    }

    /** `_recv_n`: exactly the next n bytes and no more, whatever the chunks. */
    method RecvN(n: int) returns (r: Result<Bytes, ReadError>)
      modifies this`incoming
      ensures match TakeN(old(incoming), n)
              case Ok(taken) => r == Ok(taken.body) && incoming == taken.rest
              case Err(e) => r == Err(e) && incoming == []
    {
      var buf: Bytes := [];
      while |buf| < n
        invariant buf + incoming == old(incoming)
        invariant |buf| <= Positive(n)
        decreases n - |buf|
      {
        ghost var before := incoming;
        var want := n - |buf|;
        var chunk := Recv(if want < 65536 then want else 65536);
        if chunk == [] {
          assert buf + [] == buf;
          return Err(ClosedEarly);
        }
        assert buf + chunk + incoming == buf + (chunk + incoming);
        buf := buf + chunk;
      }
      assert old(incoming)[..|buf|] == buf && old(incoming)[|buf|..] == incoming;
      return Ok(buf);
    }

    /** `recv_gzip_response` and `recv_lenprefixed_json`, up to the decoding of the body. */
    method RecvI32Prefixed() returns (r: Result<Bytes, ReadError>)
      modifies this`incoming
      ensures match TakeBody(I32, old(incoming))
              case Ok(taken) => r == Ok(taken.body) && incoming == taken.rest
              case Err(e) => r == Err(e) && incoming == []
    {
      var head := RecvN(4);
      if head.Err? {
        return head;
      }
      r := RecvN(UnpackI32(head.value));
    }

    /** `recv_file_response`, up to the decoding of the body. */
    method RecvFileResponse() returns (r: Result<Bytes, ReadError>)
      modifies this`incoming
      ensures match TakeBody(U64, old(incoming))
              case Ok(taken) => r == Ok(taken.body) && incoming == taken.rest
              case Err(e) => r == Err(e) && incoming == []
    {
      var head := RecvN(8);
      if head.Err? {
        return head;
      }
      r := RecvN(UnpackU64(head.value));
    }

    /** `_recv_until_timeout`: some prefix of what is available, nothing more is promised. */
    method RecvUntilTimeout() returns (data: Bytes)
      modifies this`incoming
      ensures data + incoming == old(incoming)
    {
      data := Recv(65536);
      var patience: nat :| patience <= |incoming|;
      while patience > 0
        invariant data + incoming == old(incoming)
      {
        ghost var before := incoming;
        var extra := Recv(65536);
        assert data + extra + incoming == data + (extra + incoming);
        data := data + extra;
        patience := patience - 1;
      }
    }

    /** The fetch branch: the first byte decides between a length-prefixed body and an error text. */
    method Fetch() returns (r: Fetched)
      modifies this`incoming
      ensures r == FetchOutcome(old(incoming))
      ensures r == Rejected <==> |old(incoming)| >= 8 && old(incoming)[0] == LEFT_BRACE
      ensures r.Content? ==> TakeBody(U64, old(incoming)) == Ok(Taken(r.body, incoming))
    {
      var head := RecvN(8);
      if head.Err? {
        return Broken;
      }
      var candidateLen := UnpackU64(head.value);
      if head.value[0] == LEFT_BRACE {
        var _ := RecvUntilTimeout();
        return Rejected;
      }
      var content := RecvN(candidateLen);
      match content
      case Ok(body) => return Content(body);
      case Err(_) => return Broken;
    }

    /** `_send`: refused by the packing when the datatype or the length does not fit 32 bits. */
    method Send(dt: int, payload: Bytes) returns (r: Result<(), SendError>)
      modifies this`outgoing
      ensures r.Ok? <==> FitsI32(dt) && 4 + |payload| <= MAX_I32
      ensures outgoing == old(outgoing) + (if r.Ok? then RawFrame(Body(dt, payload)) else [])
    {
      if !FitsI32(dt) {
        return Err(DoesNotFit);
      }
      var body := PackI32(dt) + payload;
      if |body| > MAX_I32 {
        return Err(DoesNotFit);
      }
      outgoing := outgoing + (PackI32(|body|) + body);
      return Ok(());
    }

    /** `_send_raw`: a frame without datatype, for the content of an upload. */
    method SendRaw(msg: Bytes) returns (r: Result<(), SendError>)
      modifies this`outgoing
      ensures r.Ok? <==> |msg| <= MAX_I32
      ensures outgoing == old(outgoing) + (if r.Ok? then RawFrame(msg) else [])
    {
      if |msg| > MAX_I32 {
        return Err(DoesNotFit);
      }
      outgoing := outgoing + (PackI32(|msg|) + msg);
      return Ok(());
    }
  }
}
