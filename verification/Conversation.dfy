/** Client and peer together over one persistent connection: requests go out as frames in any chunks,
    the answers come back with length prefixes, and both sides stay aligned. */
module Conversation {
  import opened Prelude
  import opened Wire
  import opened Frames
  import opened Upload
  import Client

  /** A request of an ordinary datatype and the length-prefixed answer the peer gives to it. */
  datatype Exchange = Exchange(dt: int, payload: Bytes, response: Client.Response)

  predicate Ordinary(e: Exchange) {
    && FitsI32(e.dt) && e.dt != 21 && e.dt != 22 && e.dt != 23 && e.dt != 24
    && Client.Fits(e.response.prefix, e.response.body)
  }

  /** Every exchange is ordinary and answered by the peer as it says. */
  predicate AnsweredBy(es: seq<Exchange>, peer: Peer) {
    es != [] ==>
      && Ordinary(es[0])
      && peer.answer(es[0].dt, es[0].payload) == Reply(AnswerOf(es[0]))
      && AnsweredBy(es[1..], peer)
  }

  function AnswerOf(e: Exchange): Bytes
    requires Ordinary(e)
  {
    Client.Encode(e.response.prefix, e.response.body)
  }

  function Requests(es: seq<Exchange>, peer: Peer): (rs: seq<Bytes>)
    requires AnsweredBy(es, peer)
    ensures |rs| == |es|
  {
    if es == [] then [] else [Body(es[0].dt, es[0].payload)] + Requests(es[1..], peer)
  }

  function Answers(es: seq<Exchange>, peer: Peer): seq<Bytes>
    requires AnsweredBy(es, peer)
  {
    if es == [] then [] else [AnswerOf(es[0])] + Answers(es[1..], peer)
  }

  function Responses(es: seq<Exchange>): seq<Client.Response> {
    if es == [] then [] else [es[0].response] + Responses(es[1..])
  }

  lemma OneAnswer(s: State, e: Exchange, peer: Peer)
    requires !s.binary && Ordinary(e) && peer.answer(e.dt, e.payload) == Reply(AnswerOf(e))
    ensures Dispatch(s, Body(e.dt, e.payload), peer) == Go(s.(sent := s.sent + [AnswerOf(e)]))
  {
    RequestParts(e.dt, e.payload);
  }

  lemma DispatchFirst(s: State, frame: Bytes, frames: seq<Bytes>, peer: Peer)
    requires Dispatch(s, frame, peer).Go?
    ensures DispatchAll(s, [frame] + frames, peer) == DispatchAll(Dispatch(s, frame, peer).state, frames, peer)
  {
  }

  /** Each request is answered once, in order, and changes nothing else of the peer. */
  lemma {:induction false} RequestsAnswered(s: State, es: seq<Exchange>, peer: Peer)
    requires !s.binary && AnsweredBy(es, peer)
    ensures DispatchAll(s, Requests(es, peer), peer) == Go(s.(sent := s.sent + Answers(es, peer)))
    decreases |es|
  {
    if es == [] {
      assert s.sent + [] == s.sent;
    } else {
      var s' := s.(sent := s.sent + [AnswerOf(es[0])]);
      OneAnswer(s, es[0], peer);
      DispatchFirst(s, Body(es[0].dt, es[0].payload), Requests(es[1..], peer), peer);
      RequestsAnswered(s', es[1..], peer);
      AppendAssoc(s.sent, [AnswerOf(es[0])], Answers(es[1..], peer));
    }
  }

  lemma {:induction false} AnswersAreStream(es: seq<Exchange>, peer: Peer)
    requires AnsweredBy(es, peer)
    ensures Client.AllFit(Responses(es))
    ensures Flatten(Answers(es, peer)) == Client.EncodeAll(Responses(es))
  {
    if es != [] {
      AnswersAreStream(es[1..], peer);
      assert Answers(es, peer)[1..] == Answers(es[1..], peer);
      assert Responses(es)[1..] == Responses(es[1..]);
    }
  }

  /** Any list of exchanges: the requests, framed and received in chunks that begin with the whole
      length and are not merged, make the peer send answers which the client, reading with the
      matching receivers, takes apart into exactly the response bodies in order. */
  lemma ConversationStaysAligned(s: State, es: seq<Exchange>, chunkings: seq<seq<Bytes>>, peer: Peer, rest: Bytes)
    requires !s.binary && AnsweredBy(es, peer)
    requires Separated(chunkings, Requests(es, peer))
    ensures Serve(s, EMPTY, Flatten(chunkings), peer) == Served(s.(sent := s.sent + Answers(es, peer)), EMPTY, true)
    ensures Client.DecodeAll(Client.Prefixes(Responses(es)), Flatten(Answers(es, peer)) + rest) ==
            Ok((Client.Bodies(Responses(es)), rest))
  {
    FramesDelivered(chunkings, Requests(es, peer));
    RequestsAnswered(s, es, peer);
    NoEmptyChunks(chunkings);
    ServeDispatchesFrames(s, EMPTY, Flatten(chunkings), peer);
    AnswersAreStream(es, peer);
    Client.ConnectionStaysAligned(Responses(es), rest);
  }
}
