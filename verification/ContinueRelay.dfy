/**
  How a connection is relayed between client and host, with `Expect: 100-continue` (section 10.1.1 of RFC 9110):
  proxy_agent/src/proxy/proxy_listener.rs and the body loops of proxy_agent/src/common/http.rs. A stream
  yields non-empty chunks and then times out; everything written is recorded in one trace, in order.
 */
module ContinueRelay {
  import opened Prelude
  import opened Text
  import opened Headers
  import opened Request
  import opened SignedRoundTrip

  /** A status text: "100 Continue", "400 Bad Request", "502 Bad Gateway" or anything else. */
  datatype Status = Continue | BadRequest | BadGateway | Other(text: string)

  type Chunks = seq<seq<Byte>>

  /** A response of the host; its length is None when the Content-Length header does not parse. */
  datatype Response = Response(status: Status, length: Option<nat>, chunks: Chunks)

  /** `ToClient` is a response head, `ToHost` a request as `to_raw_string` prints it. */
  datatype Event =
    | ToClient(status: Status)
    | DataToClient(bytes: seq<Byte>)
    | ToHost(request: RequestData)
    | DataToHost(bytes: seq<Byte>)
    | FromHost(status: Status)

  // ---------- reading a body ----------

  function Minus(len: nat, n: nat): nat {
    if n <= len then len - n else 0
  }

  /** The chunks a body loop reads for a declared length. */
  function Gathered(chunks: Chunks, len: nat): (g: Chunks)
    ensures |g| <= |chunks|
  {
    if len == 0 || chunks == [] then []
    else [chunks[0]] + Gathered(chunks[1..], Minus(len, |chunks[0]|))
  }

  function Body(chunks: Chunks, len: nat): seq<Byte> {
    Flatten(Gathered(chunks, len))
  }

  /** The loop reads whole chunks from the front, stops at the first that reaches the length, and stops
      short only when nothing is left. */
  lemma {:induction false} GatheredShape(chunks: Chunks, len: nat)
    ensures var g := Gathered(chunks, len);
            && g <= chunks
            && (|Flatten(chunks)| >= len ==> |Flatten(g)| >= len)
            && (|Flatten(chunks)| < len ==> g == chunks)
            && (g != [] ==> |Flatten(g[..|g| - 1])| < len)
  {
    if len > 0 && chunks != [] {
      var rest, left := chunks[1..], Minus(len, |chunks[0]|);
      GatheredShape(rest, left);
      var g, h := Gathered(chunks, len), Gathered(rest, left);
      assert g[1..] == h && chunks == [chunks[0]] + rest;
      assert Flatten(g) == chunks[0] + Flatten(h);
      if h != [] {
        assert g[..|g| - 1] == [chunks[0]] + h[..|h| - 1];
        assert g[..|g| - 1][1..] == h[..|h| - 1];
      }
    }
  }

  lemma {:induction false} FlattenPrefix(g: Chunks, chunks: Chunks)
    requires g <= chunks
    ensures Flatten(g) <= Flatten(chunks)
  {
    if g != [] {
      FlattenPrefix(g[1..], chunks[1..]);
    }
  }

  /** A client that sends as many bytes as it declared has its body read exactly, however it is cut up. */
  lemma ChunkingIsIrrelevant(chunks: Chunks, len: nat)
    ensures Body(chunks, len) <= Flatten(chunks)
    ensures |Flatten(chunks)| <= len ==> Body(chunks, len) == Flatten(chunks)
  {
    GatheredShape(chunks, len);
    FlattenPrefix(Gathered(chunks, len), chunks);
  }

  /** A chunk that runs past the declared length is kept whole. */
  lemma OverrunIsKept(chunk: seq<Byte>, len: nat)
    requires len > 0
    ensures Body([chunk], len) == chunk
  {
    assert [chunk][1..] == [];
    assert Gathered([chunk], len) == [chunk] + Gathered([], Minus(len, |chunk|));
    assert Gathered([chunk], len) == [chunk];
    assert Flatten([chunk]) == chunk + Flatten([]);
  }

  lemma GatherOne(chunks: Chunks, i: nat, len: nat)
    requires i < |chunks| && len > 0
    ensures chunks[..i] + Gathered(chunks[i..], len)
         == chunks[..i + 1] + Gathered(chunks[i + 1..], Minus(len, |chunks[i]|))
    ensures Flatten(chunks[..i + 1]) == Flatten(chunks[..i]) + chunks[i]
  {
    assert chunks[i..][1..] == chunks[i + 1..];
    assert chunks[..i + 1] == chunks[..i] + [chunks[i]];
    FlattenAppend(chunks[..i], chunks[i]);
  }

  /** `receive_body_internal` */
  method ReceiveBody(chunks: Chunks, len: nat) returns (data: seq<Byte>, rest: Chunks)
    ensures data == Body(chunks, len)
    ensures rest == chunks[|Gathered(chunks, len)|..]
  {
    data, rest := [], chunks;
    ghost var i := 0;
    while |data| < len
      invariant 0 <= i <= |chunks| && rest == chunks[i..] && data == Flatten(chunks[..i])
      invariant Gathered(chunks, len) == chunks[..i] + Gathered(rest, Minus(len, |data|))
      decreases |rest|
    {
      if rest == [] { break; }
      GatherOne(chunks, i, len - |data|);
      data := data + rest[0];
      rest := rest[1..];
      i := i + 1;
    }
    assert Gathered(chunks, len) == chunks[..i];
  }

  /** `stream_body_internal`: the chunks written on, and the byte count unless write number `failsAt` fails. */
  method StreamBody(chunks: Chunks, len: nat, failsAt: Option<nat>)
    returns (written: Chunks, received: Option<nat>)
    ensures written == Streamed(chunks, len, failsAt)
    ensures received == if WriteFails(chunks, len, failsAt) then None else Some(|Body(chunks, len)|)
  {
    written := [];
    var count := 0;
    var i := 0;
    while count < len
      invariant 0 <= i <= |chunks| && written == chunks[..i] && count == |Flatten(chunks[..i])|
      invariant Gathered(chunks, len) == chunks[..i] + Gathered(chunks[i..], Minus(len, count))
      invariant failsAt.Some? ==> i <= failsAt.value
      decreases |chunks| - i
    {
      if i == |chunks| { break; }
      GatherOne(chunks, i, len - count);
      if failsAt == Some(i) { return written, None; }
      written := written + [chunks[i]];
      count := count + |chunks[i]|;
      i := i + 1;
    }
    assert Gathered(chunks, len) == chunks[..i];
    return written, Some(count);
  }

  predicate WriteFails(chunks: Chunks, len: nat, failsAt: Option<nat>) {
    failsAt.Some? && failsAt.value < |Gathered(chunks, len)|
  }

  function Streamed(chunks: Chunks, len: nat, failsAt: Option<nat>): Chunks {
    if WriteFails(chunks, len, failsAt) then Gathered(chunks, len)[..failsAt.value] else Gathered(chunks, len)
  }

  // ---------- what is written, in order ----------

  function ToClientData(chunks: Chunks): seq<Event> {
    seq(|chunks|, i requires 0 <= i < |chunks| => DataToClient(chunks[i]))
  }

  function ToHostData(chunks: Chunks): seq<Event> {
    seq(|chunks|, i requires 0 <= i < |chunks| => DataToHost(chunks[i]))
  }

  /** The k-th response of the host; None when it cannot be read. */
  function Nth(replies: seq<Option<Response>>, k: nat): Option<Response> {
    if k < |replies| then replies[k] else None
  }

  predicate Continues(r: Option<Response>) {
    r.Some? && r.value.status.Continue?
  }

  function Read(r: Option<Response>): seq<Event> {
    if r.None? then [] else [FromHost(r.value.status)]
  }

  /** `forward_response`: a 100 is kept back; any other head goes to the client before its length is parsed. */
  function Forwarded(r: Option<Response>): seq<Event> {
    Read(r)
    + (if r.None? || Continues(r) then []
       else [ToClient(r.value.status)]
            + (if r.value.length.None? then [] else ToClientData(Gathered(r.value.chunks, r.value.length.value))))
  }

  function Prologue(r: RequestData): seq<Event> {
    if !ExpectsContinue(r.headers) then []
    else [ToClient(Continue)] + (if ContentLength(r.headers).None? then [ToClient(BadRequest)] else [])
  }

  /** The request once an expecting client has sent its body. */
  function WithBody(r: RequestData, chunks: Chunks): RequestData {
    if ExpectsContinue(r.headers) && ContentLength(r.headers).Some?
    then r.(body := Body(chunks, ContentLength(r.headers).value)) else r
  }

  /** The key and the hash: the authorization value for an input, or None without a usable key. */
  type Signer = seq<Byte> -> Option<string>

  ghost function Attached(lib: UrlLibrary, sign: Signer, r: RequestData): RequestData {
    match sign(SigInput(lib, r))
    case None => r
    case Some(v) => SignedRequest(r, v)
  }

  ghost function SentToHost(lib: UrlLibrary, sign: Signer, r: RequestData, chunks: Chunks): RequestData {
    Attached(lib, sign, WithBody(r, chunks))
  }

  /** From the request to the host to the end of the signed path. */
  function Exchange(sent: RequestData, first: Option<Response>, second: Option<Response>): seq<Event> {
    [ToHost(sent)] + Forwarded(first)
    + (if Continues(first) then [DataToHost(sent.body)] + Forwarded(second) else [])
  }

  ghost function SignedTrace(lib: UrlLibrary, sign: Signer, r: RequestData, chunks: Chunks,
                             replies: seq<Option<Response>>): seq<Event> {
    Prologue(r) + Exchange(SentToHost(lib, sign, r, chunks), Nth(replies, 0), Nth(replies, 1))
  }

  /** `receive_response_data` fails when nothing can be read or the length does not parse. */
  predicate Received(r: Option<Response>) {
    r.Some? && r.value.length.Some?
  }

  /** The response, or 502 in its place. */
  function Delivered(r: Option<Response>): seq<Event> {
    if Received(r)
    then [ToClient(r.value.status), DataToClient(Body(r.value.chunks, r.value.length.value))]
    else [ToClient(BadGateway)]
  }

  /** The body of an expecting client goes to the host whole. */
  predicate BodyRelayed(r: RequestData, chunks: Chunks, failsAt: Option<nat>) {
    var length := ContentLength(r.headers);
    && length.Some? && !WriteFails(chunks, length.value, failsAt)
    && |Body(chunks, length.value)| >= length.value
  }

  /** From the host's 100 to the end of the client's body. */
  function BodyEvents(r: RequestData, chunks: Chunks, failsAt: Option<nat>): seq<Event> {
    match ContentLength(r.headers)
    case None => [ToClient(BadRequest)]
    case Some(len) =>
      [ToClient(Continue)] + ToHostData(Streamed(chunks, len, failsAt))
      + (if WriteFails(chunks, len, failsAt) then [ToClient(BadGateway)]
         else if |Body(chunks, len)| < len then [ToClient(BadRequest)]
         else [])
  }

  function UnsignedTrace(r: RequestData, chunks: Chunks, replies: seq<Option<Response>>, failsAt: Option<nat>)
    : seq<Event>
  {
    var first, second := Nth(replies, 0), Nth(replies, 1);
    [ToHost(r)] + Read(first)
    + (if !(Received(first) && Continues(first)) then Delivered(first)
       else BodyEvents(r, chunks, failsAt)
            + (if BodyRelayed(r, chunks, failsAt) then Read(second) + Delivered(second) else []))
  }

  lemma Assoc(a: seq<Event>, b: seq<Event>, c: seq<Event>)
    ensures (a + b) + c == a + (b + c)
  {
  }

  lemma Assoc3(t: seq<Event>, a: seq<Event>, b: seq<Event>, c: seq<Event>, d: seq<Event>)
    ensures t + a + b + c + d == t + (a + b + (c + d))
    ensures d == [] ==> c + d == c && t + a + b + c == t + (a + b + c)
  {
  }

  // ---------- the object ----------

  class Connection {
    const failsAt: Option<nat>
    var clientChunks: Chunks
    var replies: seq<Option<Response>>
    var trace: seq<Event>

    constructor (chunks: Chunks, replies: seq<Option<Response>>, failsAt: Option<nat>)
      ensures clientChunks == chunks && this.replies == replies && this.failsAt == failsAt && trace == []
    {
      this.clientChunks, this.replies, this.failsAt, this.trace := chunks, replies, failsAt, [];
    }

    method SendResponse(status: Status)
      modifies this`trace
      ensures trace == old(trace) + [ToClient(status)]
    {
      trace := trace + [ToClient(status)];
    }

    method NextReply() returns (r: Option<Response>)
      modifies this`replies, this`trace
      ensures r == Nth(old(replies), 0) && trace == old(trace) + Read(r)
      ensures forall k: nat :: Nth(replies, k) == Nth(old(replies), k + 1)
    {
      if replies == [] { return None; }
      r := replies[0];
      replies := replies[1..];
      if r.Some? { trace := trace + [FromHost(r.value.status)]; }
    }

    method ForwardResponse() returns (r: Option<Response>)
      modifies this`replies, this`trace
      ensures trace == old(trace) + Forwarded(Nth(old(replies), 0))
      ensures r.None? ==> !Continues(Nth(old(replies), 0))
      ensures r.Some? ==> r == Nth(old(replies), 0)
      ensures forall k: nat :: Nth(replies, k) == Nth(old(replies), k + 1)
    {
      var reply := NextReply();
      if reply.None? { return None; }
      if reply.value.status.Continue? { return reply; }
      trace := trace + [ToClient(reply.value.status)];
      Assoc(old(trace), Read(reply), [ToClient(reply.value.status)]);
      if reply.value.length.None? { return None; }
      var written, _ := StreamBody(reply.value.chunks, reply.value.length.value, None);
      trace := trace + ToClientData(written);
      Assoc(old(trace), Read(reply) + [ToClient(reply.value.status)], ToClientData(written));
      Assoc(Read(reply), [ToClient(reply.value.status)], ToClientData(written));
      return reply;
    }

    /** `handle_expect_continue_request`, which returns nothing: its caller carries on after the 400. */
    method HandleExpectContinueRequest(request: Request)
      requires ExpectsContinue(request.headers.entries)
      modifies this`clientChunks, this`trace, request`body
      ensures trace == old(trace) + Prologue(old(request.Data()))
      ensures request.Data() == WithBody(old(request.Data()), old(clientChunks))
    {
      SendResponse(Continue);
      var length := ContentLength(request.headers.entries);
      if length.None? {
        SendResponse(BadRequest);
        return;
      }
      var data;
      data, clientChunks := ReceiveBody(clientChunks, length.value);
      request.body := data;
    }

    /** Signs the request as it now is and attaches the authorization header. */
    method AttachSignature(request: Request, lib: UrlLibrary, sign: Signer)
      modifies request.headers
      ensures request.Data() == Attached(lib, sign, old(request.Data()))
    {
      var input := request.AsSigInput(lib);
      var authorization := sign(input);
      if authorization.Some? {
        request.headers.AddHeader(AUTHORIZATION_HEADER, authorization.value);
      }
    }

    method ExchangeWithHost(request: Request)
      modifies this`replies, this`trace
      ensures trace == old(trace) + Exchange(request.Data(), Nth(old(replies), 0), Nth(old(replies), 1))
    {
      ghost var sent, first, second := request.Data(), Nth(replies, 0), Nth(replies, 1);
      trace := trace + [ToHost(request.Data())];
      var response := ForwardResponse();
      Assoc(old(trace), [ToHost(sent)], Forwarded(first));
      if response.None? { return; }
      if response.value.status.Continue? {
        trace := trace + [DataToHost(request.body)];
        var _ := ForwardResponse();
        Assoc(old(trace) + ([ToHost(sent)] + Forwarded(first)), [DataToHost(sent.body)], Forwarded(second));
        Assoc(old(trace), [ToHost(sent)] + Forwarded(first), [DataToHost(sent.body)] + Forwarded(second));
      }
    }

    method SignAndExchange(request: Request, lib: UrlLibrary, sign: Signer)
      modifies this`replies, this`trace, request.headers
      ensures trace == old(trace)
                       + Exchange(Attached(lib, sign, old(request.Data())), Nth(old(replies), 0), Nth(old(replies), 1))
    {
      AttachSignature(request, lib, sign);
      ExchangeWithHost(request);
    }

    method HandleWithSignature(request: Request, lib: UrlLibrary, sign: Signer)
      modifies this`clientChunks, this`replies, this`trace, request`body, request.headers
      ensures trace == old(trace) + SignedTrace(lib, sign, old(request.Data()), old(clientChunks), old(replies))
    {
      ghost var r, chunks := request.Data(), clientChunks;
      if ExpectsContinue(request.headers.entries) {
        HandleExpectContinueRequest(request);
      }
      assert request.Data() == WithBody(r, chunks);
      assert trace == old(trace) + Prologue(r);
      SignAndExchange(request, lib, sign);
      Assoc(old(trace), Prologue(r),
            Exchange(SentToHost(lib, sign, r, chunks), Nth(old(replies), 0), Nth(old(replies), 1)));
    }

    method ReceiveResponse() returns (r: Option<Response>, body: seq<Byte>)
      modifies this`replies, this`trace
      ensures trace == old(trace) + Read(Nth(old(replies), 0))
      ensures forall k: nat :: Nth(replies, k) == Nth(old(replies), k + 1)
      ensures r.Some? <==> Received(Nth(old(replies), 0))
      ensures r.Some? ==> r == Nth(old(replies), 0) && body == Body(r.value.chunks, r.value.length.value)
    {
      body := [];
      r := NextReply();
      if r.None? { return; }
      if r.value.length.None? { return None, []; }
      var data, _ := ReceiveBody(r.value.chunks, r.value.length.value);
      body := data;
    }

    /** The continue branch up to the second response; `ok` unless it answered the client itself. */
    method StreamRequestBody(request: Request) returns (ok: bool)
      modifies this`trace
      ensures trace == old(trace) + BodyEvents(request.Data(), clientChunks, failsAt)
      ensures ok == BodyRelayed(request.Data(), clientChunks, failsAt)
    {
      var length := ContentLength(request.headers.entries);
      if length.None? {
        SendResponse(BadRequest);
        return false;
      }
      SendResponse(Continue);
      var written, count := StreamBody(clientChunks, length.value, failsAt);
      trace := trace + ToHostData(written);
      Assoc(old(trace), [ToClient(Continue)], ToHostData(written));
      if count.None? {
        SendResponse(BadGateway);
        Assoc(old(trace), [ToClient(Continue)] + ToHostData(written), [ToClient(BadGateway)]);
        return false;
      }
      if count.value < length.value {
        SendResponse(BadRequest);
        Assoc(old(trace), [ToClient(Continue)] + ToHostData(written), [ToClient(BadRequest)]);
        return false;
      }
      return true;
    }

    /** The end of the unsigned path, for a response that was read or not. */
    method Deliver(response: Option<Response>, body: seq<Byte>, ghost read: Option<Response>)
      requires response.Some? <==> Received(read)
      requires response.Some? ==> response == read && body == Body(read.value.chunks, read.value.length.value)
      modifies this`trace
      ensures trace == old(trace) + Delivered(read)
    {
      if response.None? {
        SendResponse(BadGateway);
      } else {
        trace := trace + [ToClient(response.value.status), DataToClient(body)];
      }
    }

    method HandleWithoutSignature(request: Request)
      modifies this`replies, this`trace
      ensures trace == old(trace) + UnsignedTrace(request.Data(), clientChunks, old(replies), failsAt)
    {
      ghost var r, first, second := request.Data(), Nth(replies, 0), Nth(replies, 1);
      trace := trace + [ToHost(request.Data())];
      var response, body := ReceiveResponse();
      if response.Some? && response.value.status.Continue? {
        var ok := StreamRequestBody(request);
        if !ok {
          Assoc3(old(trace), [ToHost(r)], Read(first), BodyEvents(r, clientChunks, failsAt), []);
          return;
        }
        response, body := ReceiveResponse();
        Deliver(response, body, second);
        ghost var body' := BodyEvents(r, clientChunks, failsAt);
        Assoc3(old(trace), [ToHost(r)], Read(first), body', Read(second) + Delivered(second));
        Assoc(old(trace) + [ToHost(r)] + Read(first) + body', Read(second), Delivered(second));
      } else {
        Deliver(response, body, first);
        Assoc3(old(trace), [ToHost(r)], Read(first), Delivered(first), []);
      }
    }
  }

  // ---------- what the client sees ----------

  /** The response heads the client sees, in order. */
  function Heads(trace: seq<Event>): seq<Status> {
    FlatMap(HeadOf, trace)
  }

  function HeadOf(e: Event): seq<Status> {
    if e.ToClient? then [e.status] else []
  }

  lemma HeadsConcat(a: seq<Event>, b: seq<Event>)
    ensures Heads(a + b) == Heads(a) + Heads(b)
  {
    FlatMapConcat(HeadOf, a, b);
  }

  lemma NoHeads(a: seq<Event>)
    requires forall i | 0 <= i < |a| :: !a[i].ToClient?
    ensures Heads(a) == []
  {
    FlatMapNone(HeadOf, a);
  }

  lemma OneHead(e: Event)
    ensures Heads([e]) == HeadOf(e)
  {
    FlatMapOne(HeadOf, e);
  }

  /** The final status one response of the host gives the client, if any. */
  function Final(r: Option<Response>): seq<Status> {
    if r.None? || Continues(r) then [] else [r.value.status]
  }

  lemma ForwardedHeads(r: Option<Response>)
    ensures Heads(Forwarded(r)) == Final(r)
  {
    NoHeads(Read(r));
    assert Read(r) + [] == Read(r);
    if r.Some? && !Continues(r) {
      var data := if r.value.length.None? then [] else ToClientData(Gathered(r.value.chunks, r.value.length.value));
      NoHeads(data);
      OneHead(FromHost(r.value.status));
      OneHead(ToClient(r.value.status));
      HeadsConcat([FromHost(r.value.status)], [ToClient(r.value.status)] + data);
      HeadsConcat([ToClient(r.value.status)], data);
      assert Forwarded(r) == [FromHost(r.value.status)] + ([ToClient(r.value.status)] + data);
    }
  }

  /** The host's answer on the signed path: its first response, or the one after its 100. */
  function Answer(replies: seq<Option<Response>>): seq<Status> {
    if Continues(Nth(replies, 0)) then Final(Nth(replies, 1)) else Final(Nth(replies, 0))
  }

  lemma ExchangeHeads(sent: RequestData, first: Option<Response>, second: Option<Response>)
    ensures Heads(Exchange(sent, first, second)) == if Continues(first) then Final(second) else Final(first)
  {
    var rest := if Continues(first) then [DataToHost(sent.body)] + Forwarded(second) else [];
    OneHead(ToHost(sent));
    OneHead(DataToHost(sent.body));
    HeadsConcat([ToHost(sent)] + Forwarded(first), rest);
    HeadsConcat([ToHost(sent)], Forwarded(first));
    ForwardedHeads(first);
    ForwardedHeads(second);
    HeadsConcat([DataToHost(sent.body)], Forwarded(second));
  }

  function PrologueStatuses(r: RequestData): seq<Status> {
    OwnStatuses(ExpectsContinue(r.headers), ContentLength(r.headers).Some?)
  }

  function OwnStatuses(expects: bool, parses: bool): seq<Status> {
    if !expects then [] else if parses then [Continue] else [Continue, BadRequest]
  }

  lemma StatusesThenAnswer(expects: bool, parses: bool, answer: seq<Status>)
    requires |answer| <= 1 && Continue !in answer && expects
    ensures var heads := OwnStatuses(expects, parses) + answer;
            && heads != [] && heads[0] == Continue && Continue !in heads[1..]
            && (|heads[1..]| <= 1 <==> parses || answer == [])
  {
    assert (OwnStatuses(expects, parses) + answer)[1..] == OwnStatuses(expects, parses)[1..] + answer;
  }

  lemma PrologueHeads(r: RequestData)
    ensures Heads(Prologue(r)) == PrologueStatuses(r)
  {
    OneHead(ToClient(Continue));
    OneHead(ToClient(BadRequest));
    HeadsConcat([ToClient(Continue)], [ToClient(BadRequest)]);
    assert [ToClient(Continue)] + [] == [ToClient(Continue)];
  }

  /** Signed path, every host: an expecting client sees one 100, first, and then the host's answer; at most one
      final response exactly when its Content-Length parses or the host gives no answer, since the 400 for a
      bad Content-Length does not stop the request. Other clients see the host's answer alone. */
  lemma SignedClientSees(lib: UrlLibrary, sign: Signer, r: RequestData, chunks: Chunks, replies: seq<Option<Response>>)
    ensures var heads := Heads(SignedTrace(lib, sign, r, chunks, replies));
            && heads == PrologueStatuses(r) + Answer(replies)
            && |Answer(replies)| <= 1 && Continue !in Answer(replies)
            && (ExpectsContinue(r.headers) ==>
                  && heads != [] && heads[0] == Continue && Continue !in heads[1..]
                  && (|heads[1..]| <= 1 <==> ContentLength(r.headers).Some? || Answer(replies) == []))
            && (!ExpectsContinue(r.headers) ==> heads == Answer(replies))
  {
    SignedHeads(r, SentToHost(lib, sign, r, chunks), replies);
    if ExpectsContinue(r.headers) {
      StatusesThenAnswer(true, ContentLength(r.headers).Some?, Answer(replies));
    }
  }

  lemma SignedHeads(r: RequestData, sent: RequestData, replies: seq<Option<Response>>)
    ensures Heads(Prologue(r) + Exchange(sent, Nth(replies, 0), Nth(replies, 1)))
         == PrologueStatuses(r) + Answer(replies)
  {
    PrologueHeads(r);
    ExchangeHeads(sent, Nth(replies, 0), Nth(replies, 1));
    HeadsConcat(Prologue(r), Exchange(sent, Nth(replies, 0), Nth(replies, 1)));
  }

  // ---------- the order of the 100 and what follows it ----------

  predicate Never(p: Event -> bool, trace: seq<Event>) {
    forall e | e in trace :: !p(e)
  }

  /** Every event of the kind comes after the host's 100. */
  predicate AfterContinue(p: Event -> bool, trace: seq<Event>) {
    forall i | 0 <= i < |trace| && p(trace[i]) :: FromHost(Continue) in trace[..i]
  }

  lemma AfterContinueConcat(p: Event -> bool, a: seq<Event>, b: seq<Event>)
    requires Never(p, a) && (FromHost(Continue) in a || Never(p, b))
    ensures AfterContinue(p, a + b)
  {
    forall j | 0 <= j < |a| ensures !p((a + b)[j]) {
      assert (a + b)[j] == a[j];
    }
    forall i | 0 <= i < |a + b| && p((a + b)[i]) ensures FromHost(Continue) in (a + b)[..i] {
      if i >= |a| {
        assert (a + b)[i] == b[i - |a|];
        assert (a + b)[..i] == a + b[..i - |a|];
      }
    }
  }

  predicate IsBody(e: Event) {
    e.DataToHost?
  }

  /** Signed path: the body goes to the host in a message of its own only after the host's 100. */
  lemma SignedBodyAfterContinue(lib: UrlLibrary, sign: Signer, r: RequestData, chunks: Chunks,
                                replies: seq<Option<Response>>)
    ensures AfterContinue(IsBody, SignedTrace(lib, sign, r, chunks, replies))
  {
    var sent, first, second := SentToHost(lib, sign, r, chunks), Nth(replies, 0), Nth(replies, 1);
    var rest := if Continues(first) then [DataToHost(sent.body)] + Forwarded(second) else [];
    NoBodyForwarded(first);
    assert Never(IsBody, Prologue(r));
    NeverConcat(IsBody, [ToHost(sent)], Forwarded(first));
    NeverConcat(IsBody, Prologue(r), [ToHost(sent)] + Forwarded(first));
    if Continues(first) {
      assert Forwarded(first) == [FromHost(Continue)];
      InConcat(Prologue(r), [ToHost(sent)], Forwarded(first), FromHost(Continue));
    }
    AfterContinueConcat(IsBody, Prologue(r) + ([ToHost(sent)] + Forwarded(first)), rest);
    Assoc(Prologue(r), [ToHost(sent)] + Forwarded(first), rest);
  }

  lemma NoBodyForwarded(r: Option<Response>)
    ensures Never(IsBody, Forwarded(r))
  {
  }

  lemma NeverConcat(p: Event -> bool, a: seq<Event>, b: seq<Event>)
    requires Never(p, a) && Never(p, b)
    ensures Never(p, a + b)
  {
  }

  lemma InConcat(a: seq<Event>, b: seq<Event>, c: seq<Event>, e: Event)
    requires e in c
    ensures e in a + (b + c)
  {
  }

  predicate IsBodyOrContinue(e: Event) {
    e.DataToHost? || e == ToClient(Continue)
  }

  // ---------- what the host gets ----------

  /** The body bytes the host receives, with the request or after it. */
  ghost function HostBytes(trace: seq<Event>): seq<Byte> {
    FlatMap(EventBytes, trace)
  }

  ghost function EventBytes(e: Event): seq<Byte> {
    match e
    case ToHost(r) => Encode(PrintedBody(r))
    case DataToHost(b) => b
    case _ => []
  }

  lemma HostBytesConcat(a: seq<Event>, b: seq<Event>)
    ensures HostBytes(a + b) == HostBytes(a) + HostBytes(b)
  {
    FlatMapConcat(EventBytes, a, b);
  }

  lemma NoHostBytes(a: seq<Event>)
    requires forall i | 0 <= i < |a| :: !a[i].ToHost? && !a[i].DataToHost?
    ensures HostBytes(a) == []
  {
    FlatMapNone(EventBytes, a);
  }

  lemma OneHostEvent(e: Event)
    ensures HostBytes([e]) == EventBytes(e)
  {
    FlatMapOne(EventBytes, e);
  }

  lemma FirstPartBytes(sent: RequestData, forwarded: seq<Event>)
    requires HostBytes(forwarded) == []
    ensures HostBytes([ToHost(sent)] + forwarded) == Encode(PrintedBody(sent))
  {
    HostBytesConcat([ToHost(sent)], forwarded);
    OneHostEvent(ToHost(sent));
  }

  lemma SecondPartBytes(body: seq<Byte>, forwarded: seq<Event>)
    requires HostBytes(forwarded) == []
    ensures HostBytes([DataToHost(body)] + forwarded) == body
  {
    HostBytesConcat([DataToHost(body)], forwarded);
    OneHostEvent(DataToHost(body));
  }

  lemma ExchangeHostBytes(sent: RequestData, first: Option<Response>, second: Option<Response>)
    ensures HostBytes(Exchange(sent, first, second))
         == Encode(PrintedBody(sent)) + (if Continues(first) then sent.body else [])
  {
    var a := [ToHost(sent)] + Forwarded(first);
    NoHostBytes(Forwarded(first));
    FirstPartBytes(sent, Forwarded(first));
    if Continues(first) {
      NoHostBytes(Forwarded(second));
      SecondPartBytes(sent.body, Forwarded(second));
      HostBytesConcat(a, [DataToHost(sent.body)] + Forwarded(second));
    } else {
      assert a + [] == a;
    }
  }

  lemma AuthorizationIsNotExpect()
    ensures Lower(AUTHORIZATION_HEADER) != EXPECT_KEY
  {
    assert |Lower(AUTHORIZATION_HEADER)| == 29 && |EXPECT_KEY| == 6;
  }

  /** The signature attached to the request is that of the request sent, and attaching it does not change
      whether a 100 is expected. */
  lemma SignatureMatchesSent(lib: UrlLibrary, sign: Signer, r: RequestData)
    ensures var sent := Attached(lib, sign, r);
            && sent.body == r.body && SigInput(lib, sent) == SigInput(lib, r)
            && ExpectsContinue(sent.headers) == ExpectsContinue(r.headers)
            && (sign(SigInput(lib, sent)).Some? ==>
                  && Lower(AUTHORIZATION_HEADER) in sent.headers
                  && sent.headers[Lower(AUTHORIZATION_HEADER)].value == sign(SigInput(lib, sent)).value)
  {
    var v := sign(SigInput(lib, r));
    if v.Some? {
      AuthorizationIgnored(r.headers, v.value);
      AuthorizationIsNotExpect();
    }
  }

  /** The body as printed with the head, followed by the body again if the host sent a 100. */
  lemma PrintedThenSent(sent: RequestData, continues: bool)
    ensures var got := Encode(PrintedBody(sent)) + (if continues then sent.body else []);
            && (ExpectsContinue(sent.headers) ==> got == if continues then sent.body else [])
            && (got == sent.body <==>
                  || sent.body == []
                  || (if ExpectsContinue(sent.headers) then continues else FromUtf8(sent.body).Some? != continues))
  {
    assert Encode("") == [];
    if ExpectsContinue(sent.headers) || FromUtf8(sent.body).None? {
      assert Encode(PrintedBody(sent)) == [];
    } else {
      assert Encode(PrintedBody(sent)) == sent.body;
    }
  }

  lemma AllHostBytes(r: RequestData, sent: RequestData, first: Option<Response>, second: Option<Response>)
    ensures HostBytes(Prologue(r) + Exchange(sent, first, second))
         == Encode(PrintedBody(sent)) + (if Continues(first) then sent.body else [])
  {
    ExchangeHostBytes(sent, first, second);
    NoHostBytes(Prologue(r));
    HostBytesConcat(Prologue(r), Exchange(sent, first, second));
  }

  /** Signed path, every host: the host gets exactly the signed body, of an expecting client when it sends its
      100, and of another client when the body is UTF-8 text and the host sends no 100 of its own accord (it
      would get the body twice) or is binary and the host does; in every case also when there is no body. */
  lemma SignedHostGets(lib: UrlLibrary, sign: Signer, r: RequestData, chunks: Chunks, replies: seq<Option<Response>>)
    ensures var sent := SentToHost(lib, sign, r, chunks);
            var got := HostBytes(SignedTrace(lib, sign, r, chunks, replies));
            var continues := Continues(Nth(replies, 0));
            && (ExpectsContinue(r.headers) ==> got == if continues then sent.body else [])
            && (got == sent.body <==>
                  || sent.body == []
                  || (if ExpectsContinue(r.headers) then continues else FromUtf8(sent.body).Some? != continues))
            && sent.body == (if ExpectsContinue(r.headers) && ContentLength(r.headers).Some?
                             then Body(chunks, ContentLength(r.headers).value) else r.body)
  {
    var sent, first, second := SentToHost(lib, sign, r, chunks), Nth(replies, 0), Nth(replies, 1);
    SignatureMatchesSent(lib, sign, WithBody(r, chunks));
    AllHostBytes(r, sent, first, second);
    PrintedThenSent(sent, Continues(first));
  }

  // ---------- the unsigned path ----------

  /** The host answers its own 100 with another. */
  predicate SecondContinue(r: RequestData, chunks: Chunks, replies: seq<Option<Response>>, failsAt: Option<nat>) {
    var first, second := Nth(replies, 0), Nth(replies, 1);
    Received(first) && Continues(first) && BodyRelayed(r, chunks, failsAt) && Received(second) && Continues(second)
  }

  function DeliveredStatus(r: Option<Response>): Status {
    if Received(r) then r.value.status else BadGateway
  }

  lemma DeliveredHeads(r: Option<Response>)
    ensures Heads(Delivered(r)) == [DeliveredStatus(r)]
    ensures Heads(Read(r) + Delivered(r)) == [DeliveredStatus(r)]
  {
    if Received(r) {
      var data := DataToClient(Body(r.value.chunks, r.value.length.value));
      HeadsConcat([ToClient(r.value.status)], [data]);
      OneHead(ToClient(r.value.status));
      OneHead(data);
      assert Delivered(r) == [ToClient(r.value.status)] + [data];
    } else {
      OneHead(ToClient(BadGateway));
    }
    NoHeads(Read(r));
    HeadsConcat(Read(r), Delivered(r));
  }

  /** What the client sees between the host's 100 and the second response. */
  function BodyStatuses(r: RequestData, chunks: Chunks, failsAt: Option<nat>): seq<Status> {
    match ContentLength(r.headers)
    case None => [BadRequest]
    case Some(len) =>
      if WriteFails(chunks, len, failsAt) then [Continue, BadGateway]
      else if |Body(chunks, len)| < len then [Continue, BadRequest]
      else [Continue]
  }

  lemma BodyHeads(r: RequestData, chunks: Chunks, failsAt: Option<nat>)
    ensures Heads(BodyEvents(r, chunks, failsAt)) == BodyStatuses(r, chunks, failsAt)
  {
    OneHead(ToClient(Continue));
    OneHead(ToClient(BadRequest));
    OneHead(ToClient(BadGateway));
    var length := ContentLength(r.headers);
    if length.Some? {
      var data := ToHostData(Streamed(chunks, length.value, failsAt));
      NoHeads(data);
      HeadsConcat([ToClient(Continue)], data);
      HeadsConcat([ToClient(Continue)] + data, [ToClient(BadGateway)]);
      HeadsConcat([ToClient(Continue)] + data, [ToClient(BadRequest)]);
      assert [ToClient(Continue)] + data + [] == [ToClient(Continue)] + data;
    }
  }

  lemma UnsignedHeads(r: RequestData, chunks: Chunks, replies: seq<Option<Response>>, failsAt: Option<nat>)
    ensures Heads(UnsignedTrace(r, chunks, replies, failsAt)) ==
            var first, second := Nth(replies, 0), Nth(replies, 1);
            if !(Received(first) && Continues(first)) then [DeliveredStatus(first)]
            else BodyStatuses(r, chunks, failsAt)
                 + (if BodyRelayed(r, chunks, failsAt) then [DeliveredStatus(second)] else [])
  {
    var first, second := Nth(replies, 0), Nth(replies, 1);
    NoHeads([ToHost(r)] + Read(first));
    DeliveredHeads(first);
    DeliveredHeads(second);
    if !(Received(first) && Continues(first)) {
      HeadsConcat([ToHost(r)] + Read(first), Delivered(first));
    } else {
      BodyHeads(r, chunks, failsAt);
      var body := BodyEvents(r, chunks, failsAt);
      var rest := if BodyRelayed(r, chunks, failsAt) then Read(second) + Delivered(second) else [];
      HeadsConcat(body, rest);
      HeadsConcat([ToHost(r)] + Read(first), body + rest);
    }
  }

  /** Unsigned path, every host: the client sees its last response head after at most one 100, and that head
      is a final one exactly when the host does not follow its 100 with another. */
  lemma UnsignedClientSees(r: RequestData, chunks: Chunks, replies: seq<Option<Response>>, failsAt: Option<nat>)
    ensures var heads := Heads(UnsignedTrace(r, chunks, replies, failsAt));
            && (|heads| == 1 || (|heads| == 2 && heads[0] == Continue))
            && (heads[|heads| - 1] != Continue <==> !SecondContinue(r, chunks, replies, failsAt))
            && (!(Continues(Nth(replies, 0)) && Continues(Nth(replies, 1))) ==> heads[|heads| - 1] != Continue)
  {
    UnsignedHeads(r, chunks, replies, failsAt);
  }

  /** Unsigned path: the client is told to continue, and its body goes to the host, only after the host's 100. */
  lemma UnsignedAfterContinue(r: RequestData, chunks: Chunks, replies: seq<Option<Response>>, failsAt: Option<nat>)
    ensures AfterContinue(IsBodyOrContinue, UnsignedTrace(r, chunks, replies, failsAt))
  {
    var first, second := Nth(replies, 0), Nth(replies, 1);
    var start := [ToHost(r)] + Read(first);
    assert Never(IsBodyOrContinue, start);
    if !(Received(first) && Continues(first)) {
      AfterContinueConcat(IsBodyOrContinue, start, Delivered(first));
    } else {
      assert start[1] == FromHost(Continue);
      AfterContinueConcat(IsBodyOrContinue, start,
        BodyEvents(r, chunks, failsAt)
        + (if BodyRelayed(r, chunks, failsAt) then Read(second) + Delivered(second) else []));
    }
  }

  lemma {:induction false} ToHostDataBytes(chunks: Chunks)
    ensures HostBytes(ToHostData(chunks)) == Flatten(chunks)
  {
    if chunks != [] {
      ToHostDataBytes(chunks[1..]);
      assert ToHostData(chunks)[1..] == ToHostData(chunks[1..]);
      assert ToHostData(chunks)[0] == DataToHost(chunks[0]);
    }
  }

  lemma BodyEventsBytes(r: RequestData, chunks: Chunks, len: nat, failsAt: Option<nat>)
    requires ContentLength(r.headers) == Some(len)
    ensures HostBytes(BodyEvents(r, chunks, failsAt)) == Flatten(Streamed(chunks, len, failsAt))
  {
    var data := ToHostData(Streamed(chunks, len, failsAt));
    var end := if WriteFails(chunks, len, failsAt) then [ToClient(BadGateway)]
               else if |Body(chunks, len)| < len then [ToClient(BadRequest)] else [];
    ToHostDataBytes(Streamed(chunks, len, failsAt));
    NoHostBytes([ToClient(Continue)]);
    NoHostBytes(end);
    HostBytesConcat([ToClient(Continue)], data);
    HostBytesConcat([ToClient(Continue)] + data, end);
  }

  /** What of the client's stream goes to the host after the host's 100. */
  function Relayed(r: RequestData, chunks: Chunks, first: Option<Response>, failsAt: Option<nat>): seq<Byte> {
    if Received(first) && Continues(first) && ContentLength(r.headers).Some?
    then Flatten(Streamed(chunks, ContentLength(r.headers).value, failsAt)) else []
  }

  lemma RelayedShape(r: RequestData, chunks: Chunks, first: Option<Response>, failsAt: Option<nat>)
    ensures Relayed(r, chunks, first, failsAt) <= Flatten(chunks)
  {
    var length := ContentLength(r.headers);
    if length.Some? {
      GatheredShape(chunks, length.value);
      FlattenPrefix(Streamed(chunks, length.value, failsAt), chunks);
    }
  }

  lemma RestBytes(r: RequestData, chunks: Chunks, first: Option<Response>, second: Option<Response>,
                  failsAt: Option<nat>)
    ensures HostBytes(Delivered(first)) == []
    ensures Received(first) && Continues(first) ==>
            HostBytes(BodyEvents(r, chunks, failsAt)
                      + (if BodyRelayed(r, chunks, failsAt) then Read(second) + Delivered(second) else []))
            == Relayed(r, chunks, first, failsAt)
  {
    var length := ContentLength(r.headers);
    var last := if BodyRelayed(r, chunks, failsAt) then Read(second) + Delivered(second) else [];
    NoHostBytes(Delivered(first));
    NoHostBytes(last);
    HostBytesConcat(BodyEvents(r, chunks, failsAt), last);
    if length.None? {
      NoHostBytes(BodyEvents(r, chunks, failsAt));
    } else {
      BodyEventsBytes(r, chunks, length.value, failsAt);
    }
  }

  lemma UnsignedHostBytes(r: RequestData, chunks: Chunks, replies: seq<Option<Response>>, failsAt: Option<nat>)
    ensures HostBytes(UnsignedTrace(r, chunks, replies, failsAt))
         == Encode(PrintedBody(r)) + Relayed(r, chunks, Nth(replies, 0), failsAt)
  {
    var first, second := Nth(replies, 0), Nth(replies, 1);
    NoHostBytes(Read(first));
    FirstPartBytes(r, Read(first));
    var rest := if !(Received(first) && Continues(first)) then Delivered(first)
                else BodyEvents(r, chunks, failsAt)
                     + (if BodyRelayed(r, chunks, failsAt) then Read(second) + Delivered(second) else []);
    HostBytesConcat([ToHost(r)] + Read(first), rest);
    RestBytes(r, chunks, first, second, failsAt);
  }

  /** Unsigned path, every client and host. Of an expecting client the host gets exactly what was relayed after
      its 100: a prefix of what the client sent, all that was read unless a write fails. Of another client it
      gets the body of the request exactly when that is text and nothing was relayed, or is binary and the
      client sent it again after a 100; so without a 100 exactly when it is text. */
  lemma UnsignedHostGets(r: RequestData, chunks: Chunks, replies: seq<Option<Response>>, failsAt: Option<nat>)
    ensures var got := HostBytes(UnsignedTrace(r, chunks, replies, failsAt));
            var first, length := Nth(replies, 0), ContentLength(r.headers);
            var relayed := Relayed(r, chunks, first, failsAt);
            && relayed <= Flatten(chunks)
            && (relayed != [] ==> Continues(first))
            && (Received(first) && Continues(first) && length.Some? && !WriteFails(chunks, length.value, failsAt)
                ==> relayed == Body(chunks, length.value))
            && (ExpectsContinue(r.headers) ==> got == relayed)
            && (!ExpectsContinue(r.headers) ==>
                  (got == r.body <==> if FromUtf8(r.body).Some? then relayed == [] else relayed == r.body))
            && (!ExpectsContinue(r.headers) && !Continues(first) ==>
                  (got == r.body <==> FromUtf8(r.body).Some? || r.body == []))
  {
    var relayed := Relayed(r, chunks, Nth(replies, 0), failsAt);
    UnsignedHostBytes(r, chunks, replies, failsAt);
    RelayedShape(r, chunks, Nth(replies, 0), failsAt);
    PrintedThenRelayed(r, relayed);
  }

  lemma PrintedThenRelayed(r: RequestData, relayed: seq<Byte>)
    ensures var got := Encode(PrintedBody(r)) + relayed;
            && (ExpectsContinue(r.headers) ==> got == relayed)
            && (!ExpectsContinue(r.headers) ==>
                  (got == r.body <==> if FromUtf8(r.body).Some? then relayed == [] else relayed == r.body))
            && (r.body == [] ==> FromUtf8(r.body).Some?)
  {
    assert Encode("") == [];
    if ExpectsContinue(r.headers) || FromUtf8(r.body).None? {
      assert Encode(PrintedBody(r)) == [];
    } else {
      assert Encode(PrintedBody(r)) == r.body;
    }
  }

  // ---------- the body the client gets ----------

  /** The response body bytes the client receives. */
  function ClientBytes(trace: seq<Event>): seq<Byte> {
    FlatMap(DataOf, trace)
  }

  function DataOf(e: Event): seq<Byte> {
    if e.DataToClient? then e.bytes else []
  }

  lemma ClientBytesConcat(a: seq<Event>, b: seq<Event>)
    ensures ClientBytes(a + b) == ClientBytes(a) + ClientBytes(b)
  {
    FlatMapConcat(DataOf, a, b);
  }

  lemma NoClientBytes(a: seq<Event>)
    requires forall i | 0 <= i < |a| :: !a[i].DataToClient?
    ensures ClientBytes(a) == []
  {
    FlatMapNone(DataOf, a);
  }

  lemma {:induction false} ToClientDataBytes(chunks: Chunks)
    ensures ClientBytes(ToClientData(chunks)) == Flatten(chunks)
  {
    if chunks != [] {
      ToClientDataBytes(chunks[1..]);
      assert ToClientData(chunks)[1..] == ToClientData(chunks[1..]);
      assert ToClientData(chunks)[0] == DataToClient(chunks[0]);
    }
  }

  /** The body of a response that is passed on. */
  function BodyOf(r: Option<Response>): seq<Byte> {
    if Received(r) then Body(r.value.chunks, r.value.length.value) else []
  }

  lemma ForwardedClientBytes(r: Option<Response>)
    ensures ClientBytes(Forwarded(r)) == if Continues(r) then [] else BodyOf(r)
  {
    if Received(r) && !Continues(r) {
      var data := ToClientData(Gathered(r.value.chunks, r.value.length.value));
      ToClientDataBytes(Gathered(r.value.chunks, r.value.length.value));
      NoClientBytes(Read(r) + [ToClient(r.value.status)]);
      ClientBytesConcat(Read(r) + [ToClient(r.value.status)], data);
      Assoc(Read(r), [ToClient(r.value.status)], data);
    } else {
      NoClientBytes(Forwarded(r));
    }
  }

  lemma ExchangeClientBytes(sent: RequestData, first: Option<Response>, second: Option<Response>)
    ensures ClientBytes(Exchange(sent, first, second))
         == if !Continues(first) then BodyOf(first) else if Continues(second) then [] else BodyOf(second)
  {
    var a := [ToHost(sent)] + Forwarded(first);
    ForwardedClientBytes(first);
    NoClientBytes([ToHost(sent)]);
    ClientBytesConcat([ToHost(sent)], Forwarded(first));
    if Continues(first) {
      ForwardedClientBytes(second);
      NoClientBytes([DataToHost(sent.body)]);
      ClientBytesConcat([DataToHost(sent.body)], Forwarded(second));
      ClientBytesConcat(a, [DataToHost(sent.body)] + Forwarded(second));
    } else {
      assert a + [] == a;
    }
  }

  /** Signed path: the client gets the body of the response whose head it gets, as far as its Content-Length and
      the host allow, and no other bytes. */
  lemma SignedClientGets(lib: UrlLibrary, sign: Signer, r: RequestData, chunks: Chunks, replies: seq<Option<Response>>)
    ensures var answering := Nth(replies, if Continues(Nth(replies, 0)) then 1 else 0);
            ClientBytes(SignedTrace(lib, sign, r, chunks, replies))
            == if Continues(answering) then [] else BodyOf(answering)
  {
    var sent := SentToHost(lib, sign, r, chunks);
    NoClientBytes(Prologue(r));
    ExchangeClientBytes(sent, Nth(replies, 0), Nth(replies, 1));
    ClientBytesConcat(Prologue(r), Exchange(sent, Nth(replies, 0), Nth(replies, 1)));
  }

  lemma DeliveredClientBytes(r: Option<Response>)
    ensures ClientBytes(Read(r) + Delivered(r)) == BodyOf(r)
  {
    if Received(r) {
      var head := Read(r) + [ToClient(r.value.status)];
      NoClientBytes(head);
      FlatMapOne(DataOf, DataToClient(BodyOf(r)));
      ClientBytesConcat(head, [DataToClient(BodyOf(r))]);
      assert Read(r) + Delivered(r) == head + [DataToClient(BodyOf(r))];
    } else {
      NoClientBytes(Read(r) + Delivered(r));
    }
  }

  /** Unsigned path: the client gets the body of the response it is given, and no other bytes. */
  lemma UnsignedClientGets(r: RequestData, chunks: Chunks, replies: seq<Option<Response>>, failsAt: Option<nat>)
    ensures var first, second := Nth(replies, 0), Nth(replies, 1);
            ClientBytes(UnsignedTrace(r, chunks, replies, failsAt))
            == if !(Received(first) && Continues(first)) then BodyOf(first)
               else if BodyRelayed(r, chunks, failsAt) then BodyOf(second) else []
  {
    var first, second := Nth(replies, 0), Nth(replies, 1);
    NoClientBytes([ToHost(r)]);
    DeliveredClientBytes(first);
    DeliveredClientBytes(second);
    if !(Received(first) && Continues(first)) {
      ClientBytesConcat([ToHost(r)], Read(first) + Delivered(first));
      Assoc([ToHost(r)], Read(first), Delivered(first));
    } else {
      var body := BodyEvents(r, chunks, failsAt);
      var rest := if BodyRelayed(r, chunks, failsAt) then Read(second) + Delivered(second) else [];
      NoClientBytes([ToHost(r)] + Read(first));
      NoClientBytes(body);
      ClientBytesConcat([ToHost(r)] + Read(first), body + rest);
      ClientBytesConcat(body, rest);
    }
  }

  // ---------- the request the host gets ----------

  /** The requests written to the host. */
  function HostRequests(trace: seq<Event>): seq<RequestData> {
    FlatMap(RequestOf, trace)
  }

  function RequestOf(e: Event): seq<RequestData> {
    if e.ToHost? then [e.request] else []
  }

  lemma HostRequestsConcat(a: seq<Event>, b: seq<Event>)
    ensures HostRequests(a + b) == HostRequests(a) + HostRequests(b)
  {
    FlatMapConcat(RequestOf, a, b);
  }

  lemma NoHostRequests(a: seq<Event>)
    requires forall i | 0 <= i < |a| :: !a[i].ToHost?
    ensures HostRequests(a) == []
  {
    FlatMapNone(RequestOf, a);
  }

  lemma OneRequestAmid(a: seq<Event>, r: RequestData, b: seq<Event>)
    requires (forall i | 0 <= i < |a| :: !a[i].ToHost?) && (forall i | 0 <= i < |b| :: !b[i].ToHost?)
    ensures HostRequests(a + ([ToHost(r)] + b)) == [r]
  {
    NoHostRequests(a);
    NoHostRequests(b);
    FlatMapOne(RequestOf, ToHost(r));
    HostRequestsConcat([ToHost(r)], b);
    HostRequestsConcat(a, [ToHost(r)] + b);
  }

  /** Signed path: the host gets one request, the client's own with its body as read, and with the signature of
      just that request in the authorization header when there is one. */
  lemma SignedRequestSent(lib: UrlLibrary, sign: Signer, r: RequestData, chunks: Chunks, replies: seq<Option<Response>>)
    returns (sent: RequestData)
    ensures HostRequests(SignedTrace(lib, sign, r, chunks, replies)) == [sent]
    ensures sent.verb == r.verb && sent.url == r.url && sent.version == r.version
    ensures sent.body == (if ExpectsContinue(r.headers) && ContentLength(r.headers).Some?
                          then Body(chunks, ContentLength(r.headers).value) else r.body)
    ensures match sign(SigInput(lib, sent))
            case None => sent.headers == r.headers
            case Some(v) => sent.headers == Add(r.headers, "x-ms-azure-host-authorization", v)
  {
    sent := SentToHost(lib, sign, r, chunks);
    SentShape(lib, sign, WithBody(r, chunks));
    ExchangeRequests(Prologue(r), sent, Nth(replies, 0), Nth(replies, 1));
  }

  lemma SentShape(lib: UrlLibrary, sign: Signer, r: RequestData)
    ensures var sent := Attached(lib, sign, r);
            && sent.verb == r.verb && sent.url == r.url && sent.version == r.version && sent.body == r.body
            && match sign(SigInput(lib, sent))
               case None => sent.headers == r.headers
               case Some(v) => sent.headers == Add(r.headers, "x-ms-azure-host-authorization", v)
  {
    SignatureMatchesSent(lib, sign, r);
  }

  lemma ExchangeRequests(a: seq<Event>, sent: RequestData, first: Option<Response>, second: Option<Response>)
    requires forall i | 0 <= i < |a| :: !a[i].ToHost?
    ensures HostRequests(a + Exchange(sent, first, second)) == [sent]
  {
    var rest := if Continues(first) then [DataToHost(sent.body)] + Forwarded(second) else [];
    OneRequestAmid(a, sent, Forwarded(first) + rest);
    Assoc([ToHost(sent)], Forwarded(first), rest);
  }

  /** Unsigned path: the host gets the client's request as it is, once. */
  lemma UnsignedRequestSent(r: RequestData, chunks: Chunks, replies: seq<Option<Response>>, failsAt: Option<nat>)
    ensures HostRequests(UnsignedTrace(r, chunks, replies, failsAt)) == [r]
  {
    var first, second := Nth(replies, 0), Nth(replies, 1);
    if !(Received(first) && Continues(first)) {
      RequestThen(r, Read(first), Delivered(first), []);
    } else {
      var last := if BodyRelayed(r, chunks, failsAt) then Read(second) + Delivered(second) else [];
      RequestThen(r, Read(first), BodyEvents(r, chunks, failsAt), last);
    }
  }

  predicate NoRequests(a: seq<Event>) {
    forall i | 0 <= i < |a| :: !a[i].ToHost?
  }

  lemma RequestThen(r: RequestData, a: seq<Event>, b: seq<Event>, c: seq<Event>)
    requires NoRequests(a) && NoRequests(b) && NoRequests(c)
    ensures HostRequests([ToHost(r)] + a + (b + c)) == [r]
    ensures c == [] ==> HostRequests([ToHost(r)] + a + b) == [r]
  {
    NoHostRequests(a);
    NoHostRequests(b);
    NoHostRequests(c);
    FlatMapOne(RequestOf, ToHost(r));
    HostRequestsConcat([ToHost(r)], a);
    HostRequestsConcat(b, c);
    HostRequestsConcat([ToHost(r)] + a, b + c);
    HostRequestsConcat([ToHost(r)] + a, b);
  }

  // ---------- a response's head comes before its body ----------

  /** Every piece of a body to the client comes after a final response head. */
  predicate HeadsBeforeBodies(trace: seq<Event>) {
    forall i | 0 <= i < |trace| && trace[i].DataToClient? ::
      exists j | 0 <= j < i :: trace[j].ToClient? && trace[j].status != Continue
  }

  predicate NoBodies(trace: seq<Event>) {
    forall i | 0 <= i < |trace| :: !trace[i].DataToClient?
  }

  lemma BodiesAfter(a: seq<Event>, head: Event, b: seq<Event>)
    requires NoBodies(a) && head.ToClient? && head.status != Continue
    ensures HeadsBeforeBodies(a + ([head] + b))
  {
    var t := a + ([head] + b);
    assert t[|a|] == head;
    assert forall i | 0 <= i < |a| :: t[i] == a[i];
  }

  lemma NoBodiesConcat(a: seq<Event>, b: seq<Event>)
    requires NoBodies(a) && NoBodies(b)
    ensures NoBodies(a + b)
  {
  }

  /** One exchange in front of which nothing of a body was sent. */
  lemma ForwardedAfter(a: seq<Event>, r: Option<Response>)
    requires NoBodies(a)
    ensures HeadsBeforeBodies(a + Forwarded(r)) && (Continues(r) ==> NoBodies(Forwarded(r)))
  {
    if r.Some? && !Continues(r) {
      var data := if r.value.length.None? then [] else ToClientData(Gathered(r.value.chunks, r.value.length.value));
      NoBodiesConcat(a, Read(r));
      BodiesAfter(a + Read(r), ToClient(r.value.status), data);
      Assoc(a, Read(r), [ToClient(r.value.status)] + data);
    }
  }

  /** Signed path: no piece of a body reaches the client before a final head. */
  lemma SignedHeadsFirst(lib: UrlLibrary, sign: Signer, r: RequestData, chunks: Chunks, replies: seq<Option<Response>>)
    ensures HeadsBeforeBodies(SignedTrace(lib, sign, r, chunks, replies))
  {
    PrologueHasNoBodies(r);
    var a, sent, first, second := Prologue(r), SentToHost(lib, sign, r, chunks), Nth(replies, 0), Nth(replies, 1);
    ExchangeHeadsFirst(a, sent, first, second);
    assert SignedTrace(lib, sign, r, chunks, replies) == a + Exchange(sent, first, second);
  }

  lemma PrologueHasNoBodies(r: RequestData)
    ensures NoBodies(Prologue(r))
  {
  }

  lemma ExchangeHeadsFirst(a: seq<Event>, sent: RequestData, first: Option<Response>, second: Option<Response>)
    requires NoBodies(a)
    ensures HeadsBeforeBodies(a + Exchange(sent, first, second))
  {
    var host, data := [ToHost(sent)], [DataToHost(sent.body)];
    NoBodiesConcat(a, host);
    ForwardedAfter(a + host, first);
    if Continues(first) {
      NoBodiesConcat(a + host, Forwarded(first));
      NoBodiesConcat(a + host + Forwarded(first), data);
      ForwardedAfter(a + host + Forwarded(first) + data, second);
      Assoc3(a, host, Forwarded(first), data, Forwarded(second));
    } else {
      Assoc(a, host, Forwarded(first));
      assert host + Forwarded(first) + [] == host + Forwarded(first);
    }
  }

  /** Unsigned path: the same, exactly unless the host follows its 100 with another, whose body goes on too. */
  lemma UnsignedHeadsFirst(r: RequestData, chunks: Chunks, replies: seq<Option<Response>>, failsAt: Option<nat>)
    ensures HeadsBeforeBodies(UnsignedTrace(r, chunks, replies, failsAt))
       <==> !SecondContinue(r, chunks, replies, failsAt)
  {
    var first, second := Nth(replies, 0), Nth(replies, 1);
    var start := [ToHost(r)] + Read(first);
    if !(Received(first) && Continues(first)) {
      DeliveredAfter(start, first);
    } else {
      var body := BodyEvents(r, chunks, failsAt);
      NoBodiesConcat(start, body);
      if BodyRelayed(r, chunks, failsAt) {
        NoBodiesConcat(start + body, Read(second));
        Regroup(start, body, Read(second), Delivered(second));
        if Received(second) && Continues(second) {
          OnlyContinues(start, body, Read(second), second);
        } else {
          DeliveredAfter(start + body + Read(second), second);
        }
      } else {
        assert start + body == start + (body + []);
      }
    }
  }

  lemma Regroup(a: seq<Event>, b: seq<Event>, c: seq<Event>, d: seq<Event>)
    ensures a + b + c + d == a + (b + (c + d))
  {
  }

  predicate ContinuesOnly(trace: seq<Event>) {
    forall i | 0 <= i < |trace| && trace[i].ToClient? :: trace[i].status == Continue
  }

  lemma OnlyContinues(start: seq<Event>, body: seq<Event>, read: seq<Event>, second: Option<Response>)
    requires ContinuesOnly(start) && ContinuesOnly(body) && ContinuesOnly(read)
    requires Received(second) && Continues(second)
    ensures !HeadsBeforeBodies(start + body + read + Delivered(second))
  {
    var trace := start + body + read + Delivered(second);
    assert ContinuesOnly(start + body);
    assert ContinuesOnly(start + body + read);
    assert ContinuesOnly(trace);
    assert trace[|trace| - 1].DataToClient?;
  }

  lemma DeliveredAfter(a: seq<Event>, r: Option<Response>)
    requires NoBodies(a) && !(Received(r) && Continues(r))
    ensures HeadsBeforeBodies(a + Delivered(r))
  {
    if Received(r) {
      var data := DataToClient(Body(r.value.chunks, r.value.length.value));
      BodiesAfter(a, ToClient(r.value.status), [data]);
      assert [ToClient(r.value.status)] + [data] == Delivered(r);
    } else {
      assert NoBodies(a + Delivered(r));
    }
  }

  /** Unsigned path, which answer: 502 when nothing can be read of the host or the body cannot be written to it, 400
      for a length that does not parse or a body that falls short, and else what the host answers. */
  lemma UnsignedAnswers(r: RequestData, chunks: Chunks, replies: seq<Option<Response>>, failsAt: Option<nat>)
    ensures var heads := Heads(UnsignedTrace(r, chunks, replies, failsAt));
            var first, second, length := Nth(replies, 0), Nth(replies, 1), ContentLength(r.headers);
            && (first.None? || first.value.length.None? ==> heads == [BadGateway])
            && (first.Some? && first.value.length.Some? && first.value.status != Continue ==>
                  heads == [first.value.status])
            && (first.Some? && first.value.length.Some? && first.value.status == Continue ==>
                  && (length.None? ==> heads == [BadRequest])
                  && (length.Some? && failsAt.None? && |Flatten(chunks)| < length.value ==>
                        heads == [Continue, BadRequest])
                  && (length.Some? && failsAt.None? && |Flatten(chunks)| >= length.value ==>
                        heads == [Continue, if second.Some? && second.value.length.Some? then second.value.status
                                            else BadGateway])
                  && (length.Some? && failsAt.Some? && failsAt.value < |Gathered(chunks, length.value)| ==>
                        heads == [Continue, BadGateway]))
  {
    UnsignedHeads(r, chunks, replies, failsAt);
    if ContentLength(r.headers).Some? { GatheredShape(chunks, ContentLength(r.headers).value); }
  }
}
