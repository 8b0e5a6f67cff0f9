/** The gateway read path: a windowed fetch from an untrusted server, then the gate. */
module Rpc {
  import opened Wrappers
  import opened Text
  import opened Types
  import opened Net
  import opened Worlds

  const RPC_WINDOW_BYTES: u64 := 3 * 1024 * 1024
  const MAX_RESOURCE_BYTES: u64 := 64 * 1024 * 1024
  const MAX_WINDOWS: nat := MAX_RESOURCE_BYTES / RPC_WINDOW_BYTES + 16

  /** The loop variables of one fetch; `windows` counts the posts already answered. */
  datatype Paging = Paging(buf: Bytes, total: Option<u64>, proof: string, chunkLens: seq<u32>, offset: u64,
                           windows: nat)

  const START := Paging([], None, "", [], 0, 0)

  /** A post that asks for `u` and nothing else: its store, its own pinned root, the content key of its
      chain label, store and resource key, and at most 3 MiB from some offset on. */
  predicate IsPost(w: World, u: Urn, url: string, request: Request) {
    && request.Content? && request.url == url
    && request.params.store == u.store
    && Some(request.params.root) == u.root
    && request.params.contentKey == w.contentKey(u.chain, u.store, u.key)
    && request.params.length == 3 * 1024 * 1024
  }

  datatype Turn = More(page: Paging) | Complete(page: Paging) | Abort(error: Error)

  function ContentRequest(w: World, u: Urn, url: string, offset: u64): Request
    requires u.root.Some?
  {
    Content(url, ContentParams(u.store, u.root.value, w.contentKey(u.chain, u.store, u.key), offset, RPC_WINDOW_BYTES))
  }

  /** An unreachable or non-2xx endpoint is a transport failure; a reachable one that answers
      anything but a well-shaped result is a protocol error. */
  function ReadEnvelope(w: World, reply: Reply): Result<GetContent, Error> {
    match reply
    case Unreached => Failure(Error.Transport)
    case Reached(resp) =>
      if !IsSuccess(resp) then Failure(Error.Transport)
      else
        match w.envelope(resp.body)
        case NotJson => Failure(Error.Rpc)
        case Envelope(hasError, result) =>
          if hasError || !result.Matches? then Failure(Error.Rpc) else Success(result.content)
  }

  /** Accept the declared total once, bounded; later declarations are ignored. */
  function AcceptTotal(total: Option<u64>, declared: u64): Result<u64, Error> {
    match total
    case Some(t) => Success(t)
    case None =>
      if declared == 0 then Failure(NotFound)
      else if declared > MAX_RESOURCE_BYTES then Failure(Error.Rpc)
      else Success(declared)
  }

  /** Append one window's payload, never past the accepted total. */
  function AcceptPayload(w: World, buf: Bytes, total: u64, ciphertext: Option<string>): Result<Bytes, Error> {
    match ciphertext
    case None => Success(buf)
    case Some(text) =>
      match w.base64(Trim(text))
      case None => Failure(Error.Rpc)
      case Some(chunk) => if |buf| + |chunk| > total then Failure(Error.Rpc) else Success(buf + chunk)
  }

  /** One window: first non-empty chunk lengths win, last non-empty proof wins, and the offset
      must advance unless the gateway says it is done. */
  function Absorb(w: World, page: Paging, r: GetContent): Turn {
    match AcceptTotal(page.total, r.totalLength)
    case Failure(e) => Abort(e)
    case Success(total) =>
      match AcceptPayload(w, page.buf, total, r.ciphertext)
      case Failure(e) => Abort(e)
      case Success(buf) =>
        var chunkLens := if page.chunkLens == [] && r.chunkLens.Some? then r.chunkLens.value else page.chunkLens;
        var proof := if r.inclusionProof.Some? && r.inclusionProof.value != [] then r.inclusionProof.value
            else page.proof;
        var page' := Paging(buf, Some(total), proof, chunkLens, page.offset, page.windows + 1);
        if r.complete == Some(true) || r.nextOffset.None? then Complete(page')
        else if r.nextOffset.value <= page.offset then Abort(Error.Rpc)
        else More(page'.(offset := r.nextOffset.value))
  }

  function OnReply(w: World, page: Paging, reply: Reply): Turn {
    match ReadEnvelope(w, reply)
    case Failure(e) => Abort(e)
    case Success(r) => Absorb(w, page, r)
  }

  datatype Drained = Drained(result: Result<Paging, Error>, log: seq<Exchange>)

  /** The loop from its head: post, absorb, repeat, at most `MAX_WINDOWS` times in all. */
  function Drain(w: World, a: Adversary, log: seq<Exchange>, u: Urn, url: string, page: Paging): Drained
    requires u.root.Some?
    decreases MAX_WINDOWS - page.windows
  {
    if page.windows >= MAX_WINDOWS then Drained(Failure(Error.Rpc), log)
    else
      var request := ContentRequest(w, u, url, page.offset);
      var reply := a(log, request);
      var log' := log + [Exchange(request, reply)];
      match OnReply(w, page, reply)
      case Abort(e) => Drained(Failure(e), log')
      case Complete(page') => Drained(Success(page'), log')
      case More(page') => Drain(w, a, log', u, url, page')
  }

  /** The gateway says the window is the last, by its flag or by naming no next offset. */
  predicate IsLast(r: GetContent) {
    r.complete == Some(true) || r.nextOffset.None?
  }

  /** A reply of status 200 to 299. */
  predicate Answered(reply: Reply) {
    reply.Reached? && 200 <= reply.response.status <= 299
  }

  /** Nothing is declared before any total was accepted. */
  predicate NothingThere(w: World, page: Paging, reply: Reply)
    requires Answered(reply)
  {
    page.total.None? && ResultOf(w, reply).Some? && ResultOf(w, reply).value.totalLength == 0
  }

  /** A protocol error: no JSON, an error or a result of another shape; a first total above 64 MiB; a
      payload that does not decode or passes the total; an offset that does not advance. */
  predicate Malformed(w: World, page: Paging, reply: Reply)
    requires Answered(reply)
  {
    match ResultOf(w, reply)
    case None => true
    case Some(r) =>
      var total := if page.total.Some? then page.total.value else r.totalLength;
      || (page.total.None? && r.totalLength > 67_108_864)
      || (r.ciphertext.Some? && w.base64(Trim(r.ciphertext.value)).None?)
      || (r.ciphertext.Some? && |page.buf| + |w.base64(Trim(r.ciphertext.value)).value| > total)
      || (r.complete != Some(true) && r.nextOffset.Some? && r.nextOffset.value <= page.offset)
  }

  /** What a reply does to the loop, exactly. Unreachable or any status but 2xx: the tier is unreachable.
      A first total of nothing: the content is absent. Malformed: a protocol error. Otherwise the fetch
      ends when the gateway says so by its flag or by naming no next offset, and else goes on from the
      offset it names. */
  lemma TurnExactly(w: World, page: Paging, reply: Reply)
    ensures var turn := OnReply(w, page, reply);
            && (turn == Abort(Error.Transport) <==> !Answered(reply))
            && (turn == Abort(NotFound) <==> Answered(reply) && NothingThere(w, page, reply))
            && (turn == Abort(Error.Rpc) <==>
                  Answered(reply) && !NothingThere(w, page, reply) && Malformed(w, page, reply))
            && (turn.Abort? ==> turn.error in {Error.Transport, NotFound, Error.Rpc})
            && (turn.Complete? ==> IsLast(ResultOf(w, reply).value))
            && (turn.More? ==>
                  && !IsLast(ResultOf(w, reply).value)
                  && Some(turn.page.offset) == ResultOf(w, reply).value.nextOffset)
  {}

  /** The result in a reply's body, if it is an envelope with no error and a result of the right shape. */
  function ResultOf(w: World, reply: Reply): Option<GetContent>
    requires reply.Reached?
  {
    var e := w.envelope(reply.response.body);
    if e.Envelope? && !e.hasError && e.result.Matches? then Some(e.result.content) else None
  }

  /** The loop unrolled once. */
  lemma DrainStep(w: World, a: Adversary, log: seq<Exchange>, u: Urn, url: string, page: Paging)
    requires u.root.Some?
    ensures var e := Exchange(ContentRequest(w, u, url, page.offset), a(log, ContentRequest(w, u, url, page.offset)));
            var turn := OnReply(w, page, e.reply);
            Drain(w, a, log, u, url, page) ==
              if page.windows >= MAX_WINDOWS then Drained(Failure(Error.Rpc), log)
              else if turn.Abort? then Drained(Failure(turn.error), log + [e])
              else if turn.Complete? then Drained(Success(turn.page), log + [e])
              else Drain(w, a, log + [e], u, url, turn.page)
  {}

  function Finish(w: World, u: Urn, page: Paging): Result<Fetched, Error>
    requires u.root.Some?
  {
    OpenArtifacts(w, u, Artifacts(page.buf, page.proof, page.chunkLens), u.root.value)
  }

  datatype Answer = Answer(result: Result<Fetched, Error>, log: seq<Exchange>)

  /** The trust root is the URN's own pinned root; a rootless URN is refused before any request. */
  function FetchSpec(w: World, a: Adversary, log: seq<Exchange>, u: Urn, base: string): Answer {
    if u.root.None? then Answer(Failure(RootRequired), log)
    else
      var d := Drain(w, a, log, u, TrimSlashes(base), START);
      match d.result
      case Failure(e) => Answer(Failure(e), d.log)
      case Success(page) => Answer(Finish(w, u, page), d.log)
  }

  // ------------------------------------------------------------------ the loop itself

  method RpcCall(w: World, transport: Transport, request: Request) returns (r: Result<GetContent, Error>)
    modifies transport
    ensures r == ReadEnvelope(w, transport.answer(old(transport.log), request))
    ensures transport.log == old(transport.log) + [Exchange(request, transport.answer(old(transport.log), request))]
  {
    var reply := transport.Send(request);
    if reply.Unreached? || !IsSuccess(reply.response) {
      return Failure(Error.Transport);
    }
    match w.envelope(reply.response.body) {
      case NotJson => return Failure(Error.Rpc);
      case Envelope(hasError, result) =>
        if hasError {
          return Failure(Error.Rpc);
        }
        if !result.Matches? {
          return Failure(Error.Rpc);
        }
        return Success(result.content);
    }
  }

  /** How a reply is taken apart: its envelope, then its total, then its payload, and then the rest. */
  lemma TurnStages(w: World, page: Paging, reply: Reply)
    ensures var read := ReadEnvelope(w, reply);
            read.Failure? ==> OnReply(w, page, reply) == Abort(read.error)
    ensures ReadEnvelope(w, reply).Success? ==>
              var r := ReadEnvelope(w, reply).value;
              var total := AcceptTotal(page.total, r.totalLength);
              && (total.Failure? ==> OnReply(w, page, reply) == Abort(total.error))
              && (total.Success? ==>
                    var buf := AcceptPayload(w, page.buf, total.value, r.ciphertext);
                    && (buf.Failure? ==> OnReply(w, page, reply) == Abort(buf.error))
                    && (buf.Success? ==> OnReply(w, page, reply) == Absorb(w, page, r)))
  {}

  /** The fetch is what the loop from its start comes to. */
  lemma FetchIsDrain(w: World, a: Adversary, log: seq<Exchange>, u: Urn, base: string)
    requires u.root.Some?
    ensures var d := Drain(w, a, log, u, TrimSlashes(base), START);
            var result := if d.result.Success? then Finish(w, u, d.result.value) else Failure(d.result.error);
            FetchSpec(w, a, log, u, base) == Answer(result, d.log)
  {}

  lemma AbsorbEnds(w: World, page: Paging, r: GetContent, buf: Bytes, total: u64)
    requires AcceptTotal(page.total, r.totalLength) == Success(total)
    requires AcceptPayload(w, page.buf, total, r.ciphertext) == Success(buf)
    ensures var chunkLens := if page.chunkLens == [] && r.chunkLens.Some? then r.chunkLens.value else page.chunkLens;
            var sent := r.inclusionProof.Some? && r.inclusionProof.value != [];
            var proof := if sent then r.inclusionProof.value else page.proof;
            Absorb(w, page, r) ==
              if r.complete == Some(true) || r.nextOffset.None?
              then Complete(Paging(buf, Some(total), proof, chunkLens, page.offset, page.windows + 1))
              else if r.nextOffset.value <= page.offset then Abort(Error.Rpc)
              else More(Paging(buf, Some(total), proof, chunkLens, r.nextOffset.value, page.windows + 1))
  {}

  method Fetch(w: World, transport: Transport, base: string, u: Urn) returns (r: Result<Fetched, Error>)
    modifies transport
    ensures Answer(r, transport.log) == FetchSpec(w, transport.answer, old(transport.log), u, base)
  {
    var url := TrimSlashes(base);
    if u.root.None? {
      return Failure(RootRequired);
    }
    FetchIsDrain(w, transport.answer, transport.log, u, base);
    hide FetchSpec, Drain, OnReply, Absorb, ReadEnvelope, ContentRequest, VerifyAndDecrypt, Payload;
    ghost var spec := Drain(w, transport.answer, transport.log, u, url, START);
    var buf: Bytes, total: Option<u64>, proof, chunkLens, offset: u64, windows := [], None, "", [], 0, 0;
    while true
      invariant windows <= MAX_WINDOWS
      invariant spec == Drain(w, transport.answer, transport.log, u, url,
          Paging(buf, total, proof, chunkLens, offset, windows))
      invariant BoundedPage(Paging(buf, total, proof, chunkLens, offset, windows))
      decreases MAX_WINDOWS - windows
    {
      ghost var page := Paging(buf, total, proof, chunkLens, offset, windows);
      windows := windows + 1;
      DrainStep(w, transport.answer, transport.log, u, url, page);
      if windows > MAX_WINDOWS {
        return Failure(Error.Rpc);
      }
      ghost var reply := transport.answer(transport.log, ContentRequest(w, u, url, offset));
      TurnStages(w, page, reply);
      AbsorbKeeps(w, page, reply);
      var call := RpcCall(w, transport, ContentRequest(w, u, url, offset));
      if call.Failure? {
        return Failure(call.error);
      }
      var r0 := call.value;
      if total.None? {
        if r0.totalLength == 0 {
          return Failure(NotFound);
        }
        if r0.totalLength > MAX_RESOURCE_BYTES {
          return Failure(Error.Rpc);
        }
        total := Some(r0.totalLength);
      }
      assert AcceptTotal(page.total, r0.totalLength) == Success(total.value);
      if chunkLens == [] && r0.chunkLens.Some? {
        chunkLens := r0.chunkLens.value;
      }
      if r0.ciphertext.Some? {
        var chunk := w.base64(Trim(r0.ciphertext.value));
        if chunk.None? {
          return Failure(Error.Rpc);
        }
        if |buf| + |chunk.value| > total.value {
          return Failure(Error.Rpc);
        }
        buf := buf + chunk.value;
      }
      assert AcceptPayload(w, page.buf, total.value, r0.ciphertext) == Success(buf);
      if r0.inclusionProof.Some? && r0.inclusionProof.value != [] {
        proof := r0.inclusionProof.value;
      }
      AbsorbEnds(w, page, r0, buf, total.value);
      assert OnReply(w, page, reply) ==
        if r0.complete == Some(true) || r0.nextOffset.None?
        then Complete(Paging(buf, total, proof, chunkLens, offset, windows))
        else if r0.nextOffset.value <= offset then Abort(Error.Rpc)
        else More(Paging(buf, total, proof, chunkLens, r0.nextOffset.value, windows));
      if r0.complete == Some(true) || r0.nextOffset.None? {
        break;
      }
      if r0.nextOffset.value <= offset {
        return Failure(Error.Rpc);
      }
      offset := r0.nextOffset.value;
    }
    r := OpenArtifacts(w, u, Artifacts(buf, proof, chunkLens), u.root.value);
  }

  // ------------------------------------------------------------------ bounds under any gateway

  /** Nothing is buffered before a total is accepted, and never more than that total, which is
      at most 64 MiB and so fits a 32-bit `usize`. */
  predicate BoundedPage(page: Paging) {
    match page.total
    case None => page.buf == []
    case Some(t) => 0 < t <= MAX_RESOURCE_BYTES && |page.buf| <= t && t < 0x1_0000_0000
  }

  /** The bytes one reply contributes to the buffer. */
  function Payload(w: World, reply: Reply): Bytes {
    match ReadEnvelope(w, reply)
    case Failure(_) => []
    case Success(r) =>
      match r.ciphertext
      case None => []
      case Some(text) => match w.base64(Trim(text)) case None => [] case Some(chunk) => chunk
  }

  function Payloads(w: World, posts: seq<Exchange>): Bytes {
    if posts == [] then [] else Payload(w, posts[0].reply) + Payloads(w, posts[1..])
  }

  /** The chunk lengths and the proof one reply carries, empty when it carries none. */
  function SentLens(w: World, reply: Reply): seq<u32> {
    match ReadEnvelope(w, reply)
    case Failure(_) => []
    case Success(r) => match r.chunkLens case None => [] case Some(lens) => lens
  }

  function SentProof(w: World, reply: Reply): string {
    match ReadEnvelope(w, reply)
    case Failure(_) => ""
    case Success(r) => match r.inclusionProof case None => "" case Some(proof) => proof
  }

  /** The total one reply declares. */
  function Declared(w: World, reply: Reply): Option<u64> {
    match ReadEnvelope(w, reply)
    case Failure(_) => None
    case Success(r) => Some(r.totalLength)
  }

  function FirstLens(w: World, posts: seq<Exchange>): seq<u32> {
    if posts == [] then []
    else if SentLens(w, posts[0].reply) != [] then SentLens(w, posts[0].reply)
    else FirstLens(w, posts[1..])
  }

  function LastProof(w: World, posts: seq<Exchange>): string {
    if posts == [] then ""
    else if LastProof(w, posts[1..]) != "" then LastProof(w, posts[1..])
    else SentProof(w, posts[0].reply)
  }

  /** The three accumulators, seen from the newest post. */
  lemma {:induction false} PostsSnoc(w: World, posts: seq<Exchange>, e: Exchange)
    ensures Payloads(w, posts + [e]) == Payloads(w, posts) + Payload(w, e.reply)
    ensures FirstLens(w, posts + [e]) == if FirstLens(w, posts) != [] then FirstLens(w, posts) else SentLens(w, e.reply)
    ensures LastProof(w, posts + [e]) ==
              if SentProof(w, e.reply) != "" then SentProof(w, e.reply) else LastProof(w, posts)
  {
    hide Payload, SentLens, SentProof;
    if posts == [] {
      assert posts + [e] == [e];
    } else {
      assert (posts + [e])[1..] == posts[1..] + [e];
      PostsSnoc(w, posts[1..], e);
    }
  }

  lemma AbsorbKeeps(w: World, page: Paging, reply: Reply)
    requires BoundedPage(page)
    ensures var turn := OnReply(w, page, reply);
            turn.More? || turn.Complete? ==>
              && BoundedPage(turn.page) && turn.page.total.Some?
              && (page.total.Some? ==> turn.page.total == page.total)
              && turn.page.buf == page.buf + Payload(w, reply)
              && turn.page.windows == page.windows + 1
              && (turn.More? ==> turn.page.offset > page.offset)
  {}

  /** Posts for `u` to one URL, at offsets that start at `from` or later and strictly increase. */
  predicate Ascending(w: World, u: Urn, url: string, from: nat, posts: seq<Exchange>)
    requires u.root.Some?
    decreases |posts|
  {
    posts != [] ==>
      && posts[0].request.Content?
      && from <= posts[0].request.params.offset
      && posts[0].request == ContentRequest(w, u, url, posts[0].request.params.offset)
      && Ascending(w, u, url, posts[0].request.params.offset + 1, posts[1..])
  }

  lemma {:induction false} AscendingAt(w: World, u: Urn, url: string, from: nat, posts: seq<Exchange>, i: nat)
    requires u.root.Some? && Ascending(w, u, url, from, posts) && i < |posts|
    ensures posts[i].request.Content? && from <= posts[i].request.params.offset
    ensures posts[i].request == ContentRequest(w, u, url, posts[i].request.params.offset)
    decreases |posts|
  {
    if i == 0 {
    } else {
      AscendingAt(w, u, url, posts[0].request.params.offset + 1, posts[1..], i - 1);
    }
  }

  lemma {:induction false} AscendingPair(w: World, u: Urn, url: string, from: nat, posts: seq<Exchange>, i: nat, j: nat)
    requires u.root.Some? && Ascending(w, u, url, from, posts) && i < j < |posts|
    ensures posts[i].request.Content? && posts[j].request.Content?
    ensures posts[i].request.params.offset < posts[j].request.params.offset
    decreases |posts|
  {
    if i > 0 {
      AscendingPair(w, u, url, posts[0].request.params.offset + 1, posts[1..], i - 1, j - 1);
    } else {
      AscendingAt(w, u, url, posts[0].request.params.offset + 1, posts[1..], j - 1);
    }
  }

  lemma AscendingCons(w: World, u: Urn, url: string, from: u64, e: Exchange, rest: seq<Exchange>)
    requires u.root.Some? && e.request == ContentRequest(w, u, url, from) && Ascending(w, u, url, from + 1, rest)
    ensures Ascending(w, u, url, from, [e] + rest)
  {}

  lemma PayloadsCons(w: World, buf: Bytes, e: Exchange, rest: seq<Exchange>)
    ensures buf + Payloads(w, [e] + rest) == buf + Payload(w, e.reply) + Payloads(w, rest)
  {}

  lemma AscendingWeaken(w: World, u: Urn, url: string, from: nat, from': nat, posts: seq<Exchange>)
    requires u.root.Some? && from' <= from && Ascending(w, u, url, from, posts)
    ensures Ascending(w, u, url, from', posts)
  {}

  /** One turn of the loop, seen from outside. */
  lemma PostStep(w: World, a: Adversary, log: seq<Exchange>, u: Urn, url: string, page: Paging)
    returns (e: Exchange, turn: Turn)
    requires u.root.Some? && BoundedPage(page) && page.windows < MAX_WINDOWS
    ensures e.request == ContentRequest(w, u, url, page.offset)
    ensures var d := Drain(w, a, log, u, url, page);
            && (turn.Abort? ==> d == Drained(Failure(turn.error), log + [e]))
            && (turn.Complete? ==> d == Drained(Success(turn.page), log + [e]))
            && (turn.More? ==> d == Drain(w, a, log + [e], u, url, turn.page) && turn.page.offset > page.offset)
    ensures !turn.Abort? ==> BoundedPage(turn.page) && turn.page.total.Some? && turn.page.windows == page.windows + 1
    ensures !turn.Abort? ==> turn.page.buf == page.buf + Payload(w, e.reply)
  {
    var request := ContentRequest(w, u, url, page.offset);
    e := Exchange(request, a(log, request));
    turn := OnReply(w, page, e.reply);
    AbsorbKeeps(w, page, e.reply);
  }

  /** What one accepted window does to the chunk lengths and the proof. */
  lemma TurnAccumulates(w: World, page: Paging, reply: Reply)
    ensures var turn := OnReply(w, page, reply);
            !turn.Abort? ==>
              && turn.page.chunkLens == (if page.chunkLens != [] then page.chunkLens else SentLens(w, reply))
              && turn.page.proof == (if SentProof(w, reply) != "" then SentProof(w, reply) else page.proof)
              && turn.page.total.Some?
              && turn.page.total == (if page.total.Some? then page.total else Declared(w, reply))
  {}

  /** First wins for the chunk lengths, last wins for the proof, over a whole fetch. */
  lemma {:induction false} DrainAccumulates(w: World, a: Adversary, log: seq<Exchange>, u: Urn, url: string,
                                            page: Paging, posts: seq<Exchange>)
    requires u.root.Some? && Drain(w, a, log, u, url, page).log == log + posts
    requires Drain(w, a, log, u, url, page).result.Success?
    ensures var end := Drain(w, a, log, u, url, page).result.value;
            && end.chunkLens == (if page.chunkLens != [] then page.chunkLens else FirstLens(w, posts))
            && end.proof == (if LastProof(w, posts) != "" then LastProof(w, posts) else page.proof)
            && posts != [] && end.total == (if page.total.Some? then page.total else Declared(w, posts[0].reply))
    decreases MAX_WINDOWS - page.windows
  {
    hide OnReply, Drain, SentLens, SentProof, Declared;
    var request := ContentRequest(w, u, url, page.offset);
    var e := Exchange(request, a(log, request));
    DrainStep(w, a, log, u, url, page);
    TurnAccumulates(w, page, e.reply);
    var turn := OnReply(w, page, e.reply);
    TurnCounts(w, page, e.reply);
    if turn.More? {
      var d := Drain(w, a, log + [e], u, url, turn.page);
      DrainExtends(w, a, log + [e], u, url, turn.page);
      assert (log + posts)[|log|] == e;
      var rest := posts[1..];
      assert posts == [e] + rest && log + posts == log + [e] + rest;
      DrainAccumulates(w, a, log + [e], u, url, turn.page, rest);
    } else {
      assert (log + posts)[|log|..] == posts && (log + [e])[|log|..] == [e];
      assert posts == [e] && posts[1..] == [];
    }
  }

  lemma TurnCounts(w: World, page: Paging, reply: Reply)
    ensures OnReply(w, page, reply).More? ==> OnReply(w, page, reply).page.windows == page.windows + 1
  {}

  lemma {:induction false} DrainExtends(w: World, a: Adversary, log: seq<Exchange>, u: Urn, url: string, page: Paging)
    requires u.root.Some?
    ensures log <= Drain(w, a, log, u, url, page).log
    decreases MAX_WINDOWS - page.windows
  {
    hide OnReply, Drain;
    var request := ContentRequest(w, u, url, page.offset);
    var e := Exchange(request, a(log, request));
    DrainStep(w, a, log, u, url, page);
    TurnCounts(w, page, e.reply);
    var turn := OnReply(w, page, e.reply);
    if page.windows >= MAX_WINDOWS || !turn.More? {
    } else {
      DrainExtends(w, a, log + [e], u, url, turn.page);
    }
  }

  lemma {:induction false} DrainPosts(w: World, a: Adversary, log: seq<Exchange>, u: Urn, url: string, page: Paging)
    returns (posts: seq<Exchange>)
    requires u.root.Some? && BoundedPage(page) && page.windows <= MAX_WINDOWS
    ensures var d := Drain(w, a, log, u, url, page);
            && d.log == log + posts
            && |posts| <= MAX_WINDOWS - page.windows
            && Ascending(w, u, url, page.offset, posts)
            && (d.result.Success? ==>
                  && BoundedPage(d.result.value) && d.result.value.total.Some?
                  && d.result.value.buf == page.buf + Payloads(w, posts))
    decreases MAX_WINDOWS - page.windows
  {
    hide OnReply, Payload, ContentRequest;
    posts := [];
    if page.windows >= MAX_WINDOWS {
      assert log + posts == log;
    } else {
      var e, turn := PostStep(w, a, log, u, url, page);
      var rest := [];
      if turn.More? {
        rest := DrainPosts(w, a, log + [e], u, url, turn.page);
        AscendingWeaken(w, u, url, turn.page.offset, page.offset + 1, rest);
      } else {
        assert page.buf + Payload(w, e.reply) + Payloads(w, []) == page.buf + Payload(w, e.reply);
      }
      posts := [e] + rest;
      assert log + posts == log + [e] + rest;
      AscendingCons(w, u, url, page.offset, e, rest);
      PayloadsCons(w, page.buf, e, rest);
    }
  }

  /** Whatever the gateway does: at most 37 posts, all for this URN's own pinned root, at strictly
      increasing offsets; a finished buffer is exactly the concatenation of the payloads, no longer
      than the accepted total, which is the one first declared and at most 64 MiB; the first chunk
      lengths sent win, and the last proof. */
  lemma AdversarialBounds(w: World, a: Adversary, log: seq<Exchange>, u: Urn, url: string)
    requires u.root.Some?
    ensures var d := Drain(w, a, log, u, url, START);
            && log <= d.log && |d.log| <= |log| + 37
            && (forall i :: |log| <= i < |d.log| ==> IsPost(w, u, url, d.log[i].request))
            && (forall i, j :: |log| <= i < j < |d.log| ==>
                  d.log[i].request.params.offset < d.log[j].request.params.offset)
            && (d.result.Success? ==>
                  && d.result.value.total.Some? && d.result.value.buf == Payloads(w, d.log[|log|..])
                  && |d.result.value.buf| <= d.result.value.total.value <= 64 * 1024 * 1024
                  && |log| < |d.log| && d.result.value.total == Declared(w, d.log[|log|].reply)
                  && d.result.value.chunkLens == FirstLens(w, d.log[|log|..])
                  && d.result.value.proof == LastProof(w, d.log[|log|..]))
  {
    hide Drain, Payloads, FirstLens, LastProof, Ascending;
    var posts := DrainPosts(w, a, log, u, url, START);
    assert (log + posts)[|log|..] == posts;
    assert [] + Payloads(w, posts) == Payloads(w, posts);
    forall i | |log| <= i < |log + posts| ensures IsPost(w, u, url, (log + posts)[i].request) {
      AscendingAt(w, u, url, 0, posts, i - |log|);
    }
    forall i, j | |log| <= i < j < |log + posts|
      ensures (log + posts)[i].request.params.offset < (log + posts)[j].request.params.offset
    {
      AscendingPair(w, u, url, 0, posts, i - |log|, j - |log|);
    }
    if Drain(w, a, log, u, url, START).result.Success? {
      DrainAccumulates(w, a, log, u, url, START, posts);
    }
  }

  /** The bytes a window brings, when it decodes. */
  function Decoded(w: World, r: GetContent): Option<Bytes> {
    match r.ciphertext
    case None => Some([])
    case Some(text) => w.base64(Trim(text))
  }

  /** At any point of a fetch, a last window ends it well exactly when its payload decodes and does
      not pass the total; how far short of the total the buffer stays plays no part. */
  lemma LastWindowExactly(w: World, a: Adversary, log: seq<Exchange>, u: Urn, url: string, page: Paging, r: GetContent)
    requires u.root.Some? && BoundedPage(page) && page.windows < MAX_WINDOWS
    requires ReadEnvelope(w, a(log, ContentRequest(w, u, url, page.offset))) == Success(r) && IsLast(r)
    requires AcceptTotal(page.total, r.totalLength).Success?
    ensures var total := AcceptTotal(page.total, r.totalLength).value;
            var chunk := Decoded(w, r);
            var result := Drain(w, a, log, u, url, page).result;
            if chunk.Some? && |page.buf| + |chunk.value| <= total
            then result.Success? && result.value.buf == page.buf + chunk.value && result.value.total == Some(total)
            else result == Failure(Error.Rpc)
  {
    hide ReadEnvelope, Drain, ContentRequest;
    DrainStep(w, a, log, u, url, page);
    assert r.ciphertext.None? ==> page.buf + [] == page.buf;
  }

  /** What reaches the gate: whenever the windows end well, the fetch is the gate's verdict on the
      joined payloads, the last proof and the first chunk lengths, short buffers included. */
  lemma FinishedBufferReachesGate(w: World, a: Adversary, log: seq<Exchange>, u: Urn, base: string)
    requires u.root.Some? && Drain(w, a, log, u, TrimSlashes(base), START).result.Success?
    ensures log <= FetchSpec(w, a, log, u, base).log
    ensures var fetch := FetchSpec(w, a, log, u, base);
            var posts := fetch.log[|log|..];
            fetch.result == OpenArtifacts(
                w, u, Artifacts(Payloads(w, posts), LastProof(w, posts), FirstLens(w, posts)), u.root.value)
  {
    hide Drain, Payloads, FirstLens, LastProof, VerifyAndDecrypt;
    AdversarialBounds(w, a, log, u, TrimSlashes(base));
  }

  // ------------------------------------------------------------------ an honest gateway

  /** One resource and one way of cutting it: window `i` is `content[cuts[i]..cuts[i + 1]]`. */
  datatype Slicing = Slicing(content: Bytes, proof: string, chunkLens: seq<u32>, cuts: seq<u64>) {
    ghost predicate Valid() {
      && 0 < |content| <= MAX_RESOURCE_BYTES
      && |cuts| >= 2 && cuts[0] == 0 && cuts[|cuts| - 1] == |content|
      && forall i, j :: 0 <= i < j < |cuts| ==> cuts[i] < cuts[j]
    }

    function Windows(): nat
      requires |cuts| >= 2
    {
      |cuts| - 1
    }
  }

  /** An honest reply for window `i`. The proof and the chunk lengths may come with any window. */
  ghost predicate HonestPage(w: World, s: Slicing, i: nat, r: GetContent)
    requires s.Valid() && i < s.Windows()
  {
    && r.totalLength == |s.content|
    && r.ciphertext.Some? && w.base64(Trim(r.ciphertext.value)) == Some(s.content[s.cuts[i]..s.cuts[i + 1]])
    && (r.inclusionProof.Some? ==> r.inclusionProof.value in {"", s.proof})
    && (r.chunkLens.Some? ==> r.chunkLens.value in {[], s.chunkLens})
    && if i + 1 < s.Windows() then r.complete != Some(true) && r.nextOffset == Some(s.cuts[i + 1])
       else r.complete == Some(true) || r.nextOffset == None
  }

  function Window(w: World, f: Request -> Reply, u: Urn, url: string, s: Slicing, i: nat): Result<GetContent, Error>
    requires u.root.Some? && i < |s.cuts|
  {
    ReadEnvelope(w, f(ContentRequest(w, u, url, s.cuts[i])))
  }

  /** The proof came with one of the first `n` windows; likewise the chunk lengths. */
  ghost predicate ProofSent(w: World, f: Request -> Reply, u: Urn, url: string, s: Slicing, n: nat)
    requires u.root.Some? && n <= |s.cuts|
  {
    exists i :: 0 <= i < n && Window(w, f, u, url, s, i).Success?
        && Window(w, f, u, url, s, i).value.inclusionProof == Some(s.proof)
  }

  ghost predicate LensSent(w: World, f: Request -> Reply, u: Urn, url: string, s: Slicing, n: nat)
    requires u.root.Some? && n <= |s.cuts|
  {
    exists i :: 0 <= i < n && Window(w, f, u, url, s, i).Success?
        && Window(w, f, u, url, s, i).value.chunkLens == Some(s.chunkLens)
  }

  ghost predicate Honest(w: World, f: Request -> Reply, u: Urn, url: string, s: Slicing)
    requires u.root.Some?
  {
    && s.Valid()
    && (forall i :: 0 <= i < s.Windows() ==>
          Window(w, f, u, url, s, i).Success? && HonestPage(w, s, i, Window(w, f, u, url, s, i).value))
    && (s.proof != "" ==> ProofSent(w, f, u, url, s, s.Windows()))
    && (s.chunkLens != [] ==> LensSent(w, f, u, url, s, s.Windows()))
  }

  /** The loop variables after the first `i` windows of an honest run. */
  ghost function PageAfter(w: World, f: Request -> Reply, u: Urn, url: string, s: Slicing, i: nat): Paging
    requires u.root.Some? && s.Valid() && i < |s.cuts|
  {
    Paging(
      s.content[..s.cuts[i]],
      if i == 0 then None else Some(|s.content|),
      if ProofSent(w, f, u, url, s, i) then s.proof else "",
      if LensSent(w, f, u, url, s, i) then s.chunkLens else [],
      s.cuts[i],
      i)
  }

  lemma HonestTurn(w: World, f: Request -> Reply, u: Urn, url: string, s: Slicing, i: nat)
    requires u.root.Some? && Honest(w, f, u, url, s) && i < s.Windows()
    ensures var page := PageAfter(w, f, u, url, s, i);
            var page' := PageAfter(w, f, u, url, s, i + 1);
            OnReply(w, page, f(ContentRequest(w, u, url, s.cuts[i]))) ==
              if i + 1 < s.Windows() then More(page') else Complete(page'.(offset := s.cuts[i]))
  {
    hide ProofSent, LensSent;
    var r := Window(w, f, u, url, s, i).value;
    var chunk := s.content[s.cuts[i]..s.cuts[i + 1]];
    assert s.cuts[i + 1] <= |s.content|;
    assert s.content[..s.cuts[i]] + chunk == s.content[..s.cuts[i + 1]];
    SentNext(w, f, u, url, s, i);
    if i == 0 {
      NothingSentYet(w, f, u, url, s);
    }
  }

  lemma NothingSentYet(w: World, f: Request -> Reply, u: Urn, url: string, s: Slicing)
    requires u.root.Some?
    ensures !ProofSent(w, f, u, url, s, 0) && !LensSent(w, f, u, url, s, 0)
  {}

  lemma SentNext(w: World, f: Request -> Reply, u: Urn, url: string, s: Slicing, i: nat)
    requires u.root.Some? && i + 1 < |s.cuts| && Window(w, f, u, url, s, i).Success?
    ensures ProofSent(w, f, u, url, s, i + 1) <==>
              ProofSent(w, f, u, url, s, i) || Window(w, f, u, url, s, i).value.inclusionProof == Some(s.proof)
    ensures LensSent(w, f, u, url, s, i + 1) <==>
              LensSent(w, f, u, url, s, i) || Window(w, f, u, url, s, i).value.chunkLens == Some(s.chunkLens)
  {}

  lemma {:induction false} HonestDrain(w: World, f: Request -> Reply, log: seq<Exchange>, u: Urn, url: string,
                                       s: Slicing, i: nat)
    requires u.root.Some? && Honest(w, f, u, url, s) && i < s.Windows()
    ensures var d := Drain(w, Fixed(f), log, u, url, PageAfter(w, f, u, url, s, i));
            if i >= MAX_WINDOWS || s.Windows() > MAX_WINDOWS then d.result == Failure(Error.Rpc)
            else (&& d.result.Success? && d.result.value.buf == s.content
                  && d.result.value.proof == s.proof && d.result.value.chunkLens == s.chunkLens)
    decreases s.Windows() - i
  {
    hide OnReply;
    if i >= MAX_WINDOWS {
    } else {
      var request := ContentRequest(w, u, url, s.cuts[i]);
      HonestTurn(w, f, u, url, s, i);
      if i + 1 < s.Windows() {
        HonestDrain(w, f, log + [Exchange(request, f(request))], u, url, s, i + 1);
      } else {
        assert s.content[..s.cuts[i + 1]] == s.content;
      }
    }
  }

  /** Slicing independence, both ways: however an honest gateway cuts the content, the fetch gives
      what the gate gives on the whole of it, provided the cuts make at most `MAX_WINDOWS` windows;
      a longer slicing is refused. */
  lemma SlicingIndependence(w: World, f: Request -> Reply, log: seq<Exchange>, u: Urn, base: string, s: Slicing)
    requires u.root.Some? && Honest(w, f, u, TrimSlashes(base), s)
    ensures FetchSpec(w, Fixed(f), log, u, base).result ==
              if s.Windows() <= MAX_WINDOWS
              then OpenArtifacts(w, u, Artifacts(s.content, s.proof, s.chunkLens), u.root.value)
              else Failure(Error.Rpc)
  {
    var url := TrimSlashes(base);
    HonestDrain(w, f, log, u, url, s, 0);
    assert PageAfter(w, f, u, url, s, 0) == START;
  }

  /** Cutting at every full window, as the client asks. */
  function FullWindows(size: nat): (n: nat) {
    (size + RPC_WINDOW_BYTES - 1) / RPC_WINDOW_BYTES
  }

  function FullCuts(size: nat): seq<u64>
    requires size <= MAX_RESOURCE_BYTES
  {
    seq(FullWindows(size) + 1, i requires 0 <= i <= FullWindows(size) =>
      if i == FullWindows(size) then size else i * RPC_WINDOW_BYTES)
  }

  /** Full windows always fit: at most 22 of the 37 allowed. */
  lemma FullWindowsFit(content: Bytes, proof: string, chunkLens: seq<u32>)
    requires 0 < |content| <= MAX_RESOURCE_BYTES
    ensures var s := Slicing(content, proof, chunkLens, FullCuts(|content|));
            && s.Valid() && s.Windows() <= 22 < MAX_WINDOWS == 37
            && forall i :: 0 <= i < s.Windows() ==> s.cuts[i + 1] - s.cuts[i] <= RPC_WINDOW_BYTES
  {}
}
