/** The node read path: one GET, whose reply is classified by its headers. */
module Node {
  import opened Wrappers
  import opened Text
  import opened Types
  import opened Net
  import opened Worlds
  import opened Identity
  import opened ChunkLens

  predicate IsTrue(value: Option<string>) {
    value.Some? && EqIgnoreCase(Trim(value.value), "true")
  }

  /** The concrete root: the URN's pinned root, else the node's `X-Dig-Root` when not blank. */
  function ServedRoot(u: Urn, resp: Response): Option<string> {
    if u.root.Some? then u.root
    else
      match Header(resp.headers, "x-dig-root")
      case None => None
      case Some(r) => if Trim(r) == [] then None else Some(Trim(r))
  }

  /** The bare `Content-Type`, without parameters, when not empty. */
  function HeaderContentType(resp: Response): Option<string> {
    match Header(resp.headers, "content-type")
    case None => None
    case Some(c) =>
      var bare := Trim(Split(c, ';')[0]);
      if bare == [] then None else Some(bare)
  }

  predicate Attested(resp: Response) {
    IsTrue(Header(resp.headers, "x-dig-verified"))
  }

  predicate MarkedCiphertext(resp: Response) {
    IsTrue(Header(resp.headers, "x-dig-encrypted")) || Header(resp.headers, "x-dig-inclusion-proof").Some?
  }

  function Plaintext(w: World, u: Urn, resp: Response): Fetched {
    var contentType := match HeaderContentType(resp) case Some(c) => c case None => w.mime(u.key, resp.body);
    Fetched(ResolvedData(resp.body, contentType), ServedRoot(u, resp), None)
  }

  function ReadCiphertext(w: World, u: Urn, resp: Response): Result<Fetched, Error> {
    match Header(resp.headers, "x-dig-inclusion-proof")
    case None => Failure(VerifyFailed)
    case Some(proof) =>
      match ServedRoot(u, resp)
      case None => Failure(VerifyFailed)
      case Some(root) =>
        match ParseChunkLens(Header(resp.headers, "x-dig-chunk-lens"))
        case Failure(e) => Failure(e)
        case Success(lens) => OpenArtifacts(w, u, Artifacts(resp.body, proof, lens), root)
  }

  function ReadReply(w: World, u: Urn, reply: Reply): Result<Fetched, Error> {
    match reply
    case Unreached => Failure(Error.Transport)
    case Reached(resp) =>
      if resp.status == 404 then Failure(NotFound)
      else if !IsSuccess(resp) then Failure(Error.Transport)
      else if Attested(resp) then Success(Plaintext(w, u, resp))
      else if MarkedCiphertext(resp) then ReadCiphertext(w, u, resp)
      else Failure(VerifyFailed)
  }

  method Fetch(w: World, transport: Transport, base: string, u: Urn) returns (r: Result<Fetched, Error>)
    modifies transport
    ensures var request := Serve(ServeUrl(base, u));
            var reply := transport.answer(old(transport.log), request);
            r == ReadReply(w, u, reply) && transport.log == old(transport.log) + [Exchange(request, reply)]
  {
    var reply := transport.Send(Serve(ServeUrl(base, u)));
    if reply.Unreached? {
      return Failure(Error.Transport);
    }
    var resp := reply.response;
    if resp.status == 404 {
      return Failure(NotFound);
    }
    if !IsSuccess(resp) {
      return Failure(Error.Transport);
    }
    var root := ServedRoot(u, resp);
    var verified := Header(resp.headers, "x-dig-verified");
    if verified.Some? && EqIgnoreCase(Trim(verified.value), "true") {
      var contentType := HeaderContentType(resp);
      if contentType.None? {
        contentType := Some(w.mime(u.key, resp.body));
      }
      return Success(Fetched(ResolvedData(resp.body, contentType.value), root, None));
    }
    var encrypted := Header(resp.headers, "x-dig-encrypted");
    var proof := Header(resp.headers, "x-dig-inclusion-proof");
    if (encrypted.Some? && EqIgnoreCase(Trim(encrypted.value), "true")) || proof.Some? {
      if proof.None? || root.None? {
        return Failure(VerifyFailed);
      }
      var lens := ParseChunkLens(Header(resp.headers, "x-dig-chunk-lens"));
      if lens.Failure? {
        return Failure(lens.error);
      }
      var plain := VerifyAndDecrypt(w, u, Artifacts(resp.body, proof.value, lens.value), root.value);
      if plain.Failure? {
        return Failure(plain.error);
      }
      var data := ResolvedData(plain.value, w.mime(u.key, plain.value));
      return Success(Fetched(data, root, Some(Artifacts(resp.body, proof.value, lens.value))));
    }
    return Failure(VerifyFailed);
  }

  /** The first header of that name says `true`, up to ASCII case and white space around it. */
  ghost predicate SaysTrue(headers: seq<(string, string)>, name: string) {
    exists i: nat :: FirstNamed(headers, name, i) && SameText(Trim(headers[i].1), "true")
  }

  lemma TrueExactly(headers: seq<(string, string)>, name: string)
    ensures IsTrue(Header(headers, name)) <==> SaysTrue(headers, name)
  {
    hide Trim, EqIgnoreCase, SameText, FirstNamed;
    HeaderIsFirst(headers, name);
    if Header(headers, name).Some? {
      EqIgnoreCaseExactly(Trim(Header(headers, name).value), "true");
    } else {
      NoneFirst(headers, name);
    }
  }

  lemma NoneFirst(headers: seq<(string, string)>, name: string)
    requires Header(headers, name).None?
    ensures forall i: nat :: !FirstNamed(headers, name, i)
  {
    hide SameText;
    HeaderIsFirst(headers, name);
  }

  /** A reply of status 200 to 299. */
  predicate Ok(reply: Reply) {
    reply.Reached? && 200 <= reply.response.status <= 299
  }

  /** The content type a reply's header gives: its text up to the first semicolon, trimmed, unless
      there is no such header or nothing is left. */
  lemma ContentTypeExactly(resp: Response, i: nat, bare: string, parameters: string)
    requires FirstNamed(resp.headers, "content-type", i) && ';' !in bare
    requires resp.headers[i].1 == bare || resp.headers[i].1 == bare + [';'] + parameters
    ensures HeaderContentType(resp) == if Trim(bare) == [] then None else Some(Trim(bare))
  {
    hide Trim, SameText;
    HeaderIsFirst(resp.headers, "content-type");
    if resp.headers[i].1 == bare {
      SplitAtom(bare, ';');
    } else {
      SplitFirst(bare, ';', parameters);
    }
  }

  /** The node attested this body: a 2xx reply whose `X-Dig-Verified` says true, naming `root` (or no
      root), with the content type of its header, or one derived from the body when it has none. */
  ghost predicate AttestedReply(w: World, u: Urn, reply: Reply, root: Option<string>, data: ResolvedData) {
    && Ok(reply) && SaysTrue(reply.response.headers, "x-dig-verified")
    && reply.response.body == data.bytes && ServedRoot(u, reply.response) == root
    && (if HeaderContentType(reply.response).Some? then HeaderContentType(reply.response) == Some(data.contentType)
        else data.contentType == w.mime(u.key, data.bytes))
  }

  /** The reply carries these artifacts: its body, its proof header and its chunk lengths. */
  predicate Carries(reply: Reply, art: Artifacts) {
    && Ok(reply)
    && reply.response.body == art.ciphertext
    && Header(reply.response.headers, "x-dig-inclusion-proof") == Some(art.proof)
    && ParseChunkLens(Header(reply.response.headers, "x-dig-chunk-lens")) == Success(art.chunkLens)
  }

  /** Where a node's answer can come from, both ways: bytes are returned exactly when the node
      attests them or the gate opens what the reply carries against the served root; and the
      artifacts kept for the disk are what the reply carries, and open to the same result. */
  lemma AcceptedExactly(w: World, u: Urn, reply: Reply)
    ensures ReadReply(w, u, reply).Success? <==>
              && Ok(reply)
              && (|| SaysTrue(reply.response.headers, "x-dig-verified")
                  || (&& ServedRoot(u, reply.response).Some?
                      && exists art: Artifacts, data: ResolvedData ::
                           Carries(reply, art) && Opens(w, u, art, ServedRoot(u, reply.response).value, data)))
    ensures var r := ReadReply(w, u, reply);
            r.Success? ==>
              && r.value.root == ServedRoot(u, reply.response)
              && (if SaysTrue(reply.response.headers, "x-dig-verified")
                  then r.value.artifacts.None? && AttestedReply(w, u, reply, r.value.root, r.value.data)
                  else
                    && r.value.root.Some? && r.value.artifacts.Some? && Carries(reply, r.value.artifacts.value)
                    && Opens(w, u, r.value.artifacts.value, r.value.root.value, r.value.data))
  {
    hide VerifyAndDecrypt, OpenArtifacts, Opens, SaysTrue, ServedRoot, HeaderContentType, IsTrue;
    if Ok(reply) {
      TrueExactly(reply.response.headers, "x-dig-verified");
      var root := ServedRoot(u, reply.response);
      if root.Some? {
        CiphertextExactly(w, u, reply);
      }
    }
  }

  /** An unattested reply that carries artifacts comes to what the gate makes of them. */
  lemma CiphertextExactly(w: World, u: Urn, reply: Reply)
    requires Ok(reply) && ServedRoot(u, reply.response).Some?
    ensures var root := ServedRoot(u, reply.response).value;
            && (forall art: Artifacts, data: ResolvedData :: Carries(reply, art) && Opens(w, u, art, root, data) ==>
                  ReadCiphertext(w, u, reply.response) == Success(Fetched(data, Some(root), Some(art))))
            && (ReadCiphertext(w, u, reply.response).Success? ==>
                  var f := ReadCiphertext(w, u, reply.response).value;
                  && f.root == Some(root) && f.artifacts.Some?
                  && Carries(reply, f.artifacts.value) && Opens(w, u, f.artifacts.value, root, f.data))
  {
    hide VerifyAndDecrypt, OpenArtifacts, Opens, ServedRoot, ParseItems;
    var root := ServedRoot(u, reply.response).value;
    var proof := Header(reply.response.headers, "x-dig-inclusion-proof");
    var lens := ParseChunkLens(Header(reply.response.headers, "x-dig-chunk-lens"));
    if proof.Some? && lens.Success? {
      var carried := Artifacts(reply.response.body, proof.value, lens.value);
      assert Carries(reply, carried);
      assert ReadCiphertext(w, u, reply.response) == OpenArtifacts(w, u, carried, root);
      forall data: ResolvedData
        ensures OpenArtifacts(w, u, carried, root) == Success(Fetched(data, Some(root), Some(carried)))
            <==> Opens(w, u, carried, root, data)
      {
        OpenedExactly(w, u, carried, root, data);
      }
      if OpenArtifacts(w, u, carried, root).Success? {
        OpenedExactly(w, u, carried, root, OpenArtifacts(w, u, carried, root).value.data);
      }
    }
  }

  /** Every other reply, by the kind of failure: an unreachable node or a status other than 2xx and
      404 falls through as unreachable, 404 as absent; and a 2xx reply that says nothing of being
      verified and has no proof, no root or malformed chunk lengths stops the ladder. */
  lemma RefusedExactly(w: World, u: Urn, reply: Reply)
    ensures ReadReply(w, u, reply) == Failure(NotFound) <==> reply.Reached? && reply.response.status == 404
    ensures ReadReply(w, u, reply) == Failure(Error.Transport) <==>
              reply.Unreached? || (reply.response.status != 404 && !Ok(reply))
    ensures Ok(reply) && !SaysTrue(reply.response.headers, "x-dig-verified") ==>
              (|| Header(reply.response.headers, "x-dig-inclusion-proof").None?
               || ServedRoot(u, reply.response).None?
               || ParseChunkLens(Header(reply.response.headers, "x-dig-chunk-lens")).Failure?) ==>
                ReadReply(w, u, reply) == Failure(VerifyFailed)
  {
    hide VerifyAndDecrypt, SaysTrue, ServedRoot, HeaderContentType, IsTrue, ParseItems;
    if Ok(reply) {
      TrueExactly(reply.response.headers, "x-dig-verified");
      forall art: Artifacts, root: string
        ensures VerifyAndDecrypt(w, u, art, root).Failure? ==>
                  VerifyAndDecrypt(w, u, art, root).error in {Parse, VerifyFailed, DecryptFailed}
      {
        VerdictExactly(w, u, art, root);
      }
    }
  }

  /** An attested reply wins over every other header it carries; an unattested one never yields
      its own body unless the gate opens to it. */
  lemma UnattestedNeverTrusted(w: World, u: Urn, reply: Reply)
    requires ReadReply(w, u, reply).Success? && !SaysTrue(reply.response.headers, "x-dig-verified")
    ensures ServedRoot(u, reply.response).Some?
    ensures VerifiedBy(w, u, ServedRoot(u, reply.response).value, ReadReply(w, u, reply).value.data)
  {
    hide VerifyAndDecrypt, ReadReply, Opens, SaysTrue;
    AcceptedExactly(w, u, reply);
  }
}
