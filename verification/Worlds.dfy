/** What the resolver is given and does not compute itself: URL and address parsing, base64 and
    JSON decoding, hashing, the cryptographic gate, and content-type derivation. Each is an
    arbitrary function; nothing is assumed about any of them. */
module Worlds {
  import opened Wrappers
  import opened Text
  import opened Types

  /** A `dig.getContent` result; absent fields decode to their defaults. */
  datatype GetContent = GetContent(
    totalLength: u64,
    nextOffset: Option<u64>,
    complete: Option<bool>,
    ciphertext: Option<string>,
    inclusionProof: Option<string>,
    chunkLens: Option<seq<u32>>)

  datatype ResultField = Absent | Mismatched | Matches(content: GetContent)

  /** A response body read as a JSON-RPC envelope. */
  datatype Envelope = NotJson | Envelope(hasError: bool, result: ResultField)

  /** The inputs of the verify-then-decrypt gate once its encodings are decoded. The URN enters
      through its rootless canonical form only. */
  datatype Opening = Opening(
    chain: string, store: string, key: string, salt: Option<string>,
    ciphertext: Bytes, proof: Bytes, root: string, chunkLens: seq<u32>)

  datatype Opened = Plaintext(bytes: Bytes) | GateRefused | TagRefused

  datatype World = World(
    parse: string -> Option<Urn>,
    host: string -> Option<string>,
    loopbackIp: string -> Option<bool>,
    digLocalIsLoopback: bool,
    base64: string -> Option<Bytes>,
    envelope: Bytes -> Envelope,
    contentKey: (string, string, string) -> string,
    gate: Opening -> Opened,
    mime: (string, Bytes) -> string)

  /** Salt validation: absent or blank means a public store, otherwise 64 hex digits are required. */
  function ParseSalt(salt: Option<string>): Result<Option<string>, Error> {
    match salt
    case None => Success(None)
    case Some(s) =>
      if Trim(s) == [] then Success(None)
      else if IsHex64(s) then Success(Some(s))
      else Failure(Parse)
  }

  /** A URN's salt with which the gate is ever reached: none, or 64 hex digits. */
  predicate UsableSalt(salt: Option<string>) {
    salt.None? || IsHex64(salt.value)
  }

  /** Decode the salt, the root and the proof, in that order, then pass the gate. */
  function VerifyAndDecrypt(w: World, u: Urn, art: Artifacts, root: string): Result<Bytes, Error> {
    match ParseSalt(u.salt)
    case Failure(e) => Failure(e)
    case Success(salt) =>
      if !IsHex64(Trim(root)) then Failure(VerifyFailed)
      else
        match w.base64(Trim(art.proof))
        case None => Failure(VerifyFailed)
        case Some(proof) =>
          match w.gate(Opening(u.chain, u.store, u.key, salt, art.ciphertext, proof, Lower(Trim(root)), art.chunkLens))
          case Plaintext(bytes) => Success(bytes)
          case GateRefused => Failure(VerifyFailed)
          case TagRefused => Failure(DecryptFailed)
  }

  /** Verified bytes with their derived content type, and the artifacts to verify them again. */
  function OpenArtifacts(w: World, u: Urn, art: Artifacts, root: string): Result<Fetched, Error> {
    match VerifyAndDecrypt(w, u, art, root)
    case Failure(e) => Failure(e)
    case Success(bytes) => Success(Fetched(ResolvedData(bytes, w.mime(u.key, bytes)), Some(root), Some(art)))
  }

  /** What the gate is opened with: the URN's chain label, store, key and salt, the ciphertext, the
      decoded proof, the root in lower case, and the chunk lengths. */
  function OpeningOf(u: Urn, art: Artifacts, proof: Bytes, root: string): Opening {
    Opening(u.chain, u.store, u.key, u.salt, art.ciphertext, proof, Lower(Trim(root)), art.chunkLens)
  }

  /** The gate opens these artifacts to `data` for `u` against `root`. */
  predicate Opens(w: World, u: Urn, art: Artifacts, root: string, data: ResolvedData) {
    && UsableSalt(u.salt) && IsHex64(Trim(root)) && w.base64(Trim(art.proof)).Some?
    && w.gate(OpeningOf(u, art, w.base64(Trim(art.proof)).value, root)) == Plaintext(data.bytes)
    && data.contentType == w.mime(u.key, data.bytes)
  }

  /** Verification comes to the gate's verdict on exactly that opening: the salt is the URN's own and
      is never dropped. Short of the gate a bad salt is a parse error, and a bad root or proof an
      integrity failure, like the gate's own refusals. */
  lemma VerdictExactly(w: World, u: Urn, art: Artifacts, root: string)
    ensures var proof := w.base64(Trim(art.proof));
            VerifyAndDecrypt(w, u, art, root) ==
              if !UsableSalt(u.salt) then Failure(Parse)
              else if !IsHex64(Trim(root)) || proof.None? then Failure(VerifyFailed)
              else
                var verdict := w.gate(OpeningOf(u, art, proof.value, root));
                if verdict.Plaintext? then Success(verdict.bytes)
                else if verdict.GateRefused? then Failure(VerifyFailed)
                else Failure(DecryptFailed)
  {
    if u.salt.Some? {
      SaltExactly(u.salt);
      HexNotBlank(u.salt.value);
    }
  }

  /** Which salts there are: none when it is absent or blank, itself when it is 64 hex digits, and a
      parse error otherwise. */
  lemma SaltExactly(salt: Option<string>)
    ensures salt.None? || Blank(salt.value) ==> ParseSalt(salt) == Success(None)
    ensures salt.Some? && IsHex64(salt.value) ==> ParseSalt(salt) == Success(salt)
    ensures salt.Some? && !Blank(salt.value) && !IsHex64(salt.value) ==> ParseSalt(salt) == Failure(Parse)
  {
    if salt.Some? {
      NotBlankNotEmpty(salt.value);
      if IsHex64(salt.value) {
        HexNotBlank(salt.value);
      }
    }
  }

  lemma HexNotBlank(s: string)
    requires s != [] && IsHex(s)
    ensures !Blank(s)
  {
    assert IsHexDigit(s[0]);
  }

  /** What is opened and kept is what the gate opens, both ways. */
  lemma OpenedExactly(w: World, u: Urn, art: Artifacts, root: string, data: ResolvedData)
    ensures OpenArtifacts(w, u, art, root) == Success(Fetched(data, Some(root), Some(art)))
       <==> Opens(w, u, art, root, data)
    ensures OpenArtifacts(w, u, art, root).Success? ==>
              OpenArtifacts(w, u, art, root).value ==
                Fetched(OpenArtifacts(w, u, art, root).value.data, Some(root), Some(art))
  {
    hide Trim;
    VerdictExactly(w, u, art, root);
  }

  /** The gate accepted these very bytes for `u` against `root`, from some artifacts. */
  ghost predicate VerifiedBy(w: World, u: Urn, root: string, data: ResolvedData) {
    exists art: Artifacts :: Opens(w, u, art, root, data)
  }

  /** Whatever the gate accepts, it accepted against a root of 64 hex digits, so one free of colons. */
  lemma VerifiedRootColonFree(w: World, u: Urn, root: string, data: ResolvedData)
    requires VerifiedBy(w, u, root, data)
    ensures IsHex64(Trim(root)) && ':' !in root
  {
    HexHasNo(Trim(root), ':');
    TrimKeeps(root, ':');
  }

  /** Any other salt that a URN can carry is refused before the gate, whatever is fetched. */
  lemma UnusableSaltRefused(w: World, u: Urn, art: Artifacts, root: string)
    requires !UsableSalt(u.salt)
    ensures VerifyAndDecrypt(w, u, art, root) == Failure(Parse)
  {
    VerdictExactly(w, u, art, root);
  }

  /** The pinned root is no key input: URNs that differ in it alone open the same bytes. */
  lemma GateIgnoresPin(w: World, u: Urn, v: Urn, art: Artifacts, root: string)
    requires u.chain == v.chain && u.store == v.store && u.key == v.key && u.salt == v.salt
    ensures OpenArtifacts(w, u, art, root) == OpenArtifacts(w, v, art, root)
  {}
}
