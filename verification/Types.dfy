/** The values every module exchanges: URNs, resolved data, verifiable artifacts, errors. */
module Types {
  import opened Wrappers
  import opened Text

  newtype byte = n: int | 0 <= n < 0x100

  type Bytes = seq<byte>
  type u32 = n: nat | n < 0x1_0000_0000
  type u64 = n: nat | n < 0x1_0000_0000_0000_0000

  /** A parsed URN: chain label, store id, optional pinned root, the effective resource key
      (an absent or empty path already replaced by `index.html`, so never empty) and the optional
      salt. */
  datatype UrnRecord = UrnRecord(chain: string, store: string, root: Option<string>, key: string, salt: Option<string>)

  predicate WellFormed(u: UrnRecord) {
    && u.chain != []
    && IsHex64(u.store)
    && u.key != []
    && (u.root.Some? ==> IsHex64(u.root.value))
    && (u.salt.Some? ==> u.salt.value != [] && IsHex(u.salt.value))
  }

  type Urn = u: UrnRecord | WellFormed(u) witness UrnRecord("chia", seq(64, _ => 'a'), None, "index.html", None)

  datatype ResolvedData = ResolvedData(bytes: Bytes, contentType: string)

  /** What the disk cache stores: enough to verify the bytes again from scratch. */
  datatype Artifacts = Artifacts(ciphertext: Bytes, proof: string, chunkLens: seq<u32>)

  /** One tier's answer: the data, the concrete root when known, the artifacts when re-verifiable. */
  datatype Fetched = Fetched(data: ResolvedData, root: Option<string>, artifacts: Option<Artifacts>)

  datatype Error = Parse | Transport | Rpc | NotFound | RootRequired | VerifyFailed | DecryptFailed

  datatype ResolveOutcome = Resolved(data: ResolvedData) | IntegrityFailure | Unreachable

  type Resolution = Result<ResolveOutcome, Error>
}
