# dig-urn-resolver, verified

A Dafny 4.11 model of the DIG URN resolver, with proofs. The resolver turns a `urn:dig:` name into
bytes: it looks in a bounded in-memory LRU, then on an untrusted disk, then walks a short ladder of
endpoints (a loopback node, the public gateway). It falls through on absence and unreachability and
stops on an integrity failure. `dafny verify dfyconfig.toml` checks everything.

## What is modelled

| file | what it holds |
|---|---|
| `Wrappers`, `Text`, `Types` | options and results, Rust's string operations, the shared values |
| `Net`, `Worlds` | requests, replies, the transport and its trace; everything injected (URL, JSON, base64 and address parsing, the cryptographic gate, content-type derivation) as arbitrary functions of which nothing is assumed |
| `Identity`, `ChunkLens`, `Pages` | the cache identity and the serve URL, the `X-Dig-Chunk-Lens` header, HTML escaping |
| `Lru`, `Inclusion`, `Cache` | the memory cache as a recency list, when a larger one holds all that a smaller one does, and the class over a hash map, a clock and a byte counter that implements the list |
| `Rpc`, `Node`, `Ladder` | the windowed gateway fetch, the node reply classification, the plan |
| `Resolving`, `Recall` | one undisturbed resolve as a function, the `Resolver` class proved against it, the ladder walk, failures and healing, sessions; what a success leaves for the next resolve |
| `Machine` | many resolves in flight over many instances that share one disk: a step runs from one transport call to the next, any reply may come back, and the disk may be rewritten between any two steps |
| `Confinement`, `Wire`, `Provenance`, `Soundness` | what holds in every reachable state of that machine, under any replies; `Wire` spells out every request in literal text |
| `Fates`, `Solo` | left undisturbed, the machine does what `Resolver.Resolve` does |
| `Transparency`, `Exactness` | over a transport that is a fixed function of the request, exactly when caching changes nothing |
| `Outcomes` | what `Unreachable` and `NotFound` tell a caller, and exactly when that is what is documented |
| `Samples`, `Disagreement`, `Families` | a small system with one local node, the runs in it that show why each condition is there, and exactly which families of URNs are always cached transparently |

A run is a sequence of actions, and `Machine.After` is the state it reaches, so a lemma over all
`acts` is a statement about every reachable state. The adversary in the sequential model is any
function from the whole trace so far and the request to a reply.

## Where code and documentation differ

The model follows the code.

- The repository's design document, in its section 6, "Outcomes (fail-closed)", has `Unreachable` mean that every tier was transport-unreachable and `NotFound` come only after every tier reported absence; the module comment says the former too (src/resolver.rs:13-14). The code lets the last tier alone decide (src/resolver.rs:325-336). `ExhaustedExactly` states the code's rule, `DocumentedExactly` says when the documented reading is right, `BuiltPlanReads` turns that into one status code, and `AbsentThenDownIsUnreachable` and `DownThenAbsentIsNotFound` are inputs at which it is wrong.
- The cache's comments treat the identity `storeId:root:resourceKey:salt` as naming the content (src/cache.rs:4-13). It omits the chain label, which is a key input (src/crypto.rs:54), and for a rootless URN its root is whatever text a node names (src/node.rs:65-72), so a root may run over into the key. `CollidesExactly` and `SharedWithPinnedExactly` say exactly which identities are shared with a lookup the code makes; `PinnedIsThatResourceExactly` gives the URNs for which that can go wrong. `FamilyExactly` is the condition, on the URNs alone, for caching never to change an answer; `TransparencyExactly` is the condition over one given transport. `MixedFamilyCanDisagree`, `ColonKeyCanDisagree` and `TwoChainsCanDisagree` are runs in which it fails.

## Model

| member | source | states |
|---|---|---|
| Identity.CacheIdInjective | src/cache.rs:32-34 | equal cache identities mean the same store, root, resource key and salt, for any key, colons included, as long as the roots have no colon |
| Identity.CollidesExactly | src/resolver.rs:205-212 | the identity kept for some URN at `root` is the one a pinned URN looks up, without being the same lookup, exactly when `root` is the pin, a colon, and a stretch of the pinned URN's key up to a colon |
| Identity.SharedWithPinnedExactly | src/node.rs:65-72 | seen from the kept entry: some pinned lookup collides with it exactly when its root reads as 64 hexadecimal digits, a colon and anything at all |
| Identity.LookupSharedExactly | src/resolver.rs:290 | seen from the lookup: a root that a node can name collides with it exactly when its key holds a colon with text after it and no white space right before it |
| Identity.PinnedIdInjective | src/resolver.rs:290 | root-pinned URNs of one chain label never share an identity |
| Identity.ServeUrlInjective | src/node.rs:31-37 | for a fixed base the request string determines store, optional root and key; a rootless and a pinned request never coincide |
| Wire.ServeSpelled | src/node.rs:31-37 | the request string is the base, `/s/`, the store, the pinned root after a colon when there is one, a slash and the key, in that order |
| ChunkLens.ParseExact | src/node.rs:146-154 | the accepted header language, both ways: read back item by item, refused exactly when some item is not a u32 once trimmed, and one blank item means a single chunk |
| ChunkLens.RoundTrip | src/node.rs:146-154 | parsing inverts comma-joined decimal printing for every list of u32, whatever white space surrounds each number |
| ChunkLens.U32Exactly | src/node.rs:150-153 | an item is read as `n` exactly when `n` is below 2^32 and the text is `n` printed in decimal after any number of zeros and at most one plus sign; all other text is refused |
| Pages.EscapeIsOnePass | src/pages.rs:26-33 | the five ordered whole-string replacements equal one per-character mapping |
| Pages.EscapeSafeAndInvertible | src/pages.rs:24-33 | escaped text has no raw markup character, each ampersand starts an entity, and decoding recovers every input |
| Net.HeaderIsFirst | src/transport.rs:29-35 | a header lookup gives the first header whose name has the same length and the same characters up to the case of ASCII letters, and nothing exactly when there is none |
| Text.EqIgnoreCaseExactly | src/transport.rs:29-35 | comparing lowered texts holds exactly for texts of one length whose characters are equal or an upper and lower case pair of one ASCII letter |
| Text.TrimSlashes | src/ladder.rs:159 | what is taken off is slashes only, at the end only, and none is left there |
| Lru.EvictShortestPrefix | src/cache.rs:121-135 | eviction drops a prefix, oldest first, and the shortest that restores both bounds |
| Lru.NewestSurvives | src/cache.rs:99-118 | the entry just inserted is never the victim |
| Lru.PutSpec | src/cache.rs:97-118 | after a put both bounds hold, the new entry is newest, no other entry's data changes, and an oversized value leaves an older entry for its identity in place |
| Lru.TouchSpec | src/cache.rs:87-95 | a hit moves to the newest end and changes no entry, count or total |
| Lru.TransientTotal | src/cache.rs:107-117 | before eviction the byte total never passes twice the budget |
| Lru.EveryRunBounded | src/cache.rs:53-66 | over every run of gets and puts identities stay distinct and both bounds hold |
| Lru.HitsWerePut | src/cache.rs:88-118 | whatever is evicted, the cache only ever holds what some put gave it for that identity |
| Lru.StackInclusion | src/cache.rs:88-135 | fed the same operations with a byte budget that never binds, a hit in the smaller cache is a hit with the same data in the larger |
| Inclusion.InclusionExactly | src/cache.rs:88-135 | over every run, a cache holds all that another with the same byte budget does, if and only if their entry bounds are equal, or the other is smaller and holds one entry at most or has no bytes to spend |
| Inclusion.BindingBudgetBreaksInclusion | src/cache.rs:121-135 | the failing run, for any two different entry bounds above one and any byte budget above zero |
| Cache.StampRepresents | src/cache.rs:105-116 | stamping an entry with the next clock value implements the list move, with the byte counter exact and never negative |
| Cache.DropRepresents | src/cache.rs:123-133 | removing the entry with the smallest clock drops the head of the list, with the counter exact |
| Cache.RepresentedOnce | src/cache.rs:62-71 | the map and its clocks determine the recency list |
| Cache.MemoryCache.Get | src/cache.rs:88-95 | refines the list lookup and touch; the clock moves on a miss too |
| Cache.MemoryCache.Put | src/cache.rs:99-118 | refines the list put and keeps the representation invariant: distinct clocks, exact byte sum, both bounds |
| Cache.MemoryCache.EvictUntilBounded | src/cache.rs:121-135 | the eviction loop terminates, refines the list eviction, and its no-victim branch is dead |
| Cache.MemoryCache.Oldest | src/cache.rs:123-128 | the minimum over the map's clocks is the head of the recency list |
| Worlds.VerifiedRootColonFree | src/crypto.rs:131-151 | whatever the gate accepts, it accepted against 64 hex digits, so its identity is not shared |
| Worlds.SaltExactly | src/crypto.rs:61-71 | an absent or blank salt is none, one of 64 hex digits is kept as it is, and any other is a parse error |
| Worlds.VerdictExactly | src/crypto.rs:131-151 | verification is the gate's verdict on the URN's chain label, store, key and own salt, the ciphertext, the decoded proof, the trimmed lower-case root and the chunk lengths; a bad salt is a parse error before that, a bad root or proof an integrity failure, and each refusal of the gate keeps its kind |
| Worlds.OpenedExactly | src/crypto.rs:131-151 | what is returned and kept is what the gate opens to, both ways, with its derived content type |
| Worlds.UnusableSaltRefused | src/crypto.rs:61-71 | a salt that is not 64 hex digits is refused before the gate, whatever is fetched |
| Rpc.Fetch | src/rpc.rs:120-222 | the windowed loop computes the fetch specification, never buffers past the accepted total, and terminates |
| Rpc.TurnExactly | src/rpc.rs:71-206 | what one reply does, both ways: unreachable or not 2xx falls through as unreachable; a first total of nothing is absence; no JSON, an error, another shape, a first total above 64 MiB, a payload that does not decode or passes the total, or an offset that does not advance is a protocol error; otherwise the fetch ends or goes on at the named offset |
| Rpc.AdversarialBounds | src/rpc.rs:136-206 | for any gateway: at most 37 posts at strictly increasing offsets, each for the URN's store, pinned root and content key and for 3 MiB; the buffer is the concatenation of the payloads within the first declared total, at most 64 MiB; first chunk lengths and last proof win |
| Rpc.AbsorbKeeps | src/rpc.rs:158-205 | at every window the buffer grows by exactly the accepted payload, stays within the first accepted total, and the offset advances |
| Rpc.SlicingIndependence | src/rpc.rs:118-222 | an honest gateway may cut the content in any way: the fetch gives what the gate gives on the whole when the cuts make at most 37 windows, and a protocol error otherwise |
| Rpc.FullWindowsFit | src/rpc.rs:38-49 | full 3 MiB windows always fit: at most 22 |
| Rpc.LastWindowExactly | src/rpc.rs:158-205 | at any point of a fetch a last window ends it well exactly when its payload decodes and does not pass the accepted total, however short the buffer stays; otherwise it is a protocol error |
| Rpc.FinishedBufferReachesGate | src/rpc.rs:182-222 | when the windows end well the fetch is the gate's verdict on the joined payloads, the last proof and the first chunk lengths, short buffers included |
| Node.Fetch | src/node.rs:44-135 | the method, with the early returns of the code, makes one GET and computes the reply classification that `AcceptedExactly` and `RefusedExactly` characterise |
| Node.AcceptedExactly | src/node.rs:74-135 | bytes are returned exactly when the status is 200 to 299 and the first `X-Dig-Verified` header says `true` up to case and white space, or the reply carries artifacts that the gate opens against the served root; an attested body has the header's content type or a derived one; kept artifacts are the reply's |
| Node.RefusedExactly | src/node.rs:55-134 | 404 and nothing else is absence; an unreachable node and every other status but 2xx, and nothing else, is unreachability; a 2xx reply not said to be verified, with no proof, no root or malformed chunk lengths, is an integrity failure |
| Node.TrueExactly | src/node.rs:76-79 | the marker test holds exactly when the first header of that name says `true` up to case and white space |
| Node.ContentTypeExactly | src/node.rs:137-142 | the header content type is its text before the first semicolon, trimmed, unless nothing is left |
| Node.UnattestedNeverTrusted | src/node.rs:90-129 | a reply whose first `X-Dig-Verified` header does not say `true` never yields bytes the gate did not accept |
| Ladder.BuildPlan | src/ladder.rs:186-201 | the probing loop computes the planning specification |
| Ladder.PlanIsShaped | src/ladder.rs:176-201 | an override is the whole plan with no probe; otherwise at most two probes, the gateway last, and a node only if it is loopback and answered its probe |
| Ladder.ShapedPlans | src/ladder.rs:156-201 | a plan is never empty, ends at the public gateway when there is no override, and every node tier in it is a loopback host |
| Ladder.LoopbackExactly | src/ladder.rs:106-155 | a base is trusted as a node exactly when its host, trimmed, without brackets and in lower case, is `localhost`, or a loopback address, or no address but `dig.local` while that resolves to loopback |
| Wire.PlanSpelled | src/ladder.rs:156-201 | the plan in literal text, both ways: an override alone, slash-trimmed, a node exactly when it names a loopback host; else `http://dig.local:9778`, or else `http://localhost:9778`, the first that is loopback and answers its health probe with 2xx, before `https://rpc.dig.net`; or the gateway alone |
| Resolving.Resolver.Resolve | src/resolver.rs:284-346 | computes the one-piece resolve over the object's memory, disk, plan and trace; an invalid URN touches nothing |
| Resolving.Resolver.LookUpCaches | src/resolver.rs:287-301 | memory, then the re-verified disk, only for a pinned URN; a verified disk hit enters memory |
| Resolving.Resolver.DiskLookup | src/resolver.rs:218-244 | a disk entry is verified again; one that fails is dropped, as an integrity failure or as a miss |
| Resolving.DiskExactly | src/resolver.rs:218-244 | an entry that the gate opens is answered and stays; any other is removed, as an integrity failure when it is refused and as a miss when it is malformed; nothing else on the disk or in memory changes |
| Resolving.Resolver.Keep | src/resolver.rs:253-264 | a success with a concrete root goes to memory, and to disk when it has artifacts |
| Resolving.Resolver.Plan | src/resolver.rs:187-194 | the plan is built once and remembered |
| Recall.HitIsRemembered | src/resolver.rs:291-300 | what the caches answered, from memory or from the disk, they answer again whatever has become of the disk in between |
| Recall.SuccessIsRemembered | src/resolver.rs:284-341 | after a pinned success the next resolve of that URN gives the same bytes with no request, whatever is replied later and whatever becomes of the disk |
| Recall.NamedSuccessServesPin | src/resolver.rs:253-264 | a rootless success kept under the root named for it answers the URN pinned there |
| Recall.SuccessSurvivesRestart | src/resolver.rs:218-264 | a pinned success with artifacts is found again on the disk, verified, by a resolver that starts afresh |
| Resolving.LadderDecides | src/resolver.rs:303-346 | for a plan of any length there is a deciding tier, the first that is neither absent nor unreachable or else the last; the trace ends with it, and its result makes the outcome: bytes, an integrity failure, unreachable, or its own error |
| Outcomes.ExhaustedExactly | src/resolver.rs:322-336 | a walk ends `Unreachable` exactly when every tier is absent or unreachable and the last is unreachable, and `NotFound` exactly when the last is absent instead |
| Outcomes.DocumentedExactly | src/resolver.rs:13-14 | every tier was down exactly when the outcome is `Unreachable` and no tier said the content is absent; every tier lacked it exactly when the outcome is `NotFound` and none was unreachable |
| Outcomes.BuiltPlanReads | src/resolver.rs:321-336 | on a plan of a node and a gateway the documented reading of `Unreachable` is right exactly when the node did not answer 404, and that of `NotFound` exactly when it did |
| Outcomes.OneTierReads | src/resolver.rs:321-336 | on a plan of one tier both readings are right |
| Outcomes.AbsentThenDownIsUnreachable | src/resolver.rs:331-336 | the failing input: the node answers 404, the gateway cannot be reached, and any pinned URN resolves to `Unreachable` |
| Outcomes.DownThenAbsentIsNotFound | src/resolver.rs:325-329 | the mirror: the node cannot be reached, the gateway has an empty result, and any pinned URN resolves to `NotFound` |
| Resolving.IntegrityStopsTheLadder | src/resolver.rs:312-320 | after an integrity failure the whole trace of the walk is requests to tiers up to the refused one |
| Resolving.TierRequests | src/resolver.rs:197-202 | a tier's requests go to its own base, at a gateway for the URN's own pinned root only; a rootless URN sends a gateway nothing |
| Resolving.FailuresAreNotCached | src/resolver.rs:308-340 | a resolve that is not a success leaves memory as it was and adds and changes nothing on disk |
| Resolving.PoisonHeals | src/resolver.rs:233-243 | after a disk entry fails verification the next undisturbed resolve of that URN is decided by the ladder |
| Resolving.SessionProbesTwice | src/resolver.rs:187-194 | one resolver serving any sequence of URNs probes health at most twice, and never under an override |
| Machine.AlwaysWaits | src/resolver.rs:284-346 | in every reachable state every resolve in flight waits on a well-defined request, its gateway buffer within the accepted total |
| Machine.StepFrame | src/resolver.rs:147-154 | a step changes no other resolve and no other instance's caches, the trace only grows, and a finished resolve stays finished |
| Confinement.EveryRequestConfined | src/ladder.rs:176-201 | over every interleaved run every request was made for some resolve and asks for that resolve's URN only, a post for its own pinned root; with an override it goes to the slash-trimmed base and is no probe, without one to loopback candidates that answered and to the gateway; every plan is shaped |
| Wire.EveryRequestSpelled | src/ladder.rs:176-201 | the same in literal text, over every interleaved run: probes at `/health` of the two local bases that are loopback; content at a loopback base, the override or one that answered its probe with 2xx, for that resolve's store, root and key; posts at the gateway or at an override that is not loopback, with that resolve's store, pinned root, content key and 3 MiB |
| Provenance.EverySuccessHasAWitness | src/resolver.rs:253-346 | in every reachable state every memory entry and every returned success has a witness: a loopback node attested it, content type included, or the gate opened it against a root that was pinned or named by a loopback node, from artifacts that a logged node reply carried, that logged gateway posts add up to, or that the environment put on the disk |
| Provenance.ConsultSound | src/resolver.rs:287-301 | what the caches answer is vouched for; a disk entry is trusted for nothing but what the gate makes of it |
| Soundness.PinnedSuccessIsThatResource | src/resolver.rs:287-293 | a pinned success is backed at exactly the pinned root for the same store, key and salt, provided no attested answer for a rootless URN names a root made of that pin, a colon and a stretch of that key |
| Soundness.PlainKeySuccessIsThatResource | src/resolver.rs:287-293 | with no such colon in the key no proviso is needed |
| Disagreement.PinnedIsThatResourceExactly | src/resolver.rs:205-212 | over every configuration and every run, however URNs are parsed, what a pinned URN is answered with is always backed at its own root for its own store, key and salt, if and only if its key holds no colon with text after it and no white space right before it |
| Soundness.RemoteOnlySuccessIsVerified | src/rpc.rs:111-126 | when no node is asked, every pinned success over one chain label, cache hits included, is bytes the gate accepted for that URN against its own root |
| Soundness.RootlessIsRefused | src/rpc.rs:111-116 | when no node is asked, a rootless resolve finishes only as `RootRequired` and no content request is made for it |
| Soundness.NoLoopbackNoNode | src/ladder.rs:136-165 | without a loopback host in reach every request of every run is a gateway post |
| Soundness.OnlySuccessIsCached | src/resolver.rs:303-341 | among interleaved resolves too, only a stretch that ends in a success changes memory or adds to the disk |
| Soundness.RequestsBounded | src/resolver.rs:303-346 | whatever is replied and however resolves interleave, a resolve makes at most 40 requests: two probes, one to a node, 37 to the gateway |
| Fates.FateStep | src/resolver.rs:306-342 | one undisturbed step keeps what a waiting resolve will come to |
| Solo.ResumeProgress | src/rpc.rs:136-206 | every reply brings a resolve closer to its end |
| Solo.UndisturbedResolveRefines | src/resolver.rs:284-346 | from any state, a resolve launched and left undisturbed ends with the outcome, trace and caches of the one-piece resolve |
| Transparency.CacheTransparency | src/resolver.rs:284-346 | over a fixed transport and an initially empty disk, every finished resolve of root-pinned URNs of one chain label, interleaved over any number of instances, has the cacheless outcome |
| Transparency.CoherentIsTransparent | src/resolver.rs:218-346 | the same for any family of URNs whose members agree in pairs, rootless ones included |
| Transparency.ResolveTransparent | src/resolver.rs:284-346 | for the object: a call that starts with right caches answers as the ladder alone would and leaves them right |
| Transparency.SessionTransparent | src/resolver.rs:284-346 | one resolver started with nothing cached answers every URN of any sequence over a coherent family as the ladder alone would |
| Transparency.PinnedOneChainCoherent | src/cache.rs:9-13 | root-pinned URNs of one chain label always agree |
| Exactness.TransparencyExactly | src/cache.rs:4-13 | over one given transport, transparency of all fair runs holds if and only if the family's URNs agree in pairs |
| Families.FamilyExactly | src/cache.rs:4-13 | over every configuration, transport and fair run, caching changes no answer if and only if no two URNs of the family clash: one pinned URN under two chain labels with a salt the gate accepts, or a rootless URN whose key is a pinned one's or is left of it after a colon, at the same store and salt |
| Families.NoClashAgrees | src/resolver.rs:253-301 | two URNs that do not clash agree over every transport and configuration |
| Families.ClashShows | src/node.rs:65-87 | two URNs that clash give a configuration, a transport and a fair run with an answer that the ladder would not give |
| Exactness.DisagreementShows | src/resolver.rs:253-301 | two URNs that disagree give a fair run whose last resolve a cache answers wrongly |
| Exactness.RemoteOnlyCoherent | src/rpc.rs:9-18 | without a loopback host in reach any URNs of one chain label agree, rootless ones included |
| Disagreement.MixedFamilyCanDisagree | src/node.rs:65-87 | for any pinned URN: a local node that names its root for the rootless form and denies the pinned one gives a fair run with an answer the ladder would not give |
| Disagreement.ColonKeyCanDisagree | src/node.rs:65-72 | for any pinned URN with a colon inside its key: a local node that names the pin and part of the key as the root of another URN gives such a run too |
| Disagreement.TwoChainsCanDisagree | src/cache.rs:32-34 | for any pinned URN whose salt is absent or 64 hexadecimal digits, and any second chain label, there is such a run: the identity omits the label and the key does not |

## Left out

- The cryptography and its verification loop: `Worlds.World.gate` is an arbitrary function that gives bytes, a refused inclusion or a failed tag. dig-urn-protocol and digstore-core are not part of this model, so its other mapped errors (src/crypto.rs:88-99) cannot arise here.
- URN parsing: an arbitrary function to a validated record whose effective resource key has already replaced an absent or empty path; hexadecimal fields are taken in either case, where the parser yields lower case.
- URL, IP-address, JSON and base64 parsing, hashing and DNS: arbitrary functions, fixed for a run, so a host does not change between loopback and not while the model runs.
- Requests carry their purpose (probe, node content, gateway post) beside the URL, so a fixed transport may also tell purposes apart; this makes the theorems about all transports slightly stronger.
- Error message texts, the JSON-RPC body syntax and the echoed window offset.
- Disk file names, the JSON envelope and I/O errors: the disk is a map by identity. In the sequential object writes succeed; in the machine the environment may rewrite it between steps, which covers lost and corrupted writes.
- Fixed-width wrap-around of the cache clock (2^64 operations) and of `usize`; byte totals are shown to stay within twice the budget, and fetched totals within 64 MiB.
- Time, timeouts and cancellation: a resolve that is never replied to simply never steps.
- The wasm and native entry points, the page templates, error images, the content-type table and `render`, which would only add constant tables and one-line members.
