/** Why the conditions are there, each by runs that the code can have: a node that names a root for a
    rootless URN and then denies the URN pinned there, a node that names a root reaching into the
    key, and two chain labels that share identities but not keys. */
module Disagreement {
  import opened Wrappers
  import opened Types
  import opened Net
  import opened Worlds
  import opened Identity
  import opened Ladder
  import opened Resolving
  import opened Machine
  import opened Provenance
  import opened Soundness
  import opened Transparency
  import opened Exactness
  import opened Samples
  import Node
  import Text

  /** The node on `localhost`, set as the override. */
  function NodeConfig(w: World): Config {
    LocalConfig(w, Some(LOCALHOST_BASE))
  }

  const NODE_PLAN := [Endpoint(LOCALHOST_BASE, NodeKind)]

  /** With one node as the whole plan, its reply is the whole ladder. */
  lemma OneNodeLadder(w: World, f: Request -> Reply, u: Urn)
    requires LocalOnly(w)
    ensures var r := Node.ReadReply(w, u, f(Serve(ServeUrl(LOCALHOST_BASE, u))));
            var v := LadderAlone(NodeConfig(w), f, u);
            v.resolution == Conclude(r) && v.fetched == if r.Success? then Some(r.value) else None
  {
    hide Node.ReadReply, ServeUrl;
    NodeOnlyPlan(w, Fixed(f), []);
    var r := Node.ReadReply(w, u, f(Serve(ServeUrl(LOCALHOST_BASE, u))));
    assert Walk(w, Fixed(f), [], u, NODE_PLAN, 0)
        == Decide(w, Fixed(f), TierFetch(w, Fixed(f), [], u, NODE_PLAN[0]).log, u, NODE_PLAN, 0, r);
  }

  // ------------------------------------------------------------------ a node that names a root

  function NamingHeaders(root: string): seq<(string, string)> {
    [("x-dig-verified", "true"), ("x-dig-root", root)]
  }

  function NamingReply(root: string): Reply {
    Reached(Response(200, NamingHeaders(root), [1]))
  }

  /** The node attests a body for `u`, naming a root, and holds nothing else. */
  function Naming(u: Urn, root: string): Request -> Reply {
    (request: Request) =>
      if request == Serve(ServeUrl(LOCALHOST_BASE, u)) then NamingReply(root) else Reached(Response(404, [], []))
  }

  lemma NamingHeadersRead(root: string)
    ensures var h := NamingHeaders(root);
            && Header(h, "x-dig-verified") == Some("true") && Header(h, "x-dig-root") == Some(root)
            && Header(h, "content-type") == None
  {
    var h := NamingHeaders(root);
    var rest := h[1..];
    assert rest == [("x-dig-root", root)] && rest[1..] == [];
    assert Header(rest[1..], "content-type") == None;
    assert Header(rest, "content-type") == None;
  }

  lemma TrimmedAlready(s: string)
    requires s != [] && Text.Trimmed(s)
    ensures Text.Trim(s) == s
  {}

  lemma NamingAnswer(w: World, u: Urn, root: string)
    requires u.root.None? && root != [] && Text.Trimmed(root)
    ensures Node.ReadReply(w, u, NamingReply(root))
         == Success(Fetched(ResolvedData([1], w.mime(u.key, [1])), Some(root), None))
  {
    hide Header, NamingHeaders;
    NamingHeadersRead(root);
    TrimmedAlready("true");
    TrimmedAlready(root);
  }

  /** A named root under which another URN's lookup falls makes the two disagree: the cache would
      answer with the attested body where the ladder finds nothing. */
  lemma NamingDisagrees(parse: Parser, u: Urn, root: string, v: Urn)
    requires u.root.None? && v.root.Some? && root != [] && Text.Trimmed(root)
    requires CacheId(v, v.root.value) == CacheId(u, root)
    ensures !Agree(NodeConfig(LocalWorld(parse)), Naming(u, root), false, u, v)
  {
    hide CacheId, ServeUrl, LadderAlone, Node.ReadReply, NamingReply, LocalWorld;
    var w, f := LocalWorld(parse), Naming(u, root);
    LocalWorldFacts(parse);
    OneNodeLadder(w, f, u);
    OneNodeLadder(w, f, v);
    NamingAnswer(w, u, root);
    if ServeUrl(LOCALHOST_BASE, u) == ServeUrl(LOCALHOST_BASE, v) {
      ServeUrlInjective(LOCALHOST_BASE, u, v);
    }
    NotHeld(w, v);
    assert Cacheless(NodeConfig(w), f, v) == Failure(NotFound);
    assert LadderAlone(NodeConfig(w), f, u).fetched.value.root == Some(root);
  }

  lemma NotHeld(w: World, u: Urn)
    ensures Node.ReadReply(w, u, Reached(Response(404, [], []))) == Failure(NotFound)
  {}

  /** Any pinned URN together with its rootless form needs the condition, even under one chain label:
      when a node names that root for the rootless form and denies the pinned one, some fair run
      ends in an answer that the ladder would not give. */
  lemma MixedFamilyCanDisagree(parse: Parser, v: Urn) returns (acts: seq<Action>)
    requires v.root.Some?
    ensures var cfg := NodeConfig(LocalWorld(parse));
            var f := Naming(v.(root := None), v.root.value);
            var family: Family := (u: Urn) => u.chain == v.chain;
            && !Coherent(cfg, f, false, family)
            && FairRun(cfg, f, family, Initial(None), acts) && !Cachelike(cfg, f, After(cfg, Initial(None), acts))
  {
    hide CacheId, Agree, FairRun, Cachelike, After;
    var u: Urn := v.(root := None);
    var root := v.root.value;
    SameIdAtRoot(v);
    NamingDisagrees(parse, u, root, v);
    var cfg := NodeConfig(LocalWorld(parse));
    acts := DisagreementShows(cfg, Naming(u, root), (u: Urn) => u.chain == v.chain, None, u, v);
  }

  lemma SameIdAtRoot(v: Urn)
    requires v.root.Some?
    ensures CacheId(v.(root := None), v.root.value) == CacheId(v, v.root.value)
  {}

  // ------------------------------------------------------------------ a root that reaches into the key

  /** Resolve `u`, let the node name `root` for it, then resolve `v`. */
  function NameThenLook(u: Urn, root: string, v: Urn): seq<Action> {
    [Launch(0, u), Deliver(0, NamingReply(root)), Launch(0, v)]
  }

  lemma AfterThree(cfg: Config, s: State, x: Action, y: Action, z: Action)
    ensures After(cfg, s, [x, y, z]) == Do(cfg, Do(cfg, Do(cfg, s, x), y), z)
  {
    hide Do;
    var acts := [x, y, z];
    assert acts[..2] == [x, y] && acts[..2][..1] == [x] && acts[..2][..1][..0] == [];
    assert After(cfg, s, acts[..2][..1]) == Do(cfg, s, x);
    assert After(cfg, s, acts[..2]) == Do(cfg, Do(cfg, s, x), y);
  }

  /** The state once the node has answered for `u`. */
  lemma AfterNaming(parse: Parser, u: Urn, root: string)
    requires u.root.None? && root != [] && Text.Trimmed(root)
    ensures var cfg := NodeConfig(LocalWorld(parse));
            var s := Do(cfg, Do(cfg, Initial(None), Launch(0, u)), Deliver(0, NamingReply(root)));
            var got := Fetched(ResolvedData([1], cfg.w.mime(u.key, [1])), Some(root), None);
            && s.log == [Exchange(Serve(ServeUrl(LOCALHOST_BASE, u)), NamingReply(root))]
            && |s.tasks| == 1 && s.tasks[0].urn == u
            && View(s, 0) == CacheSuccess(cfg, Store([], Some(NODE_PLAN), None), u, got)
  {
    hide CacheSuccess, Node.ReadReply, NamingReply, ServeUrl, LocalWorld, PlanFrom;
    var w := LocalWorld(parse);
    var cfg := NodeConfig(w);
    LocalWorldFacts(parse);
    NodeOnlyPlan(w, Fixed(Naming(u, root)), []);
    NamingAnswer(w, u, root);
    assert Begin(cfg, Store([], None, None), u) == (Store([], Some(NODE_PLAN), None), Serving(NODE_PLAN, 0));
    var s1 := Do(cfg, Initial(None), Launch(0, u));
    assert s1.tasks == [Task(0, u, Serving(NODE_PLAN, 0), [])];
    assert View(s1, 0) == Store([], Some(NODE_PLAN), None);
    assert Deliverable(cfg, s1, 0);
  }

  /** The run that gives the lookup for `v` another resource's bytes: nothing in it backs what it
      returns at `v`'s own root and key. */
  lemma StraddlerServesAnother(parse: Parser, v: Urn) returns (acts: seq<Action>)
    requires v.root.Some? && ColonInside(v.key)
    ensures var cfg := NodeConfig(LocalWorld(parse));
            var s := After(cfg, Initial(None), acts);
            && |s.tasks| == 2 && s.tasks[1].urn == v && SuccessOf(s.tasks[1].at).Some?
            && !BackedAtPin(EvidenceAfter(cfg, None, acts), v, SuccessOf(s.tasks[1].at).value)
  {
    hide CacheId, CacheSuccess, Begin, NamingReply, Straddles, BackedAtPin, LocalWorld, ServeUrl, Resume;
    var w := LocalWorld(parse);
    var cfg := NodeConfig(w);
    LookupSharedExactly(v);
    var root :| Text.Trimmed(root) && Straddles(root, v.root.value, v.key);
    StraddlerNotEmpty(root, v);
    var u := StraddleCollides(root, v);
    acts := NameThenLook(u, root, v);
    AfterThree(cfg, Initial(None), acts[0], acts[1], acts[2]);
    AfterNaming(parse, u, root);
    var got := Fetched(ResolvedData([1], w.mime(u.key, [1])), Some(root), None);
    MemoryAnswers(cfg, NODE_PLAN, None, u, got, v);
    NothingBacks(parse, EvidenceAfter(cfg, None, acts), u, NamingReply(root), v, got.data);
  }

  lemma StraddlerNotEmpty(root: string, v: Urn)
    requires v.root.Some? && Straddles(root, v.root.value, v.key)
    ensures root != []
  {}

  /** In this system only the node on `localhost` can have been asked, and the request shows for what. */
  lemma AskedForThis(parse: Parser, e: Exchange, u: Urn, x: Urn)
    requires e.request == Serve(ServeUrl(LOCALHOST_BASE, u)) && AskedNode(LocalWorld(parse), e, x)
    ensures x.key == u.key
  {
    hide ServeUrl, LocalWorld;
    var w := LocalWorld(parse);
    LocalWorldFacts(parse);
    var base :| IsLoopbackBase(w, base) && e.request == Serve(ServeUrl(base, x));
    ServeUrlInjective(LOCALHOST_BASE, u, x);
  }

  lemma NothingGated(parse: Parser, ev: Evidence, x: Urn, root: string, data: ResolvedData)
    requires ev.w == LocalWorld(parse)
    ensures !Gated(ev, x, root, data)
  {
    hide Known, LocalWorld;
    LocalWorldFacts(parse);
  }

  /** One exchange for `u` is no witness for a URN with another key. */
  lemma NothingBacks(parse: Parser, ev: Evidence, u: Urn, reply: Reply, v: Urn, data: ResolvedData)
    requires v.root.Some? && u.key != v.key && ev.w == LocalWorld(parse)
    requires ev.log == [Exchange(Serve(ServeUrl(LOCALHOST_BASE, u)), reply)]
    ensures !BackedAtPin(ev, v, data)
  {
    hide ServeUrl, Gated, AskedNode, Node.AttestedReply, LocalWorld;
    forall x: Urn | SameResource(v, x)
      ensures !Backed(ev, x, v.root.value, data)
    {
      NothingGated(parse, ev, x, v.root.value, data);
      if AskedNode(ev.w, ev.log[0], x) {
        AskedForThis(parse, ev.log[0], u, x);
      }
    }
  }

  /** The exact condition, over every configuration and every run, however URNs are parsed: a pinned
      URN is only ever answered with its own resource, at its own root, if and only if its key holds
      no colon with text after it and no white space right before it. */
  lemma PinnedIsThatResourceExactly(parse: Parser, v: Urn)
    requires v.root.Some?
    ensures (forall cfg: Config, disk: Option<map<string, Artifacts>>, acts: seq<Action> ::
              cfg.w.parse == parse ==> AlwaysItsOwn(cfg, disk, acts, v))
            <==> !ColonInside(v.key)
  {
    hide ColonInside, BackedAtPin, After;
    if ColonInside(v.key) {
      var acts := StraddlerServesAnother(parse, v);
      assert !AlwaysItsOwn(NodeConfig(LocalWorld(parse)), None, acts, v);
    } else {
      forall cfg: Config, disk: Option<map<string, Artifacts>>, acts: seq<Action>
        ensures AlwaysItsOwn(cfg, disk, acts, v)
      {
        var s := After(cfg, Initial(disk), acts);
        forall t | 0 <= t < |s.tasks| && s.tasks[t].urn == v && SuccessOf(s.tasks[t].at).Some?
          ensures BackedAtPin(EvidenceAfter(cfg, disk, acts), v, SuccessOf(s.tasks[t].at).value)
        {
          PlainKeySuccessIsThatResource(cfg, disk, acts, t);
        }
      }
    }
  }

  /** Every success the run returned for `v` is backed at `v`'s own root, store, key and salt. */
  ghost predicate AlwaysItsOwn(cfg: Config, disk: Option<map<string, Artifacts>>, acts: seq<Action>, v: Urn)
    requires v.root.Some?
  {
    var s := After(cfg, Initial(disk), acts);
    forall t :: 0 <= t < |s.tasks| && s.tasks[t].urn == v && SuccessOf(s.tasks[t].at).Some? ==>
      BackedAtPin(EvidenceAfter(cfg, disk, acts), v, SuccessOf(s.tasks[t].at).value)
  }

  /** The same system breaks transparency: the straddling root and the lookup disagree, so some fair
      run over one chain label ends in an answer that the ladder would not give. */
  lemma ColonKeyCanDisagree(parse: Parser, v: Urn) returns (acts: seq<Action>)
    requires v.root.Some? && ColonInside(v.key)
    ensures exists u: Urn, root: string ::
              NamedRunGoesWrong(parse, u, root, v, acts)
  {
    hide CacheId, Agree, FairRun, Cachelike, After, Straddles, Collides;
    LookupSharedExactly(v);
    var root :| Text.Trimmed(root) && Straddles(root, v.root.value, v.key);
    StraddlerNotEmpty(root, v);
    var u := StraddleCollides(root, v);
    CollidesShares(u, root, v);
    NamingDisagrees(parse, u, root, v);
    var cfg := NodeConfig(LocalWorld(parse));
    acts := DisagreementShows(cfg, Naming(u, root), (x: Urn) => x.chain == v.chain, None, u, v);
    assert NamedRunGoesWrong(parse, u, root, v, acts);
  }

  lemma CollidesShares(u: Urn, root: string, v: Urn)
    requires v.root.Some? && Collides(u, root, v, v.root.value)
    ensures CacheId(v, v.root.value) == CacheId(u, root)
  {}

  /** Over the node that names `root` for the rootless `u`, this is a fair run over the chain label
      of `v`, and not every answer in it is the ladder's. */
  ghost predicate NamedRunGoesWrong(parse: Parser, u: Urn, root: string, v: Urn, acts: seq<Action>) {
    var cfg, f := NodeConfig(LocalWorld(parse)), Naming(u, root);
    && u.root.None? && u.chain == v.chain
    && FairRun(cfg, f, (x: Urn) => x.chain == v.chain, Initial(None), acts)
    && !Cachelike(cfg, f, After(cfg, Initial(None), acts))
  }

  // ------------------------------------------------------------------ two chain labels

  /** The same world, with a gate that opens for one chain label only. */
  function OneChainWorld(parse: Parser, chain: string): World {
    LocalWorld(parse).(
      base64 := text => Some([]),
      gate := (opening: Opening) => if opening.chain == chain then Worlds.Plaintext([1]) else TagRefused)
  }

  const RELAY_HEADERS: seq<(string, string)> := [("x-dig-inclusion-proof", "p")]

  /** A node that relays the same ciphertext whatever is asked. */
  function Relay(request: Request): Reply {
    Reached(Response(200, RELAY_HEADERS, []))
  }

  lemma RelayHeadersRead()
    ensures var h := RELAY_HEADERS;
            && Header(h, "x-dig-inclusion-proof") == Some("p") && Header(h, "x-dig-verified") == None
            && Header(h, "x-dig-encrypted") == None && Header(h, "x-dig-chunk-lens") == None
  {}

  lemma RelayAnswer(parse: Parser, chain: string, u: Urn, request: Request)
    requires u.root.Some? && UsableSalt(u.salt)
    ensures Node.ReadReply(OneChainWorld(parse, chain), u, Relay(request)) ==
              if u.chain == chain then Success(Fetched(ResolvedData([1], ""), u.root, Some(Artifacts([], "p", []))))
              else Failure(DecryptFailed)
  {
    hide Header;
    RelayHeadersRead();
    HexColonFree(u.root.value);
    HexTrimmed(u.root.value);
    TrimmedAlready(u.root.value);
    if u.salt.Some? {
      HexTrimmed(u.salt.value);
      TrimmedAlready(u.salt.value);
    }
  }

  lemma HexTrimmed(s: string)
    requires Text.IsHex(s)
    ensures Text.Trimmed(s)
  {}

  /** Two labels for one pinned URN disagree, when the gate can be reached at all: the identity omits
      the label, the decryption key does not. */
  lemma RelayDisagrees(parse: Parser, u: Urn, v: Urn)
    requires u.root.Some? && UsableSalt(u.salt) && u.chain != v.chain && v == u.(chain := v.chain)
    ensures !Agree(NodeConfig(OneChainWorld(parse, u.chain)), Relay, false, u, v)
  {
    hide LadderAlone, Relay, Node.ReadReply, OneChainWorld, ServeUrl, CacheId;
    var w := OneChainWorld(parse, u.chain);
    OneChainIsLocal(parse, u.chain);
    OneNodeLadder(w, Relay, u);
    OneNodeLadder(w, Relay, v);
    RelayAnswer(parse, u.chain, u, Serve(ServeUrl(LOCALHOST_BASE, u)));
    RelayAnswer(parse, u.chain, v, Serve(ServeUrl(LOCALHOST_BASE, v)));
    ChainsShareId(u, v.chain, u.root.value);
    assert Cacheless(NodeConfig(w), Relay, v) == Success(IntegrityFailure);
  }

  /** So for any pinned URN whose salt is absent or 64 hex digits, and any second label, some fair run
      over pinned URNs ends in an answer that the ladder would not give. */
  lemma TwoChainsCanDisagree(parse: Parser, u: Urn, chain: string) returns (acts: seq<Action>)
    requires u.root.Some? && UsableSalt(u.salt) && chain != [] && chain != u.chain
    ensures var cfg := NodeConfig(OneChainWorld(parse, u.chain));
            var family: Family := (v: Urn) => v.root.Some?;
            && !Coherent(cfg, Relay, false, family)
            && FairRun(cfg, Relay, family, Initial(None), acts)
            && !Cachelike(cfg, Relay, After(cfg, Initial(None), acts))
  {
    hide Agree, OneChainWorld, FairRun, Cachelike, After;
    var v: Urn := u.(chain := chain);
    RelayDisagrees(parse, u, v);
    acts := DisagreementShows(NodeConfig(OneChainWorld(parse, u.chain)), Relay, (x: Urn) => x.root.Some?, None, u, v);
  }

  lemma OneChainIsLocal(parse: Parser, chain: string)
    ensures LocalOnly(OneChainWorld(parse, chain))
  {}
}
