/** Which families of URNs can be cached without anyone noticing, whatever the configuration, the
    transport and the interleaving: a condition on the URNs alone. */
module Families {
  import opened Wrappers
  import opened Text
  import opened Types
  import opened Net
  import opened Worlds
  import opened Identity
  import opened Ladder
  import opened Resolving
  import opened Machine
  import opened Transparency
  import opened Exactness
  import opened Samples
  import opened Disagreement
  import Node
  import Rpc

  /** `key` ends in `rest`, after a colon that has no white space right before it. */
  predicate EndsAfterColon(key: string, rest: string) {
    exists i :: 0 <= i < |key| && key[i] == ':' && key[i + 1..] == rest && (i == 0 || !IsSpace(key[i - 1]))
  }

  predicate SameStoreAndSalt(u: Urn, v: Urn) {
    u.store == v.store && u.salt == v.salt
  }

  /** What is kept for `u` can be found by `v` and be wrong for it: they are one pinned URN under two
      chain labels, with a salt the gate accepts; or `u` is rootless and its key is that of the pinned
      `v`, or what is left of it after a colon. */
  predicate Clash(u: Urn, v: Urn) {
    && v.root.Some? && SameStoreAndSalt(u, v)
    && (if u.root.Some?
        then u.root == v.root && u.key == v.key && u.chain != v.chain && UsableSalt(u.salt)
        else u.key == v.key || EndsAfterColon(v.key, u.key))
  }

  // ------------------------------------------------------------------ no clash, no disagreement

  /** For a rootless URN a tier's root is text that a node named: trimmed and not empty. */
  lemma TierNames(w: World, a: Adversary, log: seq<Exchange>, u: Urn, ep: Endpoint)
    requires u.root.None?
    ensures var r := TierFetch(w, a, log, u, ep).result;
            r.Success? && r.value.root.Some? ==> r.value.root.value != [] && Trimmed(r.value.root.value)
  {
    hide Trim, Node.AttestedReply, Node.Carries, VerifyAndDecrypt, ServeUrl;
    if ep.kind.NodeKind? {
      var reply := a(log, Serve(ServeUrl(ep.base, u)));
      Node.AcceptedExactly(w, u, reply);
      if Node.ReadReply(w, u, reply).Success? && Header(reply.response.headers, "x-dig-root").Some? {
        var left, right := TrimDecomposes(Header(reply.response.headers, "x-dig-root").value);
      }
    }
  }

  lemma {:induction false} WalkNames(w: World, a: Adversary, log: seq<Exchange>, u: Urn, plan: seq<Endpoint>, i: nat)
    requires u.root.None?
    ensures var got := Walk(w, a, log, u, plan, i).fetched;
            got.Some? && got.value.root.Some? ==> got.value.root.value != [] && Trimmed(got.value.root.value)
    decreases |plan| - i
  {
    hide TierFetch, Trimmed;
    if i >= |plan| {
    } else {
      var answer := TierFetch(w, a, log, u, plan[i]);
      TierNames(w, a, log, u, plan[i]);
      if FallsThrough(answer.result) {
        WalkNames(w, a, answer.log, u, plan, i + 1);
      }
    }
  }

  /** Where a node-named root leads to another lookup's identity, the two URNs clash. */
  lemma CollisionClashes(u: Urn, root: string, v: Urn)
    requires u.root.None? && v.root.Some? && Trimmed(root) && Collides(u, root, v, v.root.value)
    ensures Clash(u, v)
  {
    hide CacheId;
    var x := CollisionShape(u, root, v);
    var i := |x|;
    assert v.key[i] == ':' && v.key[i + 1..] == u.key;
    assert i > 0 ==> v.key[i - 1] == root[|root| - 1];
  }

  /** A rootless URN that does not clash is kept nowhere that `v` looks. */
  lemma RootlessApart(u: Urn, root: string, v: Urn)
    requires u.root.None? && v.root.Some? && !Clash(u, v) && root != [] && Trimmed(root)
    ensures CacheId(v, v.root.value) != CacheId(u, root)
  {
    hide CacheId, EndsAfterColon;
    if Collides(u, root, v, v.root.value) {
      CollisionClashes(u, root, v);
    }
  }

  // ------------------------------------------------------------------ a salt that no gate accepts

  /** With such a salt only an attested reply counts, and it is the same under every label. */
  lemma SameReply(w: World, u: Urn, chain: string, reply: Reply)
    requires !UsableSalt(u.salt) && chain != []
    ensures Node.ReadReply(w, u, reply) == Node.ReadReply(w, u.(chain := chain), reply)
    ensures Node.ReadReply(w, u, reply).Success? ==> Node.ReadReply(w, u, reply).value.artifacts.None?
  {
    hide Header, Trim, VerifyAndDecrypt, UsableSalt;
    forall art: Artifacts, root: string
      ensures VerifyAndDecrypt(w, u, art, root) == VerifyAndDecrypt(w, u.(chain := chain), art, root) == Failure(Parse)
    {
      UnusableSaltRefused(w, u, art, root);
      UnusableSaltRefused(w, u.(chain := chain), art, root);
    }
  }

  lemma GatewayRefuses(w: World, a: Adversary, log: seq<Exchange>, u: Urn, ep: Endpoint)
    requires !UsableSalt(u.salt) && ep.kind.RpcKind?
    ensures TierFetch(w, a, log, u, ep).result.Failure?
  {
    hide VerifyAndDecrypt, Rpc.Drain, UsableSalt;
    forall art: Artifacts, root: string ensures VerifyAndDecrypt(w, u, art, root) == Failure(Parse) {
      UnusableSaltRefused(w, u, art, root);
    }
  }

  lemma {:induction false} GatewaysRefuse(w: World, a: Adversary, log: seq<Exchange>, u: Urn, plan: seq<Endpoint>,
                                          i: nat)
    requires !UsableSalt(u.salt) && forall k :: i <= k < |plan| ==> plan[k].kind.RpcKind?
    ensures Walk(w, a, log, u, plan, i).fetched.None?
    decreases |plan| - i
  {
    hide TierFetch, UsableSalt;
    if i >= |plan| {
    } else {
      var answer := TierFetch(w, a, log, u, plan[i]);
      GatewayRefuses(w, a, log, u, plan[i]);
      GatewaysRefuse(w, a, answer.log, u, plan, i + 1);
    }
  }

  /** So what the ladder yields, it yields from a node at its head, under every label alike. */
  lemma SameWalk(w: World, a: Adversary, log: seq<Exchange>, u: Urn, chain: string, plan: seq<Endpoint>)
    requires !UsableSalt(u.salt) && chain != []
    requires plan != [] && forall k :: 1 <= k < |plan| ==> plan[k].kind.RpcKind?
    requires Walk(w, a, log, u, plan, 0).fetched.Some?
    ensures var v, v' := Walk(w, a, log, u, plan, 0), Walk(w, a, log, u.(chain := chain), plan, 0);
            v.fetched == v'.fetched && v'.resolution == Success(Resolved(v.fetched.value.data))
    ensures Walk(w, a, log, u, plan, 0).fetched.value.artifacts.None?
  {
    hide Node.ReadReply, UsableSalt, Rpc.FetchSpec;
    var ep := plan[0];
    var answer := TierFetch(w, a, log, u, ep);
    if ep.kind.RpcKind? {
      GatewaysRefuse(w, a, log, u, plan, 0);
    } else {
      SameReply(w, u, chain, a(log, Serve(ServeUrl(ep.base, u))));
      assert ServeUrl(ep.base, u) == ServeUrl(ep.base, u.(chain := chain));
      if answer.result.Failure? {
        GatewaysRefuse(w, a, answer.log, u, plan, 1);
      }
    }
  }

  lemma PlanHead(cfg: Config, f: Request -> Reply)
    ensures var plan := PlanSpec(cfg.w, cfg.endpoint, Fixed(f), []).plan;
            plan != [] && forall k :: 1 <= k < |plan| ==> plan[k].kind.RpcKind?
  {
    hide PlanSpec, IsLoopbackBase, Answered;
    var probes := PlanIsShaped(cfg.w, cfg.endpoint, Fixed(f), []);
  }

  lemma UnusableSaltAgrees(cfg: Config, f: Request -> Reply, hasDisk: bool, u: Urn, chain: string)
    requires u.root.Some? && !UsableSalt(u.salt) && chain != []
    ensures Agree(cfg, f, hasDisk, u, u.(chain := chain))
  {
    hide Walk, PlanSpec, VerifyAndDecrypt, CacheId, UsableSalt;
    if LadderAlone(cfg, f, u).fetched.Some? {
      var p := PlanSpec(cfg.w, cfg.endpoint, Fixed(f), []);
      PlanHead(cfg, f);
      SameWalk(cfg.w, Fixed(f), p.log, u, chain, p.plan);
    }
  }

  /** Without a clash two URNs agree, over every transport and configuration. */
  lemma NoClashAgrees(cfg: Config, f: Request -> Reply, hasDisk: bool, u: Urn, v: Urn)
    requires !Clash(u, v)
    ensures Agree(cfg, f, hasDisk, u, v)
  {
    hide LadderAlone, Cacheless, OpenAnswer, CacheId, UsableSalt, EndsAfterColon;
    var got := LadderAlone(cfg, f, u).fetched;
    if got.Some? && got.value.root.Some? && v.root.Some?
      && CacheId(v, v.root.value) == CacheId(u, got.value.root.value)
    {
      var root := got.value.root.value;
      if u.root.None? {
        LadderNames(cfg, f, u);
        RootlessApart(u, root, v);
      } else {
        LadderFetched(cfg, f, u);
        HexColonFree(u.root.value);
        HexColonFree(v.root.value);
        CacheIdInjective(v, v.root.value, u, root);
        assert v == u.(chain := v.chain);
        if u.chain != v.chain {
          UnusableSaltAgrees(cfg, f, hasDisk, u, v.chain);
        } else {
          OwnAgrees(cfg, f, hasDisk, u);
        }
      }
    }
  }

  lemma LadderNames(cfg: Config, f: Request -> Reply, u: Urn)
    requires u.root.None?
    ensures var got := LadderAlone(cfg, f, u).fetched;
            got.Some? && got.value.root.Some? ==> got.value.root.value != [] && Trimmed(got.value.root.value)
  {
    hide Walk, PlanSpec;
    var p := PlanSpec(cfg.w, cfg.endpoint, Fixed(f), []);
    WalkNames(cfg.w, Fixed(f), p.log, u, p.plan, 0);
  }

  lemma OwnAgrees(cfg: Config, f: Request -> Reply, hasDisk: bool, u: Urn)
    requires u.root.Some?
    ensures Agree(cfg, f, hasDisk, u, u)
  {
    hide LadderAlone, CacheId, VerifyAndDecrypt;
    LadderFetched(cfg, f, u);
  }

  // ------------------------------------------------------------------ a clash shows

  lemma GluedTrimmed(pin: string, x: string)
    requires IsHex64(pin) && (x == [] || !IsSpace(x[|x| - 1]))
    ensures pin + [':'] + x != [] && Trimmed(pin + [':'] + x)
  {
    var root := pin + [':'] + x;
    assert root[0] == pin[0] && root[|root| - 1] == if x == [] then ':' else x[|x| - 1];
  }

  lemma GluedId(u: Urn, x: string, v: Urn)
    requires v.root.Some? && SameStoreAndSalt(u, v) && v.key == x + [':'] + u.key
    ensures CacheId(v, v.root.value) == CacheId(u, v.root.value + [':'] + x)
  {
    SplicedId(v.store, v.root.value, x, u.key, v.salt);
  }

  lemma BeforeColon(key: string, rest: string) returns (x: string)
    requires EndsAfterColon(key, rest)
    ensures key == x + [':'] + rest && (x == [] || !IsSpace(x[|x| - 1]))
  {
    var i :| 0 <= i < |key| && key[i] == ':' && key[i + 1..] == rest && (i == 0 || !IsSpace(key[i - 1]));
    x := key[..i];
    CutAround(key, i);
  }

  /** The root by which a clashing rootless URN is kept where `v` looks. */
  lemma ClashingRoot(u: Urn, v: Urn) returns (root: string)
    requires Clash(u, v) && u.root.None?
    ensures root != [] && Trimmed(root) && CacheId(v, v.root.value) == CacheId(u, root)
  {
    hide Trimmed, CacheId, EndsAfterColon;
    var pin := v.root.value;
    if u.key == v.key {
      root := pin;
      HexTrimmed(pin);
      SameKeyId(u, v);
    } else {
      var x := BeforeColon(v.key, u.key);
      root := pin + [':'] + x;
      GluedId(u, x, v);
      GluedTrimmed(pin, x);
    }
  }

  lemma SameKeyId(u: Urn, v: Urn)
    requires v.root.Some? && SameStoreAndSalt(u, v) && u.key == v.key
    ensures CacheId(v, v.root.value) == CacheId(u, v.root.value)
  {}

  /** However URNs are parsed, two clashing URNs give a fair run with a wrong answer. */
  lemma ClashShows(parse: Parser, family: Family, u: Urn, v: Urn)
    returns (cfg: Config, f: Request -> Reply, acts: seq<Action>)
    requires family(u) && family(v) && Clash(u, v)
    ensures cfg.w.parse == parse && !TransparentRun(cfg, f, family, None, acts)
  {
    hide Agree, FairRun, Cachelike, After, CacheId, UsableSalt;
    if u.root.None? {
      var root := ClashingRoot(u, v);
      cfg, f := NodeConfig(LocalWorld(parse)), Naming(u, root);
      NamingDisagrees(parse, u, root, v);
    } else {
      assert v == u.(chain := v.chain);
      cfg, f := NodeConfig(OneChainWorld(parse, u.chain)), Relay;
      RelayDisagrees(parse, u, v);
    }
    acts := DisagreementShows(cfg, f, family, None, u, v);
  }

  // ------------------------------------------------------------------ exactly which families

  /** If the disk starts empty and the run is a fair one over the family, every finished resolve in it
      has the outcome that the ladder alone gives. */
  ghost predicate TransparentRun(cfg: Config, f: Request -> Reply, family: Family, disk: Option<map<string, Artifacts>>,
                                 acts: seq<Action>)
  {
    (disk.Some? ==> disk.value == map[]) && FairRun(cfg, f, family, Initial(disk), acts) ==>
      Cachelike(cfg, f, After(cfg, Initial(disk), acts))
  }

  /** The exact condition on a family, whatever parses URNs: over every configuration, every transport
      and every fair run caching changes no answer, if and only if no two of its URNs clash. */
  lemma FamilyExactly(parse: Parser, family: Family)
    ensures (forall cfg: Config, f: Request -> Reply, disk: Option<map<string, Artifacts>>, acts: seq<Action> ::
              cfg.w.parse == parse ==> TransparentRun(cfg, f, family, disk, acts))
            <==> (forall u: Urn, v: Urn :: family(u) && family(v) ==> !Clash(u, v))
  {
    hide Agree, FairRun, Cachelike, After, Clash, TransparentRun;
    if u: Urn, v: Urn :| family(u) && family(v) && Clash(u, v) {
      var cfg, f, acts := ClashShows(parse, family, u, v);
    } else {
      forall cfg: Config, f: Request -> Reply, disk: Option<map<string, Artifacts>>, acts: seq<Action>
        ensures TransparentRun(cfg, f, family, disk, acts)
      {
        ClashFreeRun(cfg, f, family, disk, acts);
      }
    }
  }

  lemma ClashFreeRun(cfg: Config, f: Request -> Reply, family: Family, disk: Option<map<string, Artifacts>>,
                     acts: seq<Action>)
    requires forall u: Urn, v: Urn :: family(u) && family(v) ==> !Clash(u, v)
    ensures TransparentRun(cfg, f, family, disk, acts)
  {
    hide Agree, FairRun, Cachelike, After, Clash;
    forall u: Urn, v: Urn | family(u) && family(v) ensures Agree(cfg, f, disk.Some?, u, v) {
      NoClashAgrees(cfg, f, disk.Some?, u, v);
    }
    if (disk.Some? ==> disk.value == map[]) && FairRun(cfg, f, family, Initial(disk), acts) {
      CoherentIsTransparent(cfg, f, family, disk, acts);
    }
  }
}
