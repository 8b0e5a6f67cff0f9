/** What goes over the wire, spelled out: the literal bases and paths, whom they may reach, and what is
    asked there, in every reachable state. */
module Wire {
  import opened Wrappers
  import opened Types
  import opened Net
  import opened Worlds
  import opened Ladder
  import opened Resolving
  import opened Machine
  import opened Confinement
  import Identity
  import Rpc
  import Text

  /** `base` is `text` with the slashes at its end taken off. */
  predicate SlashesOff(text: string, base: string) {
    && base <= text && (base != [] ==> base[|base| - 1] != '/')
    && forall i :: |base| <= i < |text| ==> text[i] == '/'
  }

  lemma SlashesOffOnce(text: string, base: string)
    ensures SlashesOff(text, base) <==> base == Text.TrimSlashes(text)
  {
    var trimmed := Text.TrimSlashes(text);
    if SlashesOff(text, base) {
      assert |trimmed| > 0 ==> text[|trimmed| - 1] != '/';
      assert |base| > 0 ==> text[|base| - 1] != '/';
      assert |base| == |trimmed|;
    }
  }

  const NODE_BASES: seq<string> := ["http://dig.local:9778", "http://localhost:9778"]

  const GATEWAY: string := "https://rpc.dig.net"

  predicate Healthy(reply: Reply) {
    reply.Reached? && 200 <= reply.response.status <= 299
  }

  /** Some probe of that base was answered with success. */
  predicate ProbedHealthy(log: seq<Exchange>, base: string) {
    exists i :: 0 <= i < |log| && log[i].request == Health(base + "/health") && Healthy(log[i].reply)
  }

  /** Where a node's content may be asked for: at the override alone when there is one, and else at one
      of the two local bases once its probe was answered. */
  predicate NodeBase(cfg: Config, log: seq<Exchange>, base: string) {
    match cfg.endpoint
    case Some(text) => SlashesOff(text, base)
    case None => base in NODE_BASES && ProbedHealthy(log, base)
  }

  predicate GatewayBase(cfg: Config, base: string) {
    match cfg.endpoint
    case Some(text) => SlashesOff(text, base)
    case None => base == GATEWAY
  }

  /** One request made for `u`, spelled out. Probes and content go to loopback hosts; posts with an
      override go to a host that is none. */
  ghost predicate Spelled(cfg: Config, log: seq<Exchange>, u: Urn, request: Request) {
    match request
    case Health(url) => cfg.endpoint.None? && exists base :: base in NODE_BASES && ProbeOf(cfg.w, base, url)
    case Serve(url) => exists base :: NodeBase(cfg, log, base) && ContentOf(cfg.w, u, base, url)
    case Content(url, params) =>
      && GatewayBase(cfg, url) && (cfg.endpoint.Some? ==> !NamesLoopback(cfg.w, url))
      && params.store == u.store && Some(params.root) == u.root
      && params.contentKey == cfg.w.contentKey(u.chain, u.store, u.key)
      && params.length == 3_145_728
  }

  ghost predicate ProbeOf(w: World, base: string, url: string) {
    NamesLoopback(w, base) && url == base + "/health"
  }

  /** The store, the pinned root after a colon when there is one, and the key, below `/s/`. */
  ghost predicate ContentOf(w: World, u: Urn, base: string, url: string) {
    && NamesLoopback(w, base)
    && url == if u.root.Some? then base + "/s/" + u.store + ":" + u.root.value + "/" + u.key
              else base + "/s/" + u.store + "/" + u.key
  }

  lemma ServeSpelled(base: string, u: Urn)
    ensures Identity.ServeUrl(base, u) ==
              if u.root.Some? then base + "/s/" + u.store + ":" + u.root.value + "/" + u.key
              else base + "/s/" + u.store + "/" + u.key
  {
    var store := if u.root.Some? then u.store + ":" + u.root.value else u.store;
    assert base + "/s/" + store + "/" + u.key == (base + "/s/") + (store + ['/'] + u.key);
    if u.root.Some? {
      assert base + "/s/" + u.store + ":" + u.root.value == base + "/s/" + store;
    }
  }

  lemma ConfinedSpelled(cfg: Config, log: seq<Exchange>, u: Urn, request: Request)
    requires Confined(cfg, log, u, request)
    ensures Spelled(cfg, log, u, request)
  {
    hide NamesLoopback, IsLoopbackBase, Identity.ServeUrl;
    assert CANDIDATES == NODE_BASES && RPC_DEFAULT_BASE == GATEWAY;
    if cfg.endpoint.Some? {
      var base := Text.TrimSlashes(cfg.endpoint.value);
      SlashesOffOnce(cfg.endpoint.value, base);
      LoopbackExactly(cfg.w, base);
      ServeSpelled(base, u);
      if IsLoopbackBase(cfg.w, base) {
        assert NodeBase(cfg, log, base) && ContentOf(cfg.w, u, base, request.url);
      }
    } else if !Rpc.IsPost(cfg.w, u, RPC_DEFAULT_BASE, request) {
      var k :| 0 <= k < |CANDIDATES| && IsLoopbackBase(cfg.w, CANDIDATES[k]) && ToCandidate(log, u, k, request);
      CandidateSpelled(cfg, log, u, k, request);
    }
  }

  lemma CandidateSpelled(cfg: Config, log: seq<Exchange>, u: Urn, k: nat, request: Request)
    requires cfg.endpoint.None? && k < |CANDIDATES| && IsLoopbackBase(cfg.w, CANDIDATES[k])
    requires ToCandidate(log, u, k, request)
    ensures Spelled(cfg, log, u, request)
  {
    hide NamesLoopback, IsLoopbackBase, Identity.ServeUrl;
    var base := CANDIDATES[k];
    assert CANDIDATES == NODE_BASES && base in NODE_BASES;
    LoopbackExactly(cfg.w, base);
    ServeSpelled(base, u);
    if request.Health? {
      assert ProbeOf(cfg.w, base, request.url);
    } else {
      assert NodeBase(cfg, log, base) && ContentOf(cfg.w, u, base, request.url);
    }
  }

  /** The exchange was made for some resolve, and is spelled out for its URN. */
  ghost predicate SpelledFor(cfg: Config, s: State, e: Exchange) {
    exists t :: 0 <= t < |s.tasks| && e in s.tasks[t].trace && Spelled(cfg, s.log, s.tasks[t].urn, e.request)
  }

  /** Over every interleaved run, whatever is replied and whoever rewrites the disk. */
  lemma EveryRequestSpelled(cfg: Config, disk: Option<map<string, Artifacts>>, acts: seq<Action>)
    ensures var s := After(cfg, Initial(disk), acts);
            forall e :: e in s.log ==> SpelledFor(cfg, s, e)
  {
    hide Do, Confined, Spelled, AllWait, ShapedPlan;
    EveryRequestConfined(cfg, disk, acts);
    var s := After(cfg, Initial(disk), acts);
    forall e | e in s.log ensures SpelledFor(cfg, s, e) {
      assert Owned(s, e);
      var t :| 0 <= t < |s.tasks| && e in s.tasks[t].trace;
      assert TaskConfined(cfg, s.log, s.tasks[t]);
      ConfinedSpelled(cfg, s.log, s.tasks[t].urn, e.request);
    }
  }

  // ------------------------------------------------------------------ the plan

  /** A local base that may be planned, over a transport that is a fixed function of the request. */
  ghost predicate Usable(w: World, f: Request -> Reply, base: string) {
    NamesLoopback(w, base) && Healthy(f(Health(base + "/health")))
  }

  /** The plan, spelled out, both ways: an override alone, as a node exactly when it names a loopback
      host; else the first usable local base and then the gateway, or the gateway alone. */
  lemma PlanSpelled(w: World, endpoint: Option<string>, f: Request -> Reply, log: seq<Exchange>)
    ensures var plan := PlanSpec(w, endpoint, Fixed(f), log).plan;
            && (endpoint.Some? ==>
                  && |plan| == 1 && SlashesOff(endpoint.value, plan[0].base)
                  && (plan[0].kind.NodeKind? <==> NamesLoopback(w, plan[0].base)))
            && (endpoint.None? ==>
                  plan == (if Usable(w, f, "http://dig.local:9778")
                           then [Endpoint("http://dig.local:9778", NodeKind), Endpoint("https://rpc.dig.net", RpcKind)]
                           else if Usable(w, f, "http://localhost:9778")
                           then [Endpoint("http://localhost:9778", NodeKind), Endpoint("https://rpc.dig.net", RpcKind)]
                           else [Endpoint("https://rpc.dig.net", RpcKind)]))
  {
    hide NamesLoopback, IsLoopbackBase;
    if endpoint.Some? {
      SlashesOffOnce(endpoint.value, Text.TrimSlashes(endpoint.value));
      LoopbackExactly(w, Text.TrimSlashes(endpoint.value));
    } else {
      assert CANDIDATES == NODE_BASES && RPC_DEFAULT_BASE == GATEWAY;
      LoopbackExactly(w, NODE_BASES[0]);
      LoopbackExactly(w, NODE_BASES[1]);
      assert HealthUrl(NODE_BASES[0]) == NODE_BASES[0] + "/health";
      assert HealthUrl(NODE_BASES[1]) == NODE_BASES[1] + "/health";
      var log' := log + [Exchange(Health(HealthUrl(NODE_BASES[0])), f(Health(HealthUrl(NODE_BASES[0]))))];
      SecondSpelled(w, f, log);
      SecondSpelled(w, f, log');
    }
  }

  lemma SecondSpelled(w: World, f: Request -> Reply, log: seq<Exchange>)
    ensures PlanFrom(w, Fixed(f), log, 1).plan ==
              if Usable(w, f, "http://localhost:9778") then NodePlan(1) else GATEWAY_PLAN
  {
    hide NamesLoopback, IsLoopbackBase;
    assert CANDIDATES[1] == "http://localhost:9778";
    LoopbackExactly(w, CANDIDATES[1]);
    assert HealthUrl(CANDIDATES[1]) == CANDIDATES[1] + "/health";
  }
}
