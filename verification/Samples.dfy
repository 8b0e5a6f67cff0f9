/** One small system, for the inputs at which a documented property fails: the node on `localhost` is
    the only loopback host in reach, and the cache bounds are the resolver's own. */
module Samples {
  import opened Wrappers
  import opened Types
  import opened Net
  import opened Worlds
  import opened Ladder
  import opened Resolving
  import opened Cache
  import Text

  type Parser = string -> Option<Urn>

  /** However URNs are parsed. */
  function LocalWorld(parse: Parser): World {
    World(
      parse,
      base => if base == LOCALHOST_BASE then Some("localhost") else None,
      host => None,
      false,
      text => None,
      body => Envelope(false, Matches(GetContent(0, None, None, None, None, None))),
      (chain, store, key) => "",
      opening => GateRefused,
      (key, bytes) => "")
  }

  function LocalConfig(w: World, endpoint: Option<string>): Config {
    Config(w, endpoint, DEFAULT_MEMORY_ENTRIES, DEFAULT_MEMORY_BYTES)
  }

  /** Only the node on `localhost` is in reach. */
  ghost predicate LocalOnly(w: World) {
    w.host(LOCALHOST_BASE) == Some("localhost") && w.host(DIG_LOCAL_BASE) == None
  }

  /** What the system is, at a glance: gateways have nothing, and the gate opens nothing. */
  lemma LocalWorldFacts(parse: Parser)
    ensures var w := LocalWorld(parse);
            && LocalOnly(w) && (forall base :: w.host(base).Some? ==> base == LOCALHOST_BASE)
            && (forall body :: w.envelope(body)
                  == Envelope(false, Matches(GetContent(0, None, None, None, None, None))))
            && (forall opening :: w.gate(opening) == GateRefused)
  {}

  lemma LocalhostIsLoopback(w: World)
    requires LocalOnly(w)
    ensures IsLoopbackBase(w, LOCALHOST_BASE) && !IsLoopbackBase(w, DIG_LOCAL_BASE)
  {}

  /** With the node as the override it is the whole plan. */
  lemma NodeOnlyPlan(w: World, a: Adversary, log: seq<Exchange>)
    requires LocalOnly(w)
    ensures PlanSpec(w, Some(LOCALHOST_BASE), a, log) == Planned([Endpoint(LOCALHOST_BASE, NodeKind)], log)
  {
    hide IsLoopbackBase;
    LocalhostIsLoopback(w);
    assert Text.TrimSlashes(LOCALHOST_BASE) == LOCALHOST_BASE;
  }

  /** Without an override and with the node healthy, the node and then the gateway. */
  lemma LadderPlan(w: World, f: Request -> Reply)
    requires LocalOnly(w) && HealthOk(f(Health(HealthUrl(LOCALHOST_BASE))))
    ensures PlanSpec(w, None, Fixed(f), []).plan == NodePlan(1)
  {
    hide IsLoopbackBase, HealthUrl;
    LocalhostIsLoopback(w);
    assert CANDIDATES[0] == DIG_LOCAL_BASE && CANDIDATES[1] == LOCALHOST_BASE;
    assert PlanFrom(w, Fixed(f), [], 0) == PlanFrom(w, Fixed(f), [], 1);
  }
}
