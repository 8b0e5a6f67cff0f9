/** The connection ladder: which endpoints are tried, in which order, and which of them may be
    trusted to hand over plaintext. */
module Ladder {
  import opened Wrappers
  import opened Text
  import opened Types
  import opened Net
  import opened Worlds

  const DIG_LOCAL_BASE := "http://dig.local:9778"
  const LOCALHOST_BASE := "http://localhost:9778"
  const RPC_DEFAULT_BASE := "https://rpc.dig.net"

  const CANDIDATES: seq<string> := [DIG_LOCAL_BASE, LOCALHOST_BASE]

  datatype EndpointKind = NodeKind | RpcKind

  datatype Endpoint = Endpoint(base: string, kind: EndpointKind)

  function TrimOpening(s: string): string {
    if s != [] && s[0] == '[' then TrimOpening(s[1..]) else s
  }

  function TrimClosing(s: string): string {
    if s != [] && s[|s| - 1] == ']' then TrimClosing(s[..|s| - 1]) else s
  }

  /** `localhost`, a loopback address literal, or `dig.local` when it resolves to loopback. */
  predicate IsLoopbackHost(w: World, host: string) {
    var h := Lower(TrimClosing(TrimOpening(Trim(host))));
    if h == "localhost" then true
    else
      match w.loopbackIp(h)
      case Some(loopback) => loopback
      case None => h == "dig.local" && w.digLocalIsLoopback
  }

  predicate IsLoopbackBase(w: World, base: string) {
    match w.host(base)
    case None => false
    case Some(h) => IsLoopbackHost(w, h)
  }

  /** `core` is what is left of a host once white space, opening brackets before and closing brackets
      after it are taken off. */
  ghost predicate BareHost(host: string, core: string) {
    && (core != [] ==> core[0] != '[' && core[|core| - 1] != ']')
    && exists opening: nat, closing: nat :: Trim(host) == Repeat('[', opening) + core + Repeat(']', closing)
  }

  function Repeat(c: char, n: nat): (s: string)
    ensures |s| == n && forall i :: 0 <= i < n ==> s[i] == c
  {
    seq(n, i => c)
  }

  lemma {:induction false} OpeningTaken(s: string) returns (n: nat)
    ensures s == Repeat('[', n) + TrimOpening(s)
    ensures TrimOpening(s) != [] ==> TrimOpening(s)[0] != '['
  {
    if s == [] || s[0] != '[' {
      n := 0;
    } else {
      n := OpeningTaken(s[1..]);
      n := n + 1;
    }
  }

  lemma {:induction false} ClosingTaken(s: string) returns (n: nat)
    ensures s == TrimClosing(s) + Repeat(']', n)
    ensures TrimClosing(s) != [] ==> TrimClosing(s)[|TrimClosing(s)| - 1] != ']'
  {
    if s == [] || s[|s| - 1] != ']' {
      n := 0;
    } else {
      n := ClosingTaken(s[..|s| - 1]);
      n := n + 1;
    }
  }

  lemma BareHostFound(host: string)
    ensures BareHost(host, TrimClosing(TrimOpening(Trim(host))))
  {
    hide Trim, TrimOpening, TrimClosing, Repeat;
    var h := Trim(host);
    var tail := TrimOpening(h);
    var opening := OpeningTaken(h);
    var closing := ClosingTaken(tail);
    var core := TrimClosing(tail);
    Between(Repeat('[', opening), tail, core, Repeat(']', closing));
    assert h == Repeat('[', opening) + core + Repeat(']', closing);
  }

  lemma Between(front: string, middle: string, core: string, back: string)
    requires middle == core + back
    ensures front + middle == front + core + back
    ensures core != [] ==> core[0] == middle[0]
  {}

  lemma {:induction false} OpeningGoes(n: nat, rest: string)
    requires rest != [] ==> rest[0] != '['
    ensures TrimOpening(Repeat('[', n) + rest) == rest
  {
    if n == 0 {
      assert Repeat('[', n) + rest == rest;
    } else {
      assert (Repeat('[', n) + rest)[1..] == Repeat('[', n - 1) + rest;
      OpeningGoes(n - 1, rest);
    }
  }

  lemma {:induction false} ClosingGoes(rest: string, n: nat)
    requires rest != [] ==> rest[|rest| - 1] != ']'
    ensures TrimClosing(rest + Repeat(']', n)) == rest
  {
    if n == 0 {
      assert rest + Repeat(']', n) == rest;
    } else {
      var s := rest + Repeat(']', n);
      assert s[..|s| - 1] == rest + Repeat(']', n - 1);
      ClosingGoes(rest, n - 1);
    }
  }

  lemma BareHostOnce(host: string, core: string)
    requires BareHost(host, core)
    ensures core == TrimClosing(TrimOpening(Trim(host)))
  {
    hide Trim;
    var opening: nat, closing: nat :| Trim(host) == Repeat('[', opening) + core + Repeat(']', closing);
    assert Trim(host) == Repeat('[', opening) + (core + Repeat(']', closing));
    OpeningGoes(opening, core + Repeat(']', closing));
    ClosingGoes(core, closing);
  }

  /** Which bases are trusted as nodes, spelled out. The host is taken bare and in lower case. Then it
      is `localhost`; or an address, and a loopback one; or no address but `dig.local`, and that
      resolves to loopback. */
  ghost predicate NamesLoopback(w: World, base: string) {
    exists host: string, core: string ::
      w.host(base) == Some(host) && BareHost(host, core) && LoopbackName(w, Lower(core))
  }

  predicate LoopbackName(w: World, name: string) {
    || name == "localhost"
    || w.loopbackIp(name) == Some(true)
    || (w.loopbackIp(name) == None && name == "dig.local" && w.digLocalIsLoopback)
  }

  lemma LoopbackExactly(w: World, base: string)
    ensures IsLoopbackBase(w, base) <==> NamesLoopback(w, base)
  {
    hide Trim, BareHost, TrimOpening, TrimClosing, Lower;
    if w.host(base).Some? {
      var host := w.host(base).value;
      BareHostFound(host);
      forall core | BareHost(host, core) ensures core == TrimClosing(TrimOpening(Trim(host))) {
        BareHostOnce(host, core);
      }
    }
  }

  function Classify(w: World, base: string): Endpoint {
    var trimmed := TrimSlashes(base);
    Endpoint(trimmed, if IsLoopbackBase(w, trimmed) then NodeKind else RpcKind)
  }

  predicate HealthOk(reply: Reply) {
    reply.Reached? && IsSuccess(reply.response)
  }

  function HealthUrl(base: string): string {
    base + "/health"
  }

  function NodePlan(k: nat): seq<Endpoint>
    requires k < |CANDIDATES|
  {
    [Endpoint(CANDIDATES[k], NodeKind), Endpoint(RPC_DEFAULT_BASE, RpcKind)]
  }

  const GATEWAY_PLAN := [Endpoint(RPC_DEFAULT_BASE, RpcKind)]

  datatype Planned = Planned(plan: seq<Endpoint>, log: seq<Exchange>)

  /** Probe the candidates from the `k`-th on; the first healthy loopback one leads the plan. */
  function PlanFrom(w: World, a: Adversary, log: seq<Exchange>, k: nat): Planned
    decreases |CANDIDATES| - k
  {
    if k >= |CANDIDATES| then Planned(GATEWAY_PLAN, log)
    else if !IsLoopbackBase(w, CANDIDATES[k]) then PlanFrom(w, a, log, k + 1)
    else
      var request := Health(HealthUrl(CANDIDATES[k]));
      var reply := a(log, request);
      var log' := log + [Exchange(request, reply)];
      if HealthOk(reply) then Planned(NodePlan(k), log') else PlanFrom(w, a, log', k + 1)
  }

  /** An override is the whole plan: nothing is probed and no public fallback is added. */
  function PlanSpec(w: World, endpoint: Option<string>, a: Adversary, log: seq<Exchange>): Planned {
    match endpoint
    case Some(base) => Planned([Classify(w, base)], log)
    case None => PlanFrom(w, a, log, 0)
  }

  method BuildPlan(w: World, transport: Transport, endpoint: Option<string>) returns (plan: seq<Endpoint>)
    modifies transport
    ensures Planned(plan, transport.log) == PlanSpec(w, endpoint, transport.answer, old(transport.log))
  {
    if endpoint.Some? {
      return [Classify(w, endpoint.value)];
    }
    for k := 0 to |CANDIDATES|
      invariant PlanFrom(w, transport.answer, old(transport.log), 0) == PlanFrom(w, transport.answer, transport.log, k)
    {
      var tier := CANDIDATES[k];
      if IsLoopbackBase(w, tier) {
        var reply := transport.Send(Health(HealthUrl(tier)));
        if HealthOk(reply) {
          return [Endpoint(tier, NodeKind), Endpoint(RPC_DEFAULT_BASE, RpcKind)];
        }
      }
    }
    plan := [Endpoint(RPC_DEFAULT_BASE, RpcKind)];
  }

  /** Node trust is loopback-only, the rest of the shape a plan always has, and what the probes
      in `log` must show for a node to be in it. */
  predicate PlanShape(w: World, endpoint: Option<string>, log: seq<Exchange>, plan: seq<Endpoint>) {
    match endpoint
    case Some(base) => plan == [Classify(w, base)]
    case None =>
      plan == GATEWAY_PLAN
      || exists k :: 0 <= k < |CANDIDATES| && plan == NodePlan(k) && IsLoopbackBase(w, CANDIDATES[k])
          && Answered(log, k)
  }

  /** Some health probe of candidate `k` was answered with success. */
  predicate Answered(log: seq<Exchange>, k: nat)
    requires k < |CANDIDATES|
  {
    exists i :: 0 <= i < |log| && log[i].request == Health(HealthUrl(CANDIDATES[k])) && HealthOk(log[i].reply)
  }

  /** Planning only ever probes health, at most once per candidate left, and not at all under an
      override; the plan it makes has the shape above. */
  lemma PlanIsShaped(w: World, endpoint: Option<string>, a: Adversary, log: seq<Exchange>)
    returns (probes: seq<Exchange>)
    ensures var p := PlanSpec(w, endpoint, a, log);
            && p.log == log + probes
            && PlanShape(w, endpoint, p.log, p.plan)
            && |probes| <= (if endpoint.Some? then 0 else 2)
            && forall i :: 0 <= i < |probes| ==> probes[i].request.Health?
  {
    probes := [];
    if endpoint.None? {
      probes := PlanFromShaped(w, a, log, 0);
    } else {
      assert log + [] == log;
    }
  }

  lemma {:induction false} PlanFromShaped(w: World, a: Adversary, log: seq<Exchange>, k: nat)
    returns (probes: seq<Exchange>)
    requires k <= |CANDIDATES|
    ensures var p := PlanFrom(w, a, log, k);
            && p.log == log + probes && |probes| <= |CANDIDATES| - k
            && PlanShape(w, None, p.log, p.plan)
            && forall i :: 0 <= i < |probes| ==> probes[i].request.Health?
    decreases |CANDIDATES| - k
  {
    if k == |CANDIDATES| {
      probes := [];
    } else if !IsLoopbackBase(w, CANDIDATES[k]) {
      probes := PlanFromShaped(w, a, log, k + 1);
    } else {
      var request := Health(HealthUrl(CANDIDATES[k]));
      var e := Exchange(request, a(log, request));
      if HealthOk(e.reply) {
        probes := [e];
        assert (log + [e])[|log|] == e;
        assert Answered(log + [e], k);
      } else {
        var rest := PlanFromShaped(w, a, log + [e], k + 1);
        probes := [e] + rest;
        assert log + [e] + rest == log + ([e] + rest);
      }
    }
  }

  /** Every shaped plan has a tier; without an override its last tier is the public gateway; and
      a node tier in it is a loopback host. */
  lemma ShapedPlans(w: World, endpoint: Option<string>, log: seq<Exchange>, plan: seq<Endpoint>)
    requires PlanShape(w, endpoint, log, plan)
    ensures plan != []
    ensures endpoint.None? ==> plan[|plan| - 1] == Endpoint(RPC_DEFAULT_BASE, RpcKind)
    ensures forall i :: 0 <= i < |plan| && plan[i].kind.NodeKind? ==> IsLoopbackBase(w, plan[i].base)
  {}
}
