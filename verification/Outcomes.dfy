/** What `Unreachable` and `NotFound` tell a caller. The documentation reads them as a statement
    about every tier; the code lets the last tier decide. Here is what the code's outcomes mean, when
    exactly the documented reading holds, and an input for each at which it does not. */
module Outcomes {
  import opened Wrappers
  import opened Text
  import opened Types
  import opened Net
  import opened Worlds
  import opened Identity
  import opened Ladder
  import opened Resolving
  import opened Samples
  import ChunkLens
  import Node
  import Rpc

  predicate EachFallsThrough(w: World, a: Adversary, log: seq<Exchange>, u: Urn, plan: seq<Endpoint>) {
    forall k :: 0 <= k < |plan| ==> FallsThrough(AnswerAt(w, a, log, u, plan, k).result)
  }

  /** Every tier answers with the error `e`. */
  predicate EachFails(w: World, a: Adversary, log: seq<Exchange>, u: Urn, plan: seq<Endpoint>, e: Error) {
    forall k :: 0 <= k < |plan| ==> AnswerAt(w, a, log, u, plan, k).result == Failure(e)
  }

  /** Some tier answers with the error `e`. */
  predicate SomeFails(w: World, a: Adversary, log: seq<Exchange>, u: Urn, plan: seq<Endpoint>, e: Error) {
    exists k :: 0 <= k < |plan| && AnswerAt(w, a, log, u, plan, k).result == Failure(e)
  }

  /** The code's rule, for a plan of any length: the walk runs out of tiers exactly when every tier
      is absent or unreachable, and then the last tier's failure alone is what is reported. */
  lemma ExhaustedExactly(w: World, a: Adversary, log: seq<Exchange>, u: Urn, plan: seq<Endpoint>)
    requires plan != []
    ensures Walk(w, a, log, u, plan, 0).resolution == Success(Unreachable) <==>
              EachFallsThrough(w, a, log, u, plan)
              && AnswerAt(w, a, log, u, plan, |plan| - 1).result == Failure(Error.Transport)
    ensures Walk(w, a, log, u, plan, 0).resolution == Failure(NotFound) <==>
              EachFallsThrough(w, a, log, u, plan)
              && AnswerAt(w, a, log, u, plan, |plan| - 1).result == Failure(NotFound)
  {
    hide AnswerAt, Walk;
    LadderDecides(w, a, log, u, plan);
    var d: nat :| Decider(w, a, log, u, plan, d);
    assert d + 1 < |plan| ==> !FallsThrough(AnswerAt(w, a, log, u, plan, d).result);
  }

  /** When the documented reading is right: every tier was down exactly when the outcome is
      `Unreachable` and no tier said the content is absent; and the mirror for `NotFound`. */
  lemma DocumentedExactly(w: World, a: Adversary, log: seq<Exchange>, u: Urn, plan: seq<Endpoint>)
    requires plan != []
    ensures EachFails(w, a, log, u, plan, Error.Transport) <==>
              Walk(w, a, log, u, plan, 0).resolution == Success(Unreachable) && !SomeFails(w, a, log, u, plan, NotFound)
    ensures EachFails(w, a, log, u, plan, NotFound) <==>
              Walk(w, a, log, u, plan, 0).resolution == Failure(NotFound)
                  && !SomeFails(w, a, log, u, plan, Error.Transport)
  {
    hide AnswerAt, Walk;
    ExhaustedExactly(w, a, log, u, plan);
    var last := AnswerAt(w, a, log, u, plan, |plan| - 1).result;
    if EachFails(w, a, log, u, plan, Error.Transport) {
      assert last == Failure(Error.Transport);
    }
    if EachFails(w, a, log, u, plan, NotFound) {
      assert last == Failure(NotFound);
    }
  }

  predicate Is404(reply: Reply) {
    reply.Reached? && reply.response.status == 404
  }

  lemma AbsentIs404(w: World, u: Urn, reply: Reply)
    ensures Node.ReadReply(w, u, reply) == Failure(NotFound) <==> Is404(reply)
  {
    hide ChunkLens.ParseItems;
  }

  /** On the plans that are built, the condition is one status code. A walk over a node and a
      gateway that ends `Unreachable` found every tier down exactly when the node did not answer
      404; one that ends `NotFound` found every tier without the content exactly when it did. */
  lemma BuiltPlanReads(w: World, a: Adversary, log: seq<Exchange>, u: Urn, k: nat)
    requires k < |CANDIDATES|
    ensures var plan := NodePlan(k);
            var reply := a(log, Serve(ServeUrl(CANDIDATES[k], u)));
            && (Walk(w, a, log, u, plan, 0).resolution == Success(Unreachable) ==>
                  (EachFails(w, a, log, u, plan, Error.Transport) <==> !Is404(reply)))
            && (Walk(w, a, log, u, plan, 0).resolution == Failure(NotFound) ==>
                  (EachFails(w, a, log, u, plan, NotFound) <==> Is404(reply)))
  {
    hide Walk, Rpc.FetchSpec, Node.ReadReply, Is404;
    var plan := NodePlan(k);
    var reply := a(log, Serve(ServeUrl(CANDIDATES[k], u)));
    AbsentIs404(w, u, reply);
    ExhaustedExactly(w, a, log, u, plan);
    assert AnswerAt(w, a, log, u, plan, 0).result == Node.ReadReply(w, u, reply);
    assert EachFallsThrough(w, a, log, u, plan) ==> FallsThrough(AnswerAt(w, a, log, u, plan, 0).result);
  }

  /** A plan of one tier is always read as documented. */
  lemma OneTierReads(w: World, a: Adversary, log: seq<Exchange>, u: Urn, ep: Endpoint)
    ensures Walk(w, a, log, u, [ep], 0).resolution == Success(Unreachable) <==>
        EachFails(w, a, log, u, [ep], Error.Transport)
    ensures Walk(w, a, log, u, [ep], 0).resolution == Failure(NotFound) <==> EachFails(w, a, log, u, [ep], NotFound)
  {
    hide Walk, AnswerAt;
    ExhaustedExactly(w, a, log, u, [ep]);
  }

  // ------------------------------------------------------------------ the two inputs

  /** The node is healthy and does not hold the content; the gateway cannot be reached. */
  function AbsentThenDown(request: Request): Reply {
    match request
    case Health(_) => Reached(Response(200, [], []))
    case Serve(_) => Reached(Response(404, [], []))
    case Content(_, _) => Unreached
  }

  /** The node is healthy when probed and cannot be reached afterwards; the gateway answers with an
      empty result. */
  function DownThenAbsent(request: Request): Reply {
    match request
    case Health(_) => Reached(Response(200, [], []))
    case Serve(_) => Unreached
    case Content(_, _) => Reached(Response(200, [], []))
  }

  /** The gateway tier ends at its first window when that window is refused. */
  lemma FirstWindowDecides(w: World, a: Adversary, log: seq<Exchange>, u: Urn, base: string)
    requires u.root.Some?
    ensures var turn := Rpc.OnReply(w, Rpc.START, a(log, Rpc.ContentRequest(w, u, TrimSlashes(base), 0)));
            turn.Abort? ==> Rpc.FetchSpec(w, a, log, u, base).result == Failure(turn.error)
  {
    hide Rpc.OnReply, Rpc.Drain;
    Rpc.DrainStep(w, a, log, u, TrimSlashes(base), Rpc.START);
  }

  /** `Unreachable` although a tier answered, and answered that the content is absent. */
  lemma AbsentThenDownIsUnreachable(parse: Parser, u: Urn)
    requires u.root.Some?
    ensures var cfg := LocalConfig(LocalWorld(parse), None);
            var p := PlanSpec(cfg.w, None, Fixed(AbsentThenDown), []);
            && Cacheless(cfg, AbsentThenDown, u) == Success(Unreachable)
            && AnswerAt(cfg.w, Fixed(AbsentThenDown), p.log, u, p.plan, 0).result == Failure(NotFound)
  {
    hide Rpc.FetchSpec, ServeUrl, HealthUrl, PlanFrom, LocalWorld;
    var w := LocalWorld(parse);
    LocalWorldFacts(parse);
    LadderPlan(w, AbsentThenDown);
    var p := PlanSpec(w, None, Fixed(AbsentThenDown), []);
    BothFallThrough(w, AbsentThenDown, u, p.log, p.plan);
  }

  /** `NotFound` although a tier could not be reached. */
  lemma DownThenAbsentIsNotFound(parse: Parser, u: Urn)
    requires u.root.Some?
    ensures var cfg := LocalConfig(LocalWorld(parse), None);
            var p := PlanSpec(cfg.w, None, Fixed(DownThenAbsent), []);
            && Cacheless(cfg, DownThenAbsent, u) == Failure(NotFound)
            && AnswerAt(cfg.w, Fixed(DownThenAbsent), p.log, u, p.plan, 0).result == Failure(Error.Transport)
  {
    hide Rpc.FetchSpec, ServeUrl, HealthUrl, PlanFrom, LocalWorld;
    var w := LocalWorld(parse);
    LocalWorldFacts(parse);
    LadderPlan(w, DownThenAbsent);
    var p := PlanSpec(w, None, Fixed(DownThenAbsent), []);
    BothFallThrough(w, DownThenAbsent, u, p.log, p.plan);
  }

  lemma BothFallThrough(w: World, f: Request -> Reply, u: Urn, log: seq<Exchange>, plan: seq<Endpoint>)
    requires u.root.Some? && plan == NodePlan(1)
    requires FallsThrough(Node.ReadReply(w, u, f(Serve(ServeUrl(LOCALHOST_BASE, u)))))
    requires Rpc.OnReply(w, Rpc.START, f(Rpc.ContentRequest(w, u, TrimSlashes(RPC_DEFAULT_BASE), 0))).Abort?
    ensures AnswerAt(w, Fixed(f), log, u, plan, 0).result == Node.ReadReply(w, u, f(Serve(ServeUrl(LOCALHOST_BASE, u))))
    ensures Walk(w, Fixed(f), log, u, plan, 0).resolution ==
              Conclude(Failure(Rpc.OnReply(w, Rpc.START,
                  f(Rpc.ContentRequest(w, u, TrimSlashes(RPC_DEFAULT_BASE), 0))).error))
  {
    hide Node.ReadReply, Rpc.OnReply, Rpc.FetchSpec, ServeUrl, Walk;
    var a := Fixed(f);
    var middle := AnswerAt(w, a, log, u, plan, 0).log;
    FirstWindowDecides(w, a, middle, u, RPC_DEFAULT_BASE);
    assert TraceBefore(w, a, log, u, plan, 1) == middle;
    assert Decider(w, a, log, u, plan, 1);
    LadderDecides(w, a, log, u, plan);
  }
}
