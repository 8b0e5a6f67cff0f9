/** Where requests can go, and what plans can look like, in every reachable state. */
module Confinement {
  import opened Wrappers
  import opened Types
  import opened Net
  import opened Worlds
  import opened Identity
  import opened Ladder
  import opened Resolving
  import opened Machine
  import Text
  import Rpc
  import Node

  /** The plan a waiting resolve holds. */
  function PlanOf(p: Pending): Option<seq<Endpoint>> {
    match p
    case Serving(plan, _) => Some(plan)
    case Paging(plan, _, _) => Some(plan)
    case _ => None
  }

  predicate ShapedAt(cfg: Config, log: seq<Exchange>, p: Pending) {
    && (PlanOf(p).Some? ==> PlanShape(cfg.w, cfg.endpoint, log, PlanOf(p).value))
    && (p.Probing? ==> cfg.endpoint.None?)
  }

  predicate ShapedPlan(cfg: Config, log: seq<Exchange>, plan: Option<seq<Endpoint>>) {
    plan.Some? ==> PlanShape(cfg.w, cfg.endpoint, log, plan.value)
  }

  /** Where one request made for `u` may go. With an override, only to its slash-trimmed base, and
      never as a health probe. Without one: probes to loopback candidates, content from a loopback
      candidate that answered its probe, and posts to the public gateway. Whoever is asked for
      content is asked for `u`'s. */
  predicate Confined(cfg: Config, log: seq<Exchange>, u: Urn, request: Request) {
    match cfg.endpoint
    case Some(base) =>
      var b := Text.TrimSlashes(base);
      if IsLoopbackBase(cfg.w, b) then request == Serve(ServeUrl(b, u)) else Rpc.IsPost(cfg.w, u, b, request)
    case None =>
      || Rpc.IsPost(cfg.w, u, RPC_DEFAULT_BASE, request)
      || exists k :: 0 <= k < |CANDIDATES| && IsLoopbackBase(cfg.w, CANDIDATES[k]) && ToCandidate(log, u, k, request)
  }

  predicate ToCandidate(log: seq<Exchange>, u: Urn, k: nat, request: Request)
    requires k < |CANDIDATES|
  {
    request == Health(HealthUrl(CANDIDATES[k])) || (Answered(log, k) && request == Serve(ServeUrl(CANDIDATES[k], u)))
  }

  predicate TaskConfined(cfg: Config, log: seq<Exchange>, task: Task) {
    && ShapedAt(cfg, log, task.at)
    && forall e :: e in task.trace ==> e in log && Confined(cfg, log, task.urn, e.request)
  }

  /** The exchange was made for some resolve. */
  predicate Owned(s: State, e: Exchange) {
    exists t :: 0 <= t < |s.tasks| && e in s.tasks[t].trace
  }

  predicate Shaped(cfg: Config, s: State) {
    && AllWait(cfg, s)
    && (forall inst :: inst in s.locals ==> ShapedPlan(cfg, s.log, s.locals[inst].plan))
    && (forall t :: 0 <= t < |s.tasks| ==> TaskConfined(cfg, s.log, s.tasks[t]))
    && (forall e :: e in s.log ==> Owned(s, e))
  }

  lemma ShapeGrows(cfg: Config, log: seq<Exchange>, log': seq<Exchange>, plan: seq<Endpoint>)
    requires log <= log' && PlanShape(cfg.w, cfg.endpoint, log, plan)
    ensures PlanShape(cfg.w, cfg.endpoint, log', plan)
  {}

  lemma ConfinedGrows(cfg: Config, log: seq<Exchange>, log': seq<Exchange>, u: Urn, request: Request)
    requires log <= log' && Confined(cfg, log, u, request)
    ensures Confined(cfg, log', u, request)
  {}

  lemma TaskGrows(cfg: Config, log: seq<Exchange>, log': seq<Exchange>, task: Task)
    requires log <= log' && TaskConfined(cfg, log, task)
    ensures TaskConfined(cfg, log', task)
  {
    hide PlanShape, Confined;
    if PlanOf(task.at).Some? {
      ShapeGrows(cfg, log, log', PlanOf(task.at).value);
    }
    forall e | e in task.trace ensures Confined(cfg, log', task.urn, e.request) {
      ConfinedGrows(cfg, log, log', task.urn, e.request);
    }
  }

  /** The next request of a shaped resolve is confined. */
  lemma NextConfined(cfg: Config, log: seq<Exchange>, u: Urn, p: Pending)
    requires Waits(cfg.w, u, p) && !p.Done? && ShapedAt(cfg, log, p)
    ensures Confined(cfg, log, u, RequestOf(cfg.w, u, p))
  {}

  /** Where a move leads, and the plan it settles, are shaped. */
  predicate ShapedMove(cfg: Config, log: seq<Exchange>, m: Move) {
    ShapedAt(cfg, log, m.next) && (m.learned.NewPlan? ==> ShapedPlan(cfg, log, Some(m.learned.plan)))
  }

  lemma EnterShaped(cfg: Config, log: seq<Exchange>, u: Urn, plan: seq<Endpoint>, i: nat)
    requires PlanShape(cfg.w, cfg.endpoint, log, plan)
    ensures ShapedAt(cfg, log, Enter(cfg.w, u, plan, i))
  {
    hide PlanShape;
  }

  lemma AdoptShaped(cfg: Config, log: seq<Exchange>, u: Urn, plan: seq<Endpoint>)
    requires PlanShape(cfg.w, cfg.endpoint, log, plan)
    ensures ShapedMove(cfg, log, Adopt(cfg.w, u, plan))
  {
    hide PlanShape, Enter, ShapedAt;
    EnterShaped(cfg, log, u, plan, 0);
  }

  lemma SettleShaped(cfg: Config, log: seq<Exchange>, u: Urn, plan: seq<Endpoint>, i: nat,
                     result: Result<Fetched, Error>)
    requires PlanShape(cfg.w, cfg.endpoint, log, plan)
    ensures ShapedMove(cfg, log, Settle(cfg.w, u, plan, i, result))
  {
    hide PlanShape, Enter, FallsThrough;
    EnterShaped(cfg, log, u, plan, i + 1);
  }

  lemma {:induction false} ProbeShaped(cfg: Config, log: seq<Exchange>, u: Urn, k: nat)
    requires cfg.endpoint.None?
    ensures ShapedMove(cfg, log, ProbeFrom(cfg.w, u, k))
    decreases |CANDIDATES| - k
  {
    hide Adopt, IsLoopbackBase;
    if k >= |CANDIDATES| {
      AdoptShaped(cfg, log, u, GATEWAY_PLAN);
    } else {
      ProbeShaped(cfg, log, u, k + 1);
    }
  }

  lemma StartShaped(cfg: Config, log: seq<Exchange>, plan: Option<seq<Endpoint>>, u: Urn)
    requires ShapedPlan(cfg, log, plan)
    ensures ShapedMove(cfg, log, Start(cfg, plan, u))
  {
    hide Enter, Adopt, ProbeFrom, ShapedAt;
    if plan.Some? {
      EnterShaped(cfg, log, u, plan.value, 0);
    } else if cfg.endpoint.Some? {
      AdoptShaped(cfg, log, u, [Classify(cfg.w, cfg.endpoint.value)]);
    } else {
      ProbeShaped(cfg, log, u, 0);
    }
  }

  lemma ProbingShaped(cfg: Config, log: seq<Exchange>, u: Urn, k: nat, reply: Reply)
    requires Waits(cfg.w, u, Probing(k)) && cfg.endpoint.None?
    ensures var log' := log + [Exchange(RequestOf(cfg.w, u, Probing(k)), reply)];
            ShapedMove(cfg, log', Resume(cfg.w, u, Probing(k), reply))
  {
    hide Adopt, ProbeFrom, IsLoopbackBase, HealthOk, ShapedAt;
    var e := Exchange(RequestOf(cfg.w, u, Probing(k)), reply);
    ProbeShaped(cfg, log + [e], u, k + 1);
    if HealthOk(reply) {
      assert (log + [e])[|log|] == e;
      assert Answered(log + [e], k);
      AdoptShaped(cfg, log + [e], u, NodePlan(k));
    }
  }

  lemma PagingShaped(cfg: Config, log: seq<Exchange>, u: Urn, plan: seq<Endpoint>, i: nat, page: Rpc.Paging,
                     reply: Reply)
    requires Waits(cfg.w, u, Paging(plan, i, page)) && PlanShape(cfg.w, cfg.endpoint, log, plan)
    ensures ShapedMove(cfg, log, Resume(cfg.w, u, Paging(plan, i, page), reply))
  {
    hide Rpc.OnReply, Rpc.Finish, Settle, PlanShape;
    var turn := Rpc.OnReply(cfg.w, page, reply);
    Rpc.AbsorbKeeps(cfg.w, page, reply);
    SettleShaped(cfg, log, u, plan, i, TurnResult(cfg.w, u, turn));
  }

  lemma ResumeShaped(cfg: Config, log: seq<Exchange>, u: Urn, p: Pending, reply: Reply)
    requires Waits(cfg.w, u, p) && !p.Done? && ShapedAt(cfg, log, p)
    ensures var log' := log + [Exchange(RequestOf(cfg.w, u, p), reply)];
            ShapedMove(cfg, log', Resume(cfg.w, u, p, reply))
  {
    hide ShapedMove, PlanShape;
    var log' := log + [Exchange(RequestOf(cfg.w, u, p), reply)];
    match p
    case Probing(k) => ProbingShaped(cfg, log, u, k, reply);
    case Serving(plan, i) =>
      hide Settle, Node.ReadReply;
      ShapeGrows(cfg, log, log', plan);
      SettleShaped(cfg, log', u, plan, i, Node.ReadReply(cfg.w, u, reply));
    case Paging(plan, i, page) =>
      ShapeGrows(cfg, log, log', plan);
      PagingShaped(cfg, log', u, plan, i, page, reply);
  }

  lemma LearnPlan(cfg: Config, st: Store, u: Urn, learned: Learned)
    ensures Learn(cfg, st, u, learned).plan == if learned.NewPlan? then Some(learned.plan) else st.plan
  {}

  lemma BeginShaped(cfg: Config, log: seq<Exchange>, st: Store, u: Urn)
    requires ShapedPlan(cfg, log, st.plan)
    ensures var (st', p) := Begin(cfg, st, u);
            ShapedPlan(cfg, log, st'.plan) && ShapedAt(cfg, log, p)
  {
    hide Start, Learn;
    var c := Consult(cfg, st, u);
    ConsultFacts(cfg, st, u);
    if c.outcome.None? {
      StartShaped(cfg, log, c.store.plan, u);
      LearnPlan(cfg, c.store, u, Start(cfg, c.store.plan, u).learned);
    }
  }

  lemma LaunchShaped(cfg: Config, s: State, inst: nat, u: Urn)
    requires Shaped(cfg, s)
    ensures Shaped(cfg, Do(cfg, s, Launch(inst, u)))
  {
    hide Begin, PlanShape, Confined, Waits;
    var s' := Do(cfg, s, Launch(inst, u));
    BeginWaits(cfg, View(s, inst), u);
    BeginShaped(cfg, s.log, View(s, inst), u);
    forall e | e in s'.log ensures Owned(s', e) {
      var t :| 0 <= t < |s.tasks| && e in s.tasks[t].trace;
      assert e in s'.tasks[t].trace;
    }
  }

  lemma DeliverShaped(cfg: Config, s: State, t: nat, reply: Reply)
    requires Shaped(cfg, s) && Deliverable(cfg, s, t)
    ensures Shaped(cfg, Do(cfg, s, Deliver(t, reply)))
  {
    hide Resume, Learn, RequestOf, ShapedPlan, ShapedAt, Confined, Waits;
    var task := s.tasks[t];
    var e := Exchange(RequestOf(cfg.w, task.urn, task.at), reply);
    var s' := Do(cfg, s, Deliver(t, reply));
    ResumeShaped(cfg, s.log, task.urn, task.at, reply);
    NextConfined(cfg, s.log, task.urn, task.at);
    ShapedLocals(cfg, s, t, reply);
    ShapesGrow(cfg, s, s'.log);
    assert TaskConfined(cfg, s'.log, task);
    ConfinedGrows(cfg, s.log, s'.log, task.urn, e.request);
    assert TaskConfined(cfg, s'.log, s'.tasks[t]);
    forall x | x in s'.log ensures Owned(s', x) {
      if x in s.log {
        var j :| 0 <= j < |s.tasks| && x in s.tasks[j].trace;
        assert x in s'.tasks[j].trace;
      } else {
        assert x == e && e in s'.tasks[t].trace;
      }
    }
  }

  lemma ShapedLocals(cfg: Config, s: State, t: nat, reply: Reply)
    requires Shaped(cfg, s) && Deliverable(cfg, s, t)
    ensures var s' := Do(cfg, s, Deliver(t, reply));
            forall inst :: inst in s'.locals ==> ShapedPlan(cfg, s'.log, s'.locals[inst].plan)
  {
    hide Resume, Learn, RequestOf, PlanShape, Confined, Waits;
    var task := s.tasks[t];
    ResumeShaped(cfg, s.log, task.urn, task.at, reply);
    LearnPlan(cfg, View(s, task.inst), task.urn, Resume(cfg.w, task.urn, task.at, reply).learned);
    ShapesGrow(cfg, s, Do(cfg, s, Deliver(t, reply)).log);
  }

  lemma ShapesGrow(cfg: Config, s: State, log': seq<Exchange>)
    requires Shaped(cfg, s) && s.log <= log'
    ensures forall inst :: inst in s.locals ==> ShapedPlan(cfg, log', s.locals[inst].plan)
    ensures forall t :: 0 <= t < |s.tasks| ==> TaskConfined(cfg, log', s.tasks[t])
  {
    hide PlanShape, TaskConfined;
    forall inst | inst in s.locals ensures ShapedPlan(cfg, log', s.locals[inst].plan) {
      if s.locals[inst].plan.Some? {
        ShapeGrows(cfg, s.log, log', s.locals[inst].plan.value);
      }
    }
    forall t | 0 <= t < |s.tasks| ensures TaskConfined(cfg, log', s.tasks[t]) {
      TaskGrows(cfg, s.log, log', s.tasks[t]);
    }
  }

  lemma StepShaped(cfg: Config, s: State, act: Action)
    requires Shaped(cfg, s)
    ensures Shaped(cfg, Do(cfg, s, act))
  {
    hide Resume, Learn, Begin, RequestOf, TaskConfined, ShapedPlan, Waits;
    match act
    case Launch(inst, u) => LaunchShaped(cfg, s, inst, u);
    case Meddle(files) => assert forall e :: Owned(s, e) ==> Owned(Do(cfg, s, act), e);
    case Deliver(t, reply) =>
      if Deliverable(cfg, s, t) {
        DeliverShaped(cfg, s, t, reply);
      }
  }

  /** Confinement and plan shape over every interleaved run, whatever is replied and whoever
      rewrites the disk: every request was made for some resolve and goes where it may, asking for
      that resolve's URN only, and every plan remembered or being walked is shaped. */
  lemma {:induction false} EveryRequestConfined(cfg: Config, disk: Option<map<string, Artifacts>>, acts: seq<Action>)
    ensures Shaped(cfg, After(cfg, Initial(disk), acts))
    decreases |acts|
  {
    hide Do, Shaped;
    if acts == [] {
      InitialShaped(cfg, disk);
    } else {
      EveryRequestConfined(cfg, disk, acts[..|acts| - 1]);
      StepShaped(cfg, After(cfg, Initial(disk), acts[..|acts| - 1]), acts[|acts| - 1]);
    }
  }

  lemma InitialShaped(cfg: Config, disk: Option<map<string, Artifacts>>)
    ensures Shaped(cfg, Initial(disk))
  {}
}
