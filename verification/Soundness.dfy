/** What the provenance invariant gives a caller: the exact resource a pinned success is, and the
    remote-only case, where every success was accepted by the gate against the URN's own root. */
module Soundness {
  import opened Wrappers
  import opened Types
  import opened Net
  import opened Worlds
  import opened Identity
  import opened Ladder
  import opened Resolving
  import opened Machine
  import opened Confinement
  import opened Provenance
  import Node
  import Rpc
  import Text

  /** The bytes a finished resolve returned, if it returned any. */
  function SuccessOf(p: Pending): Option<ResolvedData> {
    if p.Done? && p.resolution.Success? && p.resolution.value.Resolved? then Some(p.resolution.value.data) else None
  }

  /** A loopback node is asked for a rootless URN. */
  ghost predicate AskedRootless(w: World, e: Exchange) {
    exists v: Urn :: v.root.None? && AskedNode(w, e, v)
  }

  /** The root that an attested answer names, which is read for a rootless URN only. */
  ghost function AttestedRoot(reply: Reply): Option<string> {
    if Node.Ok(reply) && Node.SaysTrue(reply.response.headers, "x-dig-verified")
    then
      match Header(reply.response.headers, "x-dig-root")
      case None => None
      case Some(r) => Some(Text.Trim(r))
    else None
  }

  /** No attested answer for a rootless URN names a root that reaches past the pin of `u` into its
      key. */
  ghost predicate NoneStraddles(w: World, log: seq<Exchange>, u: Urn)
    requires u.root.Some?
  {
    forall i :: 0 <= i < |log| && AskedRootless(w, log[i]) && AttestedRoot(log[i].reply).Some? ==>
      !Straddles(AttestedRoot(log[i].reply).value, u.root.value, u.key)
  }

  lemma AttestedNames(w: World, v: Urn, reply: Reply, root: string, data: ResolvedData)
    requires v.root.None? && Node.AttestedReply(w, v, reply, Some(root), data)
    ensures AttestedRoot(reply) == Some(root)
  {
    hide Node.SaysTrue, Text.Trim, Header;
  }

  lemma AttestedAtPin(w: World, v: Urn, reply: Reply, root: string, data: ResolvedData)
    requires v.root.Some? && Node.AttestedReply(w, v, reply, Some(root), data)
    ensures root == v.root.value
  {
    hide Node.SaysTrue;
  }

  /** Nothing is backed at a straddling root unless a node attested it. */
  lemma BackedNeverStraddles(ev: Evidence, v: Urn, root: string, data: ResolvedData, u: Urn)
    requires u.root.Some? && NoneStraddles(ev.w, ev.log, u) && Backed(ev, v, root, data)
    ensures !Straddles(root, u.root.value, u.key)
  {
    hide Known, AskedNode, Opens, Straddles, AttestedRoot;
    StraddlerHasColon(root, u);
    if AttestedIn(ev, v, Some(root), data) {
      var i :| 0 <= i < |ev.log| && AskedNode(ev.w, ev.log[i], v)
        && Node.AttestedReply(ev.w, v, ev.log[i].reply, Some(root), data);
      hide Node.AttestedReply;
      if v.root.Some? {
        AttestedAtPin(ev.w, v, ev.log[i].reply, root, data);
        HexColonFree(v.root.value);
      } else {
        AttestedNames(ev.w, v, ev.log[i].reply, root, data);
        assert AskedRootless(ev.w, ev.log[i]) && AttestedRoot(ev.log[i].reply) == Some(root);
      }
    } else {
      GatedRootColonFree(ev, v, root, data);
    }
  }

  lemma StraddlerHasColon(root: string, u: Urn)
    requires u.root.Some?
    ensures Straddles(root, u.root.value, u.key) ==> ':' in root
  {}

  /** So what is backed under the identity `u` looks up is `u`'s own resource at its own root. */
  lemma BackedRootIsPin(ev: Evidence, v: Urn, root: string, data: ResolvedData, u: Urn)
    requires u.root.Some? && NoneStraddles(ev.w, ev.log, u)
    requires Backed(ev, v, root, data) && CacheId(v, root) == CacheId(u, u.root.value)
    ensures SameResource(u, v) && root == u.root.value
  {
    hide CacheId, Straddles, Backed;
    BackedNeverStraddles(ev, v, root, data, u);
    if Collides(v, root, u, u.root.value) {
      CollisionStraddles(v, root, u);
    }
  }

  lemma GatedRootColonFree(ev: Evidence, u: Urn, root: string, data: ResolvedData)
    requires Gated(ev, u, root, data)
    ensures VerifiedBy(ev.w, u, root, data) && ':' !in root
  {
    hide Known;
    var art: Artifacts :| Known(ev, art) && Opens(ev.w, u, art, root, data);
    VerifiedRootColonFree(ev.w, u, root, data);
  }

  /** All that can be pointed at once `acts` have run. */
  function EvidenceAfter(cfg: Config, disk: Option<map<string, Artifacts>>, acts: seq<Action>): Evidence {
    EvidenceAt(cfg, After(cfg, Initial(disk), acts), Planted(disk, acts))
  }

  /** `u` was launched, and the bytes are backed at its own pinned root for its own store, key and
      salt. */
  ghost predicate BackedAtPin(ev: Evidence, u: Urn, data: ResolvedData)
    requires u.root.Some?
  {
    exists v: Urn :: v in ev.urns && SameResource(u, v) && Backed(ev, v, u.root.value, data)
  }

  /** A pinned success is the pinned resource: some launched URN with the same store, key and salt
      backs the bytes at exactly the pinned root. The caches never serve another resource's bytes,
      provided no node, asked for a rootless URN, attests something under a root that straddles the
      pin and the key. */
  lemma PinnedSuccessIsThatResource(cfg: Config, disk: Option<map<string, Artifacts>>, acts: seq<Action>, t: nat)
    requires var s := After(cfg, Initial(disk), acts);
             && t < |s.tasks| && s.tasks[t].urn.root.Some? && SuccessOf(s.tasks[t].at).Some?
             && NoneStraddles(cfg.w, s.log, s.tasks[t].urn)
    ensures var task := After(cfg, Initial(disk), acts).tasks[t];
            BackedAtPin(EvidenceAfter(cfg, disk, acts), task.urn, SuccessOf(task.at).value)
  {
    hide Do, NoneStraddles, Backed, CacheId, Planted;
    EverySuccessHasAWitness(cfg, disk, acts);
    var s, ev := After(cfg, Initial(disk), acts), EvidenceAfter(cfg, disk, acts);
    var u, data := s.tasks[t].urn, SuccessOf(s.tasks[t].at).value;
    assert SoundTask(ev, u, s.tasks[t].at);
    var v: Urn, root :| v in ev.urns && CacheId(v, root) == CacheId(u, u.root.value) && Backed(ev, v, root, data);
    BackedRootIsPin(ev, v, root, data, u);
  }

  /** With no colon inside its key, a pinned URN needs no proviso: no reply whatever can do it. */
  lemma PlainKeySuccessIsThatResource(cfg: Config, disk: Option<map<string, Artifacts>>, acts: seq<Action>, t: nat)
    requires var s := After(cfg, Initial(disk), acts);
             && t < |s.tasks| && s.tasks[t].urn.root.Some? && SuccessOf(s.tasks[t].at).Some?
             && !ColonInside(s.tasks[t].urn.key)
    ensures var task := After(cfg, Initial(disk), acts).tasks[t];
            BackedAtPin(EvidenceAfter(cfg, disk, acts), task.urn, SuccessOf(task.at).value)
  {
    hide Do, Straddles, ColonInside, BackedAtPin, AttestedRoot, AskedRootless;
    var s := After(cfg, Initial(disk), acts);
    var u := s.tasks[t].urn;
    forall i | 0 <= i < |s.log| && AttestedRoot(s.log[i].reply).Some?
      ensures !Straddles(AttestedRoot(s.log[i].reply).value, u.root.value, u.key)
    {
      AttestedRootTrimmed(s.log[i].reply);
      LookupSharedExactly(u);
    }
    PinnedSuccessIsThatResource(cfg, disk, acts, t);
  }

  lemma AttestedRootTrimmed(reply: Reply)
    requires AttestedRoot(reply).Some?
    ensures Text.Trimmed(AttestedRoot(reply).value)
  {
    var left, right := Text.TrimDecomposes(Header(reply.response.headers, "x-dig-root").value);
  }

  // ------------------------------------------------------------------ remote only

  predicate NoNodeAsked(log: seq<Exchange>) {
    forall i :: 0 <= i < |log| ==> !log[i].request.Serve?
  }

  predicate OneChain(s: State, chain: string) {
    forall t :: 0 <= t < |s.tasks| ==> s.tasks[t].urn.chain == chain
  }

  lemma SameChainSameGate(w: World, u: Urn, v: Urn, root: string, data: ResolvedData)
    requires SameResource(u, v) && u.chain == v.chain && VerifiedBy(w, v, root, data)
    ensures VerifiedBy(w, u, root, data)
  {
    var art: Artifacts :| Opens(w, v, art, root, data);
    GateIgnoresPin(w, u, v, art, root);
    assert Opens(w, u, art, root, data);
  }

  /** Remote-only soundness. In a run over one chain label in which no node was ever asked for
      content, every pinned success, memory and disk hits included, is bytes the gate accepted for
      that URN against its own pinned root. */
  lemma RemoteOnlySuccessIsVerified(cfg: Config, disk: Option<map<string, Artifacts>>, acts: seq<Action>,
                                    chain: string, t: nat)
    requires var s := After(cfg, Initial(disk), acts);
             && OneChain(s, chain) && NoNodeAsked(s.log)
             && t < |s.tasks| && s.tasks[t].urn.root.Some? && SuccessOf(s.tasks[t].at).Some?
    ensures var task := After(cfg, Initial(disk), acts).tasks[t];
            VerifiedBy(cfg.w, task.urn, task.urn.root.value, SuccessOf(task.at).value)
  {
    hide Do, CacheId, VerifiedBy, Backed, Planted;
    EverySuccessHasAWitness(cfg, disk, acts);
    var s, ev := After(cfg, Initial(disk), acts), EvidenceAfter(cfg, disk, acts);
    var u, data := s.tasks[t].urn, SuccessOf(s.tasks[t].at).value;
    assert SoundTask(ev, u, s.tasks[t].at);
    var v: Urn, root :| v in ev.urns && CacheId(v, root) == CacheId(u, u.root.value) && Backed(ev, v, root, data);
    UnattestedIsVerified(ev, v, root, data);
    HexColonFree(u.root.value);
    CacheIdInjective(u, u.root.value, v, root);
    var k :| 0 <= k < |s.tasks| && s.tasks[k].urn == v;
    SameChainSameGate(cfg.w, u, v, root, data);
  }

  lemma UnattestedIsVerified(ev: Evidence, u: Urn, root: string, data: ResolvedData)
    requires NoNodeAsked(ev.log) && Backed(ev, u, root, data)
    ensures VerifiedBy(ev.w, u, root, data) && ':' !in root
  {
    GatedRootColonFree(ev, u, root, data);
  }

  /** No base the configuration could ever trust is a loopback host. */
  predicate NoLoopback(cfg: Config) {
    match cfg.endpoint
    case Some(base) => !IsLoopbackBase(cfg.w, Text.TrimSlashes(base))
    case None => forall k :: 0 <= k < |CANDIDATES| ==> !IsLoopbackBase(cfg.w, CANDIDATES[k])
  }

  /** Without a loopback host in reach, every request of every run is a gateway post: nothing is
      probed and no node is asked. */
  lemma NoLoopbackNoNode(cfg: Config, disk: Option<map<string, Artifacts>>, acts: seq<Action>)
    requires NoLoopback(cfg)
    ensures var s := After(cfg, Initial(disk), acts);
            NoNodeAsked(s.log) && forall i :: 0 <= i < |s.log| ==> s.log[i].request.Content?
  {
    hide Do, IsLoopbackBase;
    EveryRequestConfined(cfg, disk, acts);
    var s := After(cfg, Initial(disk), acts);
    forall i | 0 <= i < |s.log| ensures s.log[i].request.Content? {
      assert Owned(s, s.log[i]);
      var t :| 0 <= t < |s.tasks| && s.log[i] in s.tasks[t].trace;
      assert TaskConfined(cfg, s.log, s.tasks[t]);
    }
  }

  // ------------------------------------------------------------------ rootless URNs

  predicate Served(trace: seq<Exchange>) {
    exists i :: 0 <= i < |trace| && trace[i].request.Serve?
  }

  /** What a rootless resolve may do: no gateway post ever; and once finished without having
      asked a node, it was refused. */
  predicate RootlessOk(u: Urn, p: Pending, trace: seq<Exchange>) {
    u.root.None? ==>
      && !p.Paging?
      && (forall i :: 0 <= i < |trace| ==> !trace[i].request.Content?)
      && (p.Done? && !Served(trace) ==> p.resolution == Failure(RootRequired))
  }

  predicate AllRootlessOk(s: State) {
    forall t :: 0 <= t < |s.tasks| ==> RootlessOk(s.tasks[t].urn, s.tasks[t].at, s.tasks[t].trace)
  }

  lemma BeginRootless(cfg: Config, log: seq<Exchange>, st: Store, u: Urn)
    requires ShapedPlan(cfg, log, st.plan)
    ensures RootlessOk(u, Begin(cfg, st, u).1, [])
  {}

  lemma ResumeRootless(cfg: Config, log: seq<Exchange>, u: Urn, p: Pending, trace: seq<Exchange>, reply: Reply)
    requires Waits(cfg.w, u, p) && !p.Done? && RootlessOk(u, p, trace)
    ensures RootlessOk(u, Resume(cfg.w, u, p, reply).next, trace + [Exchange(RequestOf(cfg.w, u, p), reply)])
  {
    hide IsLoopbackBase, Rpc.OnReply, Node.ReadReply, Rpc.Finish;
    if u.root.None? {
      var e := Exchange(RequestOf(cfg.w, u, p), reply);
      var trace' := trace + [e];
      assert trace'[|trace|] == e;
      if p.Serving? {
        assert Served(trace');
      } else if Served(trace) {
        var i :| 0 <= i < |trace| && trace[i].request.Serve?;
        assert trace'[i].request.Serve?;
      }
    }
  }

  lemma {:induction false} RootlessAlways(cfg: Config, disk: Option<map<string, Artifacts>>, acts: seq<Action>)
    ensures AllRootlessOk(After(cfg, Initial(disk), acts))
    decreases |acts|
  {
    hide Begin, Resume, RequestOf, Learn, RootlessOk, TaskConfined;
    if acts == [] {
    } else {
      var front, act := acts[..|acts| - 1], acts[|acts| - 1];
      RootlessAlways(cfg, disk, front);
      EveryRequestConfined(cfg, disk, front);
      var s := After(cfg, Initial(disk), front);
      if act.Launch? {
        BeginRootless(cfg, s.log, View(s, act.inst), act.urn);
      } else if act.Deliver? && Deliverable(cfg, s, act.task) {
        ResumeRootless(cfg, s.log, s.tasks[act.task].urn, s.tasks[act.task].at, s.tasks[act.task].trace, act.reply);
      }
    }
  }

  /** A rootless URN, when no node is ever asked: its resolve finishes only as refused, and no
      content request was made for it. */
  lemma RootlessIsRefused(cfg: Config, disk: Option<map<string, Artifacts>>, acts: seq<Action>, t: nat)
    requires var s := After(cfg, Initial(disk), acts);
             t < |s.tasks| && s.tasks[t].urn.root.None? && NoNodeAsked(s.log)
    ensures var task := After(cfg, Initial(disk), acts).tasks[t];
            && (task.at.Done? ==> task.at.resolution == Failure(RootRequired))
            && forall i :: 0 <= i < |task.trace| ==> task.trace[i].request.Health?
  {
    hide Do;
    RootlessAlways(cfg, disk, acts);
    EveryRequestConfined(cfg, disk, acts);
    var s := After(cfg, Initial(disk), acts);
    var task := s.tasks[t];
    assert RootlessOk(task.urn, task.at, task.trace);
    forall i | 0 <= i < |task.trace| ensures task.trace[i].request.Health? {
      assert TaskConfined(cfg, s.log, task) && task.trace[i] in s.log;
    }
  }

  // ------------------------------------------------------------------ failures are not cached

  /** The resolve that `act` runs a stretch of has just returned bytes. */
  predicate JustSucceeded(s: State, s': State, act: Action) {
    match act
    case Launch(_, _) => |s'.tasks| > |s.tasks| && SuccessOf(s'.tasks[|s.tasks|].at).Some?
    case Deliver(t, _) => t < |s'.tasks| && SuccessOf(s'.tasks[t].at).Some?
    case Meddle(_) => false
  }

  /** Among interleaved resolves too, a stretch that does not end in a success leaves every
      instance's memory as it was, and adds and changes nothing on disk. */
  lemma OnlySuccessIsCached(cfg: Config, s: State, act: Action)
    requires !act.Meddle? && !JustSucceeded(s, Do(cfg, s, act), act)
    ensures var s' := Do(cfg, s, act);
            && (forall inst :: LocalOf(s', inst).mem == LocalOf(s, inst).mem)
            && s'.disk.Some? == s.disk.Some?
            && (s.disk.Some? ==> forall id :: id in s'.disk.value ==>
                  id in s.disk.value && s'.disk.value[id] == s.disk.value[id])
  {
    hide CacheSuccess, Start;
    match act
    case Launch(inst, u) =>
      hide Consult;
      ConsultFacts(cfg, View(s, inst), u);
      StartLearnsNothing(cfg, Consult(cfg, View(s, inst), u).store.plan, u);
    case Deliver(t, reply) =>
      if Deliverable(cfg, s, t) {
        hide Resume;
        LearntOnlyOnSuccess(cfg.w, s.tasks[t].urn, s.tasks[t].at, reply);
      }
  }

  lemma StartLearnsNothing(cfg: Config, plan: Option<seq<Endpoint>>, u: Urn)
    ensures var m := Start(cfg, plan, u); !m.learned.Got? && SuccessOf(m.next).None?
  {}

  lemma LearntOnlyOnSuccess(w: World, u: Urn, p: Pending, reply: Reply)
    requires Waits(w, u, p) && !p.Done?
    ensures var m := Resume(w, u, p, reply); m.learned.Got? <==> SuccessOf(m.next).Some?
  {
    hide IsLoopbackBase, Rpc.OnReply, Node.ReadReply, Rpc.Finish;
  }

  // ------------------------------------------------------------------ every resolve ends

  /** How many requests one tier can take: a node one, a gateway 37. */
  function Cost(ep: Endpoint): nat {
    if ep.kind.NodeKind? then 1 else 37
  }

  /** How many requests the tiers from `i` on can take. */
  function CostFrom(plan: seq<Endpoint>, i: nat): nat
    decreases |plan| - i
  {
    if i >= |plan| then 0 else Cost(plan[i]) + CostFrom(plan, i + 1)
  }

  /** How many more requests a waiting resolve can make. */
  function Budget(p: Pending): nat {
    match p
    case Done(_) => 0
    case Probing(k) => 38 + if k < 2 then 2 - k else 0
    case Serving(plan, i) => CostFrom(plan, i)
    case Paging(plan, i, page) => (if page.windows < 37 then 37 - page.windows else 0) + CostFrom(plan, i + 1)
  }

  /** A node and a gateway at most. */
  predicate Affordable(plan: Option<seq<Endpoint>>) {
    plan.Some? ==> CostFrom(plan.value, 0) <= 38
  }

  lemma EnterBudget(w: World, u: Urn, plan: seq<Endpoint>, i: nat)
    ensures Budget(Enter(w, u, plan, i)) <= CostFrom(plan, i)
  {}

  lemma BuiltAffordable(k: nat)
    requires k < |CANDIDATES|
    ensures CostFrom(NodePlan(k), 0) == 38 && CostFrom(GATEWAY_PLAN, 0) == 37
  {
    assert CostFrom(NodePlan(k), 1) == 37;
    assert CostFrom(GATEWAY_PLAN, 1) == 0;
  }

  lemma OneTierCost(ep: Endpoint)
    ensures CostFrom([ep], 0) <= 37
  {
    assert CostFrom([ep], 1) == 0;
  }

  lemma ShapedAffordable(w: World, endpoint: Option<string>, log: seq<Exchange>, plan: seq<Endpoint>)
    requires PlanShape(w, endpoint, log, plan)
    ensures CostFrom(plan, 0) <= 38
  {
    hide IsLoopbackBase, Answered, CostFrom;
    if endpoint.Some? {
      OneTierCost(plan[0]);
    } else {
      BuiltAffordable(0);
      BuiltAffordable(1);
    }
  }

  lemma {:induction false} ProbeBudget(w: World, u: Urn, k: nat)
    ensures Budget(ProbeFrom(w, u, k).next) <= 38 + if k < 2 then 2 - k else 0
    decreases |CANDIDATES| - k
  {
    hide IsLoopbackBase, Enter, CostFrom;
    if k >= |CANDIDATES| {
      BuiltAffordable(0);
      EnterBudget(w, u, GATEWAY_PLAN, 0);
    } else {
      ProbeBudget(w, u, k + 1);
    }
  }

  lemma BeginBudget(cfg: Config, st: Store, u: Urn)
    requires Affordable(st.plan)
    ensures Budget(Begin(cfg, st, u).1) <= 40
  {
    hide IsLoopbackBase, Consult, ProbeFrom, Enter, CostFrom;
    ConsultFacts(cfg, st, u);
    ProbeBudget(cfg.w, u, 0);
    if st.plan.Some? {
      EnterBudget(cfg.w, u, st.plan.value, 0);
    } else if cfg.endpoint.Some? {
      var ep := Classify(cfg.w, cfg.endpoint.value);
      OneTierCost(ep);
      EnterBudget(cfg.w, u, [ep], 0);
    }
  }

  lemma SettleBudget(w: World, u: Urn, plan: seq<Endpoint>, i: nat, result: Result<Fetched, Error>)
    ensures Budget(Settle(w, u, plan, i, result).next) <= CostFrom(plan, i + 1)
  {
    hide Enter, CostFrom;
    EnterBudget(w, u, plan, i + 1);
  }

  lemma ProbingSpends(w: World, u: Urn, k: nat, reply: Reply)
    requires Waits(w, u, Probing(k))
    ensures Budget(Resume(w, u, Probing(k), reply).next) < Budget(Probing(k))
  {
    hide IsLoopbackBase, ProbeFrom, Enter, CostFrom, HealthOk;
    ProbeBudget(w, u, k + 1);
    BuiltAffordable(k);
    EnterBudget(w, u, NodePlan(k), 0);
  }

  lemma PagingSpends(w: World, u: Urn, plan: seq<Endpoint>, i: nat, page: Rpc.Paging, reply: Reply)
    requires Waits(w, u, Paging(plan, i, page))
    ensures Budget(Resume(w, u, Paging(plan, i, page), reply).next) < Budget(Paging(plan, i, page))
  {
    hide Rpc.OnReply, Rpc.Finish, Settle, CostFrom;
    Rpc.AbsorbKeeps(w, page, reply);
    var turn := Rpc.OnReply(w, page, reply);
    SettleBudget(w, u, plan, i, TurnResult(w, u, turn));
  }

  lemma ResumeSpends(w: World, u: Urn, p: Pending, reply: Reply)
    requires Waits(w, u, p) && !p.Done?
    ensures Budget(Resume(w, u, p, reply).next) < Budget(p)
  {
    match p
    case Probing(k) => ProbingSpends(w, u, k, reply);
    case Serving(plan, i) =>
      hide Node.ReadReply, Settle;
      SettleBudget(w, u, plan, i, Node.ReadReply(w, u, reply));
    case Paging(plan, i, page) => PagingSpends(w, u, plan, i, page, reply);
  }

  predicate WithinBudget(s: State) {
    forall t :: 0 <= t < |s.tasks| ==> |s.tasks[t].trace| + Budget(s.tasks[t].at) <= 40
  }

  /** Whatever is replied and however resolves interleave, no resolve ever makes more than 40
      requests: two health probes, one to a node, and 37 posts to the gateway. */
  lemma {:induction false} RequestsBounded(cfg: Config, disk: Option<map<string, Artifacts>>, acts: seq<Action>)
    ensures WithinBudget(After(cfg, Initial(disk), acts))
    decreases |acts|
  {
    hide Begin, Resume, RequestOf, Learn, Budget, TaskConfined, ShapedPlan, Waits;
    if acts == [] {
    } else {
      var front, act := acts[..|acts| - 1], acts[|acts| - 1];
      RequestsBounded(cfg, disk, front);
      EveryRequestConfined(cfg, disk, front);
      var s := After(cfg, Initial(disk), front);
      assert WithinBudget(s);
      if act.Launch? {
        RememberedAffordable(cfg, s, act.inst);
        BeginBudget(cfg, View(s, act.inst), act.urn);
      } else if act.Deliver? && Deliverable(cfg, s, act.task) {
        ResumeSpends(cfg.w, s.tasks[act.task].urn, s.tasks[act.task].at, act.reply);
      }
    }
  }

  lemma RememberedAffordable(cfg: Config, s: State, inst: nat)
    requires Shaped(cfg, s)
    ensures Affordable(View(s, inst).plan)
  {
    hide CostFrom, PlanShape;
    var plan := View(s, inst).plan;
    if plan.Some? {
      ShapedAffordable(cfg.w, cfg.endpoint, s.log, plan.value);
    }
  }
}
