/** Left undisturbed, the step-by-step machine does what the one-piece resolve does: same outcome,
    same trace, same caches. This ties the interleaved model to the `Resolver` object. */
module Solo {
  import opened Wrappers
  import opened Types
  import opened Net
  import opened Worlds
  import opened Ladder
  import opened Resolving
  import opened Machine
  import opened Fates
  import Node
  import Rpc

  /** What the store will be once the waiting resolve is done. */
  function StoreFate(cfg: Config, a: Adversary, log: seq<Exchange>, st: Store, u: Urn, p: Pending): Store
    requires Waits(cfg.w, u, p)
  {
    var planned := if p.Probing? then st.(plan := Some(PlanFrom(cfg.w, a, log, p.k).plan)) else st;
    var v := Fate(cfg.w, a, log, u, p);
    if v.fetched.Some? then CacheSuccess(cfg, planned, u, v.fetched.value) else planned
  }

  /** Only task `t` runs, and every reply is `a`'s. */
  predicate Driven(cfg: Config, a: Adversary, s: State, t: nat, acts: seq<Action>)
    decreases |acts|
  {
    acts != [] ==>
      && Deliverable(cfg, s, t)
      && acts[0] == Deliver(t, a(s.log, RequestOf(cfg.w, s.tasks[t].urn, s.tasks[t].at)))
      && Driven(cfg, a, Do(cfg, s, acts[0]), t, acts[1..])
  }

  lemma {:induction false} AfterCons(cfg: Config, s: State, act: Action, acts: seq<Action>)
    ensures After(cfg, s, [act] + acts) == After(cfg, Do(cfg, s, act), acts)
    decreases |acts|
  {
    hide Do;
    var all := [act] + acts;
    if acts == [] {
      assert all[..0] == [] && all[0] == act;
      assert After(cfg, s, []) == s;
    } else {
      AfterCons(cfg, s, act, acts[..|acts| - 1]);
      assert all[..|all| - 1] == [act] + acts[..|acts| - 1];
    }
  }

  function Stage(p: Pending): nat {
    if p.Probing? then 1 else 0
  }

  function TiersLeft(p: Pending): nat {
    match p
    case Probing(k) => if k < |CANDIDATES| then |CANDIDATES| - k else 0
    case Serving(plan, i) => if i < |plan| then |plan| - i else 0
    case Paging(plan, i, _) => if i < |plan| then |plan| - i else 0
    case Done(_) => 0
  }

  function WindowsLeft(p: Pending): nat {
    if p.Paging? && p.page.windows < Rpc.MAX_WINDOWS then Rpc.MAX_WINDOWS - p.page.windows else 0
  }

  /** Every reply brings a resolve closer to its end: a resolve makes boundedly many requests
      whatever is replied. */
  lemma ResumeProgress(w: World, u: Urn, p: Pending, reply: Reply)
    requires Waits(w, u, p) && !p.Done?
    ensures var q := Resume(w, u, p, reply).next;
            || Stage(q) < Stage(p)
            || (Stage(q) == Stage(p) && TiersLeft(q) < TiersLeft(p))
            || (Stage(q) == Stage(p) && TiersLeft(q) == TiersLeft(p) && WindowsLeft(q) < WindowsLeft(p))
  {
    hide Rpc.OnReply, Rpc.Finish, Node.ReadReply, IsLoopbackBase;
    match p
    case Probing(k) =>
    case Serving(plan, i) => SettleAdvances(w, u, plan, i, Node.ReadReply(w, u, reply));
    case Paging(plan, i, page) =>
      Rpc.AbsorbKeeps(w, page, reply);
      var turn := Rpc.OnReply(w, page, reply);
      SettleAdvances(w, u, plan, i, TurnResult(w, u, turn));
  }

  /** One undisturbed step keeps the store's fate too. */
  lemma StoreStep(cfg: Config, a: Adversary, log: seq<Exchange>, st: Store, u: Urn, p: Pending)
    requires Waits(cfg.w, u, p) && !p.Done?
    ensures var e := Next(cfg.w, a, log, u, p);
            var m := Resume(cfg.w, u, p, e.reply);
            StoreFate(cfg, a, log, st, u, p) == StoreFate(cfg, a, log + [e], Learn(cfg, st, u, m.learned), u, m.next)
  {
    hide CacheSuccess, Walk, Decide, PlanFrom, Rpc.Drain, Rpc.OnReply, Rpc.Finish, Node.ReadReply, IsLoopbackBase;
    hide Enter;
    var e := Next(cfg.w, a, log, u, p);
    FateStep(cfg.w, a, log, u, p);
    if p.Probing? {
      ProbeStep(cfg.w, a, log, u, p.k);
    } else {
      NoPlanLater(cfg.w, u, p, e.reply);
    }
  }

  lemma NoPlanLater(w: World, u: Urn, p: Pending, reply: Reply)
    requires Waits(w, u, p) && !p.Done? && !p.Probing?
    ensures var m := Resume(w, u, p, reply); !m.learned.NewPlan? && !m.next.Probing?
  {
    hide Rpc.OnReply, Rpc.Finish, Node.ReadReply;
  }

  lemma {:induction false} DriveToEnd(cfg: Config, a: Adversary, s: State, t: nat) returns (acts: seq<Action>)
    requires t < |s.tasks| && Waits(cfg.w, s.tasks[t].urn, s.tasks[t].at)
    ensures Driven(cfg, a, s, t, acts)
    ensures var task := s.tasks[t];
            var v := Fate(cfg.w, a, s.log, task.urn, task.at);
            var s' := After(cfg, s, acts);
            && |s'.tasks| == |s.tasks| && s'.tasks[t].at == Done(v.resolution) && s'.log == v.log
            && View(s', task.inst) == StoreFate(cfg, a, s.log, View(s, task.inst), task.urn, task.at)
            && forall i :: i != task.inst ==> LocalOf(s', i) == LocalOf(s, i)
    decreases Stage(s.tasks[t].at), TiersLeft(s.tasks[t].at), WindowsLeft(s.tasks[t].at)
  {
    hide Resume, Learn, Fate, StoreFate, RequestOf, Stage, TiersLeft, WindowsLeft, Waits;
    var task := s.tasks[t];
    if task.at.Done? {
      acts := [];
      DoneIsFate(cfg, a, s.log, View(s, task.inst), task.urn, task.at);
    } else {
      var e := Next(cfg.w, a, s.log, task.urn, task.at);
      var act := Deliver(t, e.reply);
      var s1 := Do(cfg, s, act);
      FateStep(cfg.w, a, s.log, task.urn, task.at);
      StoreStep(cfg, a, s.log, View(s, task.inst), task.urn, task.at);
      ResumeProgress(cfg.w, task.urn, task.at, e.reply);
      var rest := DriveToEnd(cfg, a, s1, t);
      acts := [act] + rest;
      assert acts[1..] == rest;
      AfterCons(cfg, s, act, rest);
    }
  }

  lemma DoneIsFate(cfg: Config, a: Adversary, log: seq<Exchange>, st: Store, u: Urn, p: Pending)
    requires Waits(cfg.w, u, p) && p.Done?
    ensures Fate(cfg.w, a, log, u, p) == Verdict(p.resolution, None, log) && StoreFate(cfg, a, log, st, u, p) == st
  {}

  /** The fate of a resolve that has just begun is the one-piece resolve. */
  lemma BeginIsResolve(cfg: Config, a: Adversary, log: seq<Exchange>, st: Store, u: Urn)
    ensures var (st', p) := Begin(cfg, st, u);
            var o := ResolveSpec(cfg, a, log, st, u);
            && Waits(cfg.w, u, p)
            && Fate(cfg.w, a, log, u, p).resolution == o.resolution && Fate(cfg.w, a, log, u, p).log == o.log
            && StoreFate(cfg, a, log, st', u, p) == o.store
  {
    hide Consult, CacheSuccess, Walk, PlanFrom, Enter, IsLoopbackBase;
    var c := Consult(cfg, st, u);
    if c.outcome.None? {
      if c.store.plan.Some? {
        EnterFate(cfg.w, a, log, u, c.store.plan.value, 0);
      } else if cfg.endpoint.Some? {
        EnterFate(cfg.w, a, log, u, [Classify(cfg.w, cfg.endpoint.value)], 0);
      } else {
        ProbeFate(cfg.w, a, log, u, 0);
      }
    }
  }

  /** Refinement: from any state, a resolve launched and then left undisturbed finishes with the
      outcome, the trace and the caches that `ResolveSpec` gives, which is what the `Resolver`
      object's `Resolve` computes. */
  lemma UndisturbedResolveRefines(cfg: Config, a: Adversary, s: State, inst: nat, u: Urn) returns (acts: seq<Action>)
    ensures var s1 := Do(cfg, s, Launch(inst, u));
            var s2 := After(cfg, s1, acts);
            var o := ResolveSpec(cfg, a, s.log, View(s, inst), u);
            && Driven(cfg, a, s1, |s.tasks|, acts)
            && |s2.tasks| == |s.tasks| + 1 && s2.tasks[|s.tasks|].at == Done(o.resolution)
            && s2.log == o.log && View(s2, inst) == o.store
            && forall i :: i != inst ==> LocalOf(s2, i) == LocalOf(s, i)
  {
    hide ResolveSpec, Fate, StoreFate, Begin, Driven, After, Waits;
    BeginIsResolve(cfg, a, s.log, View(s, inst), u);
    acts := DriveToEnd(cfg, a, Do(cfg, s, Launch(inst, u)), |s.tasks|);
  }
}
