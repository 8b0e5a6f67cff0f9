/** What a waiting resolve will come to if it is left undisturbed: the bridge between the
    step-by-step machine and the one-piece specification of a resolve. */
module Fates {
  import opened Wrappers
  import opened Types
  import opened Net
  import opened Worlds
  import opened Ladder
  import opened Resolving
  import opened Machine
  import Node
  import Rpc
  import Text

  function FromDrain(w: World, u: Urn, result: Result<Rpc.Paging, Error>): Result<Fetched, Error>
    requires u.root.Some?
  {
    match result
    case Failure(e) => Failure(e)
    case Success(page) => Rpc.Finish(w, u, page)
  }

  function Fate(w: World, a: Adversary, log: seq<Exchange>, u: Urn, p: Pending): Verdict
    requires Waits(w, u, p)
  {
    match p
    case Done(r) => Verdict(r, None, log)
    case Probing(k) => var pl := PlanFrom(w, a, log, k); Walk(w, a, pl.log, u, pl.plan, 0)
    case Serving(plan, i) => Walk(w, a, log, u, plan, i)
    case Paging(plan, i, page) =>
      var d := Rpc.Drain(w, a, log, u, Text.TrimSlashes(plan[i].base), page);
      Decide(w, a, d.log, u, plan, i, FromDrain(w, u, d.result))
  }

  lemma EnterFate(w: World, a: Adversary, log: seq<Exchange>, u: Urn, plan: seq<Endpoint>, i: nat)
    ensures Fate(w, a, log, u, Enter(w, u, plan, i)) == Walk(w, a, log, u, plan, i)
  {
    hide Rpc.Drain, Rpc.Finish, Node.ReadReply;
  }

  lemma SettleFate(w: World, a: Adversary, log: seq<Exchange>, u: Urn, plan: seq<Endpoint>, i: nat,
                   result: Result<Fetched, Error>)
    requires i < |plan|
    ensures var m := Settle(w, u, plan, i, result);
            var v := Decide(w, a, log, u, plan, i, result);
            var v' := Fate(w, a, log, u, m.next);
            && v.resolution == v'.resolution && v.log == v'.log
            && v.fetched == (if m.learned.Got? then Some(m.learned.fetched) else v'.fetched)
            && !m.learned.NewPlan? && (m.learned.Got? ==> m.next.Done?)
  {
    hide TierFetch, Enter;
    if FallsThrough(result) && i + 1 < |plan| {
      EnterFate(w, a, log, u, plan, i + 1);
    }
  }

  lemma {:induction false} ProbeFate(w: World, a: Adversary, log: seq<Exchange>, u: Urn, k: nat)
    ensures var m := ProbeFrom(w, u, k);
            var pl := PlanFrom(w, a, log, k);
            && Fate(w, a, log, u, m.next) == Walk(w, a, pl.log, u, pl.plan, 0)
            && (m.learned.NewPlan? ==> m.learned.plan == pl.plan && !m.next.Probing?)
            && (!m.learned.NewPlan? ==> m.next.Probing? && k <= m.next.k && PlanFrom(w, a, log, m.next.k) == pl)
    decreases |CANDIDATES| - k
  {
    hide Walk, IsLoopbackBase, Enter;
    if k >= |CANDIDATES| {
      EnterFate(w, a, log, u, GATEWAY_PLAN, 0);
    } else if !IsLoopbackBase(w, CANDIDATES[k]) {
      ProbeFate(w, a, log, u, k + 1);
    }
  }

  /** The reply `a` gives the waiting resolve, as an exchange. */
  function Next(w: World, a: Adversary, log: seq<Exchange>, u: Urn, p: Pending): Exchange
    requires Waits(w, u, p) && !p.Done?
  {
    Exchange(RequestOf(w, u, p), a(log, RequestOf(w, u, p)))
  }

  /** One undisturbed step keeps the fate. */
  lemma FateStep(w: World, a: Adversary, log: seq<Exchange>, u: Urn, p: Pending)
    requires Waits(w, u, p) && !p.Done?
    ensures var e := Next(w, a, log, u, p);
            var m := Resume(w, u, p, e.reply);
            var v, v' := Fate(w, a, log, u, p), Fate(w, a, log + [e], u, m.next);
            && v.resolution == v'.resolution && v.log == v'.log
            && v.fetched == (if m.learned.Got? then Some(m.learned.fetched) else v'.fetched)
            && (m.learned.Got? ==> m.next.Done? && !p.Probing?)
  {
    var e := Next(w, a, log, u, p);
    match p
    case Probing(k) => ProbeStep(w, a, log, u, k);
    case Serving(plan, i) =>
      hide Node.ReadReply, Enter;
      SettleFate(w, a, log + [e], u, plan, i, Node.ReadReply(w, u, e.reply));
    case Paging(plan, i, page) => PageStep(w, a, log, u, plan, i, page);
  }

  /** A health probe's answer settles the plan just as planning in one piece would. */
  lemma ProbeStep(w: World, a: Adversary, log: seq<Exchange>, u: Urn, k: nat)
    requires k < |CANDIDATES| && IsLoopbackBase(w, CANDIDATES[k])
    ensures var e := Next(w, a, log, u, Probing(k));
            var m := Resume(w, u, Probing(k), e.reply);
            var pl := PlanFrom(w, a, log, k);
            && Fate(w, a, log + [e], u, m.next) == Walk(w, a, pl.log, u, pl.plan, 0)
            && !m.learned.Got?
            && (m.learned.NewPlan? ==> m.learned.plan == pl.plan && !m.next.Probing?)
            && (!m.learned.NewPlan? ==> m.next.Probing? && k < m.next.k && PlanFrom(w, a, log + [e], m.next.k) == pl)
  {
    hide Walk, IsLoopbackBase, Enter;
    var e := Next(w, a, log, u, Probing(k));
    if HealthOk(e.reply) {
      EnterFate(w, a, log + [e], u, NodePlan(k), 0);
    } else {
      ProbeFate(w, a, log + [e], u, k + 1);
    }
  }

  lemma PageStep(w: World, a: Adversary, log: seq<Exchange>, u: Urn, plan: seq<Endpoint>, i: nat, page: Rpc.Paging)
    requires Waits(w, u, Paging(plan, i, page))
    ensures var p := Paging(plan, i, page);
            var e := Next(w, a, log, u, p);
            var m := Resume(w, u, p, e.reply);
            var v, v' := Fate(w, a, log, u, p), Fate(w, a, log + [e], u, m.next);
            && v.resolution == v'.resolution && v.log == v'.log
            && v.fetched == (if m.learned.Got? then Some(m.learned.fetched) else v'.fetched)
            && !m.learned.NewPlan? && (m.learned.Got? ==> m.next.Done?)
            && (m.next.Paging? && m.next.plan == plan && m.next.i == i ==> m.next.page.windows > page.windows)
  {
    hide Rpc.OnReply, Rpc.Finish, Walk, Enter;
    var e := Next(w, a, log, u, Paging(plan, i, page));
    Rpc.AbsorbKeeps(w, page, e.reply);
    match Rpc.OnReply(w, page, e.reply)
    case Abort(err) =>
      SettleFate(w, a, log + [e], u, plan, i, Failure(err));
      SettleAdvances(w, u, plan, i, Failure(err));
    case Complete(page') =>
      SettleFate(w, a, log + [e], u, plan, i, Rpc.Finish(w, u, page'));
      SettleAdvances(w, u, plan, i, Rpc.Finish(w, u, page'));
    case More(page') =>
      if page'.windows >= Rpc.MAX_WINDOWS {
        assert Rpc.Drain(w, a, log + [e], u, Text.TrimSlashes(plan[i].base), page')
            == Rpc.Drained(Failure(Error.Rpc), log + [e]);
        SettleAdvances(w, u, plan, i, Failure(Error.Rpc));
        SettleFate(w, a, log + [e], u, plan, i, Failure(Error.Rpc));
        SettleAdvances(w, u, plan, i, Failure(Error.Rpc));
      }
  }

  lemma SettleAdvances(w: World, u: Urn, plan: seq<Endpoint>, i: nat, result: Result<Fetched, Error>)
    ensures var m := Settle(w, u, plan, i, result);
            && (m.next.Paging? ==> m.next.plan == plan && m.next.i == i + 1)
            && (m.next.Serving? ==> m.next.plan == plan && m.next.i == i + 1)
            && !m.next.Probing?
  {}
}
