/** Many resolves in flight. A resolve runs undisturbed from one transport call to the next; at
    each call any other resolve may run, any reply may come back, and anyone may rewrite the disk.
    Several resolver instances may share that disk. */
module Machine {
  import opened Wrappers
  import opened Types
  import opened Net
  import opened Worlds
  import opened Identity
  import opened Ladder
  import opened Resolving
  import Lru
  import Node
  import Rpc
  import Text

  /** Where a resolve is waiting. */
  datatype Pending =
    | Probing(k: nat)
    | Serving(plan: seq<Endpoint>, i: nat)
    | Paging(plan: seq<Endpoint>, i: nat, page: Rpc.Paging)
    | Done(resolution: Resolution)

  /** What a step adds to the instance's caches. */
  datatype Learned = Nothing | NewPlan(plan: seq<Endpoint>) | Got(fetched: Fetched)

  datatype Move = Move(next: Pending, learned: Learned)

  /** The shape every waiting resolve of `u` has. */
  predicate Waits(w: World, u: Urn, p: Pending) {
    match p
    case Probing(k) => k < |CANDIDATES| && IsLoopbackBase(w, CANDIDATES[k])
    case Serving(plan, i) => i < |plan| && plan[i].kind.NodeKind?
    case Paging(plan, i, page) =>
      i < |plan| && plan[i].kind.RpcKind? && u.root.Some? && page.windows < Rpc.MAX_WINDOWS && Rpc.BoundedPage(page)
    case Done(_) => true
  }

  function RequestOf(w: World, u: Urn, p: Pending): Request
    requires Waits(w, u, p) && !p.Done?
  {
    match p
    case Probing(k) => Health(HealthUrl(CANDIDATES[k]))
    case Serving(plan, i) => Serve(ServeUrl(plan[i].base, u))
    case Paging(plan, i, page) => Rpc.ContentRequest(w, u, Text.TrimSlashes(plan[i].base), page.offset)
  }

  /** Start tier `i`. A rootless URN is refused at a gateway tier before anything is sent. */
  function Enter(w: World, u: Urn, plan: seq<Endpoint>, i: nat): (p: Pending)
    ensures Waits(w, u, p) && !p.Probing?
    ensures p.Done? ==> p.resolution == if i >= |plan| then Success(Unreachable) else Failure(RootRequired)
  {
    if i >= |plan| then Done(Success(Unreachable))
    else if plan[i].kind.NodeKind? then Serving(plan, i)
    else if u.root.None? then Done(Failure(RootRequired))
    else Paging(plan, i, Rpc.START)
  }

  function Settle(w: World, u: Urn, plan: seq<Endpoint>, i: nat, result: Result<Fetched, Error>): (m: Move)
    ensures Waits(w, u, m.next)
  {
    match result
    case Success(f) => Move(Done(Success(Resolved(f.data))), Got(f))
    case Failure(e) =>
      if FallsThrough(result) && i + 1 < |plan| then Move(Enter(w, u, plan, i + 1), Nothing)
      else Move(Done(Conclude(result)), Nothing)
  }

  function Adopt(w: World, u: Urn, plan: seq<Endpoint>): (m: Move)
    ensures Waits(w, u, m.next)
  {
    Move(Enter(w, u, plan, 0), NewPlan(plan))
  }

  function ProbeFrom(w: World, u: Urn, k: nat): (m: Move)
    ensures Waits(w, u, m.next)
    ensures !m.learned.Got? && (m.next.Done? ==> m.next.resolution == Failure(RootRequired))
    ensures m.next.Probing? ==> k <= m.next.k
    decreases |CANDIDATES| - k
  {
    if k >= |CANDIDATES| then Adopt(w, u, GATEWAY_PLAN)
    else if IsLoopbackBase(w, CANDIDATES[k]) then Move(Probing(k), Nothing)
    else ProbeFrom(w, u, k + 1)
  }

  /** After a cache miss: the remembered plan, else the override, else the first probe. */
  function Start(cfg: Config, plan: Option<seq<Endpoint>>, u: Urn): (m: Move)
    ensures Waits(cfg.w, u, m.next)
  {
    match plan
    case Some(p) => Move(Enter(cfg.w, u, p, 0), Nothing)
    case None =>
      match cfg.endpoint
      case Some(base) => Adopt(cfg.w, u, [Classify(cfg.w, base)])
      case None => ProbeFrom(cfg.w, u, 0)
  }

  /** A gateway tier's result, when this turn of its loop was the last. */
  function TurnResult(w: World, u: Urn, turn: Rpc.Turn): Result<Fetched, Error>
    requires u.root.Some?
  {
    match turn
    case Abort(e) => Failure(e)
    case Complete(page) => Rpc.Finish(w, u, page)
    case More(_) => Failure(Error.Rpc)
  }

  /** The code between one reply and the next transport call. */
  function Resume(w: World, u: Urn, p: Pending, reply: Reply): (m: Move)
    requires Waits(w, u, p) && !p.Done?
    ensures Waits(w, u, m.next)
  {
    match p
    case Probing(k) => if HealthOk(reply) then Adopt(w, u, NodePlan(k)) else ProbeFrom(w, u, k + 1)
    case Serving(plan, i) => Settle(w, u, plan, i, Node.ReadReply(w, u, reply))
    case Paging(plan, i, page) =>
      Rpc.AbsorbKeeps(w, page, reply);
      match Rpc.OnReply(w, page, reply)
      case Abort(e) => Settle(w, u, plan, i, Failure(e))
      case Complete(page') => Settle(w, u, plan, i, Rpc.Finish(w, u, page'))
      case More(page') =>
        if page'.windows < Rpc.MAX_WINDOWS then Move(Paging(plan, i, page'), Nothing)
        else Settle(w, u, plan, i, Failure(Error.Rpc))
  }

  // ------------------------------------------------------------------ the system

  datatype Local = Local(mem: seq<Lru.Item>, plan: Option<seq<Endpoint>>)

  /** One resolve: the instance that runs it, its URN, where it waits, and its own exchanges. */
  datatype Task = Task(inst: nat, urn: Urn, at: Pending, trace: seq<Exchange>)

  datatype State = State(locals: map<nat, Local>, disk: Option<map<string, Artifacts>>, tasks: seq<Task>,
                         log: seq<Exchange>)

  datatype Action =
    | Launch(inst: nat, urn: Urn)
    | Deliver(task: nat, reply: Reply)
    | Meddle(files: map<string, Artifacts>)

  /** An instance not seen yet starts empty. */
  function LocalOf(s: State, inst: nat): Local {
    if inst in s.locals then s.locals[inst] else Local([], None)
  }

  function View(s: State, inst: nat): Store {
    Store(LocalOf(s, inst).mem, LocalOf(s, inst).plan, s.disk)
  }

  function Replace(s: State, inst: nat, st: Store): State {
    s.(locals := s.locals[inst := Local(st.mem, st.plan)], disk := st.disk)
  }

  function Learn(cfg: Config, st: Store, u: Urn, learned: Learned): Store {
    match learned
    case Nothing => st
    case NewPlan(plan) => st.(plan := Some(plan))
    case Got(f) => CacheSuccess(cfg, st, u, f)
  }

  /** The first stretch of a resolve: consult the caches, else start the plan. */
  function Begin(cfg: Config, st: Store, u: Urn): (Store, Pending) {
    var c := Consult(cfg, st, u);
    match c.outcome
    case Some(o) => (c.store, Done(Success(o)))
    case None =>
      var m := Start(cfg, c.store.plan, u);
      (Learn(cfg, c.store, u, m.learned), m.next)
  }

  predicate Deliverable(cfg: Config, s: State, t: nat) {
    t < |s.tasks| && !s.tasks[t].at.Done? && Waits(cfg.w, s.tasks[t].urn, s.tasks[t].at)
  }

  function Do(cfg: Config, s: State, act: Action): State {
    match act
    case Launch(inst, u) =>
      var (st, p) := Begin(cfg, View(s, inst), u);
      Replace(s, inst, st).(tasks := s.tasks + [Task(inst, u, p, [])])
    case Deliver(t, reply) =>
      if !Deliverable(cfg, s, t) then s
      else
        var task := s.tasks[t];
        var e := Exchange(RequestOf(cfg.w, task.urn, task.at), reply);
        var m := Resume(cfg.w, task.urn, task.at, reply);
        var st := Learn(cfg, View(s, task.inst), task.urn, m.learned);
        Replace(s, task.inst, st).(
          tasks := s.tasks[t := task.(at := m.next, trace := task.trace + [e])],
          log := s.log + [e])
    case Meddle(files) => if s.disk.None? then s else s.(disk := Some(files))
  }

  function Initial(disk: Option<map<string, Artifacts>>): State {
    State(map[], disk, [], [])
  }

  /** The state a run reaches. Every statement about `After` for all `acts` is a statement about
      every reachable state. */
  function After(cfg: Config, s: State, acts: seq<Action>): State
    decreases |acts|
  {
    if acts == [] then s else Do(cfg, After(cfg, s, acts[..|acts| - 1]), acts[|acts| - 1])
  }

  predicate AllWait(cfg: Config, s: State) {
    forall t :: 0 <= t < |s.tasks| ==> Waits(cfg.w, s.tasks[t].urn, s.tasks[t].at)
  }

  lemma BeginWaits(cfg: Config, st: Store, u: Urn)
    ensures Waits(cfg.w, u, Begin(cfg, st, u).1)
  {}

  /** Every resolve in flight always waits on a well-defined request; at a gateway its buffer is
      never longer than the accepted total. */
  lemma {:induction false} AlwaysWaits(cfg: Config, disk: Option<map<string, Artifacts>>, acts: seq<Action>)
    ensures AllWait(cfg, After(cfg, Initial(disk), acts))
    decreases |acts|
  {
    hide Begin, Resume;
    if acts == [] {
    } else {
      AlwaysWaits(cfg, disk, acts[..|acts| - 1]);
      var act := acts[|acts| - 1];
      if act.Launch? {
        BeginWaits(cfg, View(After(cfg, Initial(disk), acts[..|acts| - 1]), act.inst), act.urn);
      }
    }
  }

  // ------------------------------------------------------------------ every step

  /** `act` runs a stretch of a resolve of this instance. */
  predicate RunsOn(s: State, act: Action, inst: nat) {
    match act
    case Launch(i, _) => i == inst
    case Deliver(t, _) => t < |s.tasks| && s.tasks[t].inst == inst
    case Meddle(_) => false
  }

  /** A step touches nobody else: the caches of other instances and other resolves stay as they
      were, the trace only grows, and a finished resolve stays finished. */
  lemma StepFrame(cfg: Config, s: State, act: Action)
    ensures var s' := Do(cfg, s, act);
            && |s.tasks| <= |s'.tasks|
            && s.log <= s'.log
            && (forall inst :: !RunsOn(s, act, inst) ==> LocalOf(s', inst) == LocalOf(s, inst))
            && (forall t :: 0 <= t < |s.tasks| ==>
                  && s'.tasks[t].urn == s.tasks[t].urn && s'.tasks[t].inst == s.tasks[t].inst
                  && s.tasks[t].trace <= s'.tasks[t].trace)
            && (forall t :: 0 <= t < |s.tasks| && !(act.Deliver? && act.task == t) ==> s'.tasks[t] == s.tasks[t])
            && (forall t :: 0 <= t < |s.tasks| && s.tasks[t].at.Done? ==> s'.tasks[t] == s.tasks[t])
  {
    hide Begin, Resume, Learn;
  }

  /** No step adds or removes the disk itself. */
  lemma DiskStays(cfg: Config, s: State, act: Action)
    ensures Do(cfg, s, act).disk.Some? == s.disk.Some?
  {
    hide Resume, RequestOf, Start, Lru.Lookup;
  }
}
