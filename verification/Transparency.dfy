/** When caching changes nothing. Over a transport that is a fixed function of the request, and
    for any family of URNs, every resolve of every interleaved run comes to exactly what the
    cacheless ladder gives, whatever is evicted and however many instances share the disk, if and
    only if the URNs of the family agree pairwise about what a shared cache identity holds.
    Root-pinned URNs under one chain label always agree. */
module Transparency {
  import opened Wrappers
  import opened Types
  import opened Net
  import opened Worlds
  import opened Identity
  import opened Ladder
  import opened Resolving
  import opened Machine
  import opened Fates
  import Lru
  import Node
  import Rpc
  import Text

  // ------------------------------------------------------------------ a fixed transport forgets

  predicate SameEnd(v: Verdict, v': Verdict) {
    v.resolution == v'.resolution && v.fetched == v'.fetched
  }

  lemma {:induction false} DrainForgets(w: World, f: Request -> Reply, log: seq<Exchange>, log': seq<Exchange>,
                                        u: Urn, url: string, page: Rpc.Paging)
    requires u.root.Some?
    ensures Rpc.Drain(w, Fixed(f), log, u, url, page).result == Rpc.Drain(w, Fixed(f), log', u, url, page).result
    decreases Rpc.MAX_WINDOWS - page.windows
  {
    hide Rpc.OnReply;
    if page.windows >= Rpc.MAX_WINDOWS {
    } else {
      var request := Rpc.ContentRequest(w, u, url, page.offset);
      var e := Exchange(request, f(request));
      Rpc.TurnCounts(w, page, e.reply);
      var turn := Rpc.OnReply(w, page, e.reply);
      if turn.More? {
        DrainForgets(w, f, log + [e], log' + [e], u, url, turn.page);
      }
    }
  }

  lemma TierForgets(w: World, f: Request -> Reply, log: seq<Exchange>, log': seq<Exchange>, u: Urn, ep: Endpoint)
    ensures TierFetch(w, Fixed(f), log, u, ep).result == TierFetch(w, Fixed(f), log', u, ep).result
  {
    hide Rpc.Drain, Node.ReadReply, Rpc.Finish;
    if ep.kind.RpcKind? && u.root.Some? {
      DrainForgets(w, f, log, log', u, Text.TrimSlashes(ep.base), Rpc.START);
    }
  }

  lemma {:induction false} WalkForgets(w: World, f: Request -> Reply, log: seq<Exchange>, log': seq<Exchange>, u: Urn,
                                       plan: seq<Endpoint>, i: nat)
    ensures SameEnd(Walk(w, Fixed(f), log, u, plan, i), Walk(w, Fixed(f), log', u, plan, i))
    decreases |plan| - i, 1
  {
    hide TierFetch, Decide;
    if i >= |plan| {
    } else {
      TierForgets(w, f, log, log', u, plan[i]);
      var answer, answer' := TierFetch(w, Fixed(f), log, u, plan[i]), TierFetch(w, Fixed(f), log', u, plan[i]);
      DecideForgets(w, f, answer.log, answer'.log, u, plan, i, answer.result);
    }
  }

  lemma {:induction false} DecideForgets(w: World, f: Request -> Reply, log: seq<Exchange>, log': seq<Exchange>, u: Urn,
                                         plan: seq<Endpoint>, i: nat, result: Result<Fetched, Error>)
    ensures SameEnd(Decide(w, Fixed(f), log, u, plan, i, result), Decide(w, Fixed(f), log', u, plan, i, result))
    decreases |plan| - i, 0
  {
    hide TierFetch, Walk;
    if i >= |plan| {
    } else {
      WalkForgets(w, f, log, log', u, plan, i + 1);
    }
  }

  lemma PlanForgets(w: World, f: Request -> Reply, log: seq<Exchange>, log': seq<Exchange>, k: nat)
    ensures PlanFrom(w, Fixed(f), log, k).plan == PlanFrom(w, Fixed(f), log', k).plan
    decreases |CANDIDATES| - k
  {}

  lemma FateForgets(w: World, f: Request -> Reply, log: seq<Exchange>, log': seq<Exchange>, u: Urn, p: Pending)
    requires Waits(w, u, p)
    ensures SameEnd(Fate(w, Fixed(f), log, u, p), Fate(w, Fixed(f), log', u, p))
  {
    hide Walk, Decide, Rpc.Drain, PlanFrom, Rpc.Finish;
    match p
    case Done(_) =>
    case Probing(k) =>
      var pl, pl' := PlanFrom(w, Fixed(f), log, k), PlanFrom(w, Fixed(f), log', k);
      PlanForgets(w, f, log, log', k);
      WalkForgets(w, f, pl.log, pl'.log, u, pl.plan, 0);
    case Serving(plan, i) => WalkForgets(w, f, log, log', u, plan, i);
    case Paging(plan, i, page) =>
      var url := Text.TrimSlashes(plan[i].base);
      var d, d' := Rpc.Drain(w, Fixed(f), log, u, url, page), Rpc.Drain(w, Fixed(f), log', u, url, page);
      DrainForgets(w, f, log, log', u, url, page);
      DecideForgets(w, f, d.log, d'.log, u, plan, i, FromDrain(w, u, d.result));
  }

  // ------------------------------------------------------------------ agreement

  type Family = Urn -> bool

  /** What a disk entry answers for `v`, if anything. */
  function OpenAnswer(w: World, v: Urn, art: Artifacts): Option<ResolveOutcome>
    requires v.root.Some?
  {
    match VerifyAndDecrypt(w, v, art, v.root.value)
    case Success(bytes) => Some(Resolved(ResolvedData(bytes, w.mime(v.key, bytes))))
    case Failure(e) => if e.VerifyFailed? || e.DecryptFailed? then Some(IntegrityFailure) else None
  }

  /** Where `u`'s ladder result would be kept, `v` finds what `v`'s own ladder gives: the bytes in
      memory, when they fit there, and the artifacts on disk, when there are any and a disk. */
  predicate Agree(cfg: Config, f: Request -> Reply, hasDisk: bool, u: Urn, v: Urn) {
    var got := LadderAlone(cfg, f, u).fetched;
    && got.Some? && got.value.root.Some? && v.root.Some?
    && CacheId(v, v.root.value) == CacheId(u, got.value.root.value) ==>
      && (Lru.Admissible(cfg.maxEntries, cfg.maxBytes, got.value.data) ==>
            Cacheless(cfg, f, v) == Success(Resolved(got.value.data)))
      && (hasDisk && got.value.artifacts.Some? && OpenAnswer(cfg.w, v, got.value.artifacts.value).Some? ==>
            Cacheless(cfg, f, v) == Success(OpenAnswer(cfg.w, v, got.value.artifacts.value).value))
  }

  ghost predicate Coherent(cfg: Config, f: Request -> Reply, hasDisk: bool, family: Family) {
    forall u: Urn, v: Urn :: family(u) && family(v) ==> Agree(cfg, f, hasDisk, u, v)
  }

  // ------------------------------------------------------------------ the invariant

  function ThePlan(cfg: Config, f: Request -> Reply): seq<Endpoint> {
    PlanSpec(cfg.w, cfg.endpoint, Fixed(f), []).plan
  }

  /** `v` would look up `id`. */
  predicate LooksUp(family: Family, v: Urn, id: string) {
    family(v) && v.root.Some? && CacheId(v, v.root.value) == id
  }

  ghost predicate Right(cfg: Config, f: Request -> Reply, family: Family, id: string, data: ResolvedData) {
    forall v: Urn :: LooksUp(family, v, id) ==> Cacheless(cfg, f, v) == Success(Resolved(data))
  }

  ghost predicate RightArtifacts(cfg: Config, f: Request -> Reply, family: Family, id: string, art: Artifacts) {
    forall v: Urn :: LooksUp(family, v, id) && OpenAnswer(cfg.w, v, art).Some? ==>
        Cacheless(cfg, f, v) == Success(OpenAnswer(cfg.w, v, art).value)
  }

  ghost predicate RightMemory(cfg: Config, f: Request -> Reply, family: Family, mem: seq<Lru.Item>) {
    && Lru.Distinct(mem) && Lru.Fits(cfg.maxEntries, cfg.maxBytes, mem)
    && forall x :: x in mem ==> Right(cfg, f, family, x.id, x.data)
  }

  ghost predicate RightDisk(cfg: Config, f: Request -> Reply, family: Family, disk: Option<map<string, Artifacts>>) {
    disk.Some? ==> forall id :: id in disk.value ==> RightArtifacts(cfg, f, family, id, disk.value[id])
  }

  predicate RightPlan(cfg: Config, f: Request -> Reply, plan: Option<seq<Endpoint>>) {
    plan.Some? ==> plan.value == ThePlan(cfg, f)
  }

  ghost predicate RightStore(cfg: Config, f: Request -> Reply, family: Family, st: Store) {
    RightMemory(cfg, f, family, st.mem) && RightDisk(cfg, f, family, st.disk) && RightPlan(cfg, f, st.plan)
  }

  /** A resolve is on its way to what the ladder alone gives. */
  ghost predicate OnCourse(cfg: Config, f: Request -> Reply, u: Urn, p: Pending) {
    && Waits(cfg.w, u, p)
    && Fate(cfg.w, Fixed(f), [], u, p).resolution == Cacheless(cfg, f, u)
    && (!p.Done? ==> Fate(cfg.w, Fixed(f), [], u, p).fetched == LadderAlone(cfg, f, u).fetched)
    && (p.Probing? ==> PlanFrom(cfg.w, Fixed(f), [], p.k).plan == ThePlan(cfg, f))
  }

  ghost predicate Transparent(cfg: Config, f: Request -> Reply, family: Family, s: State) {
    && (forall inst :: inst in s.locals ==>
          RightMemory(cfg, f, family, s.locals[inst].mem) && RightPlan(cfg, f, s.locals[inst].plan))
    && RightDisk(cfg, f, family, s.disk)
    && forall t :: 0 <= t < |s.tasks| ==> family(s.tasks[t].urn) && OnCourse(cfg, f, s.tasks[t].urn, s.tasks[t].at)
  }

  // ------------------------------------------------------------------ what the ladder yields

  /** A resource is served at the pinned root when there is one, and its artifacts open to it. */
  predicate Reopens(w: World, u: Urn, got: Fetched) {
    && (u.root.Some? ==> got.root == u.root)
    && (got.artifacts.Some? ==>
          got.root.Some? && OpenArtifacts(w, u, got.artifacts.value, got.root.value) == Success(got))
  }

  lemma TierReopens(w: World, a: Adversary, log: seq<Exchange>, u: Urn, ep: Endpoint)
    ensures var r := TierFetch(w, a, log, u, ep).result; r.Success? ==> Reopens(w, u, r.value)
  {
    hide VerifyAndDecrypt, Rpc.Drain, Node.ReadReply;
    if ep.kind.NodeKind? {
      var reply := a(log, Serve(ServeUrl(ep.base, u)));
      Node.AcceptedExactly(w, u, reply);
      if Node.ReadReply(w, u, reply).Success? && Node.ReadReply(w, u, reply).value.artifacts.Some? {
        var got := Node.ReadReply(w, u, reply).value;
        OpenedExactly(w, u, got.artifacts.value, got.root.value, got.data);
      }
    }
  }

  lemma {:induction false} WalkReopens(w: World, a: Adversary, log: seq<Exchange>, u: Urn, plan: seq<Endpoint>, i: nat)
    ensures var v := Walk(w, a, log, u, plan, i); v.fetched.Some? ==> Reopens(w, u, v.fetched.value)
    decreases |plan| - i
  {
    hide TierFetch, Reopens;
    if i >= |plan| {
    } else {
      var answer := TierFetch(w, a, log, u, plan[i]);
      TierReopens(w, a, log, u, plan[i]);
      if FallsThrough(answer.result) {
        WalkReopens(w, a, answer.log, u, plan, i + 1);
      }
    }
  }

  lemma LadderFetched(cfg: Config, f: Request -> Reply, u: Urn)
    ensures var v := LadderAlone(cfg, f, u);
            && (v.fetched.Some? ==>
                  && Reopens(cfg.w, u, v.fetched.value)
                  && v.resolution == Success(Resolved(v.fetched.value.data)))
            && (v.resolution.Success? && v.resolution.value.Resolved? ==> v.fetched.Some?)
  {
    hide Walk, PlanSpec, Reopens;
    var p := PlanSpec(cfg.w, cfg.endpoint, Fixed(f), []);
    WalkReopens(cfg.w, Fixed(f), p.log, u, p.plan, 0);
    FetchedIsSuccess(cfg.w, Fixed(f), p.log, u, p.plan, 0);
  }

  /** Root-pinned URNs under one chain label always agree: they share no identity. */
  lemma PinnedOneChainCoherent(cfg: Config, f: Request -> Reply, hasDisk: bool, chain: string)
    ensures Coherent(cfg, f, hasDisk, (u: Urn) => u.root.Some? && u.chain == chain)
  {
    hide LadderAlone, CacheId, VerifyAndDecrypt;
    var family: Family := (u: Urn) => u.root.Some? && u.chain == chain;
    forall u: Urn, v: Urn | family(u) && family(v)
      ensures Agree(cfg, f, hasDisk, u, v)
    {
      LadderFetched(cfg, f, u);
      if CacheId(v, v.root.value) == CacheId(u, u.root.value) {
        PinnedIdInjective(u, v);
      }
    }
  }

  // ------------------------------------------------------------------ starting a resolve

  lemma StartOnCourse(cfg: Config, f: Request -> Reply, u: Urn, plan: Option<seq<Endpoint>>)
    requires RightPlan(cfg, f, plan)
    ensures var m := Start(cfg, plan, u);
            && OnCourse(cfg, f, u, m.next) && !m.learned.Got?
            && (m.learned.NewPlan? ==> RightPlan(cfg, f, Some(m.learned.plan)))
  {
    hide Walk, Enter, PlanFrom;
    var w, p := cfg.w, PlanSpec(cfg.w, cfg.endpoint, Fixed(f), []);
    if plan.Some? {
      EnterFate(w, Fixed(f), [], u, plan.value, 0);
      WalkForgets(w, f, [], p.log, u, plan.value, 0);
    } else if cfg.endpoint.Some? {
      EnterFate(w, Fixed(f), [], u, p.plan, 0);
    } else {
      ProbeFate(w, Fixed(f), [], u, 0);
    }
  }

  lemma RememberRight(cfg: Config, f: Request -> Reply, family: Family, st: Store, id: string, data: ResolvedData)
    requires RightMemory(cfg, f, family, st.mem)
    requires Lru.Admissible(cfg.maxEntries, cfg.maxBytes, data) ==> Right(cfg, f, family, id, data)
    ensures RightMemory(cfg, f, family, Remember(cfg, st, id, data).mem)
    ensures Remember(cfg, st, id, data).disk == st.disk && Remember(cfg, st, id, data).plan == st.plan
  {
    hide Right, Lru.Put, Lru.Distinct, Lru.Fits, Lru.Admissible;
    Lru.PutSpec(cfg.maxEntries, cfg.maxBytes, st.mem, id, data);
  }

  lemma TouchRight(cfg: Config, f: Request -> Reply, family: Family, mem: seq<Lru.Item>, id: string)
    requires RightMemory(cfg, f, family, mem)
    ensures RightMemory(cfg, f, family, Lru.Touch(mem, id))
    ensures Lru.Lookup(mem, id).Some? ==> Right(cfg, f, family, id, Lru.Lookup(mem, id).value)
  {
    hide Right, Lru.Touch, Lru.Lookup;
    Lru.TouchSpec(mem, id);
    Lru.LookupFound(mem, id);
  }

  /** What `u`'s own ladder yields is right under the identity it is kept at. */
  lemma OwnResultRight(cfg: Config, f: Request -> Reply, hasDisk: bool, family: Family, u: Urn, root: string)
    requires Coherent(cfg, f, hasDisk, family) && family(u)
    requires LadderAlone(cfg, f, u).fetched.Some? && LadderAlone(cfg, f, u).fetched.value.root == Some(root)
    ensures var got := LadderAlone(cfg, f, u).fetched.value;
            && (Lru.Admissible(cfg.maxEntries, cfg.maxBytes, got.data) ==>
                  Right(cfg, f, family, CacheId(u, root), got.data))
            && (hasDisk && got.artifacts.Some? ==>
                  RightArtifacts(cfg, f, family, CacheId(u, root), got.artifacts.value))
  {
    hide LadderAlone, CacheId, OpenAnswer, Cacheless;
    forall v: Urn | LooksUp(family, v, CacheId(u, root))
      ensures Agree(cfg, f, hasDisk, u, v)
    {}
  }

  /** Whatever the caches answer is what the ladder alone gives. */
  lemma ConsultRight(cfg: Config, f: Request -> Reply, family: Family, st: Store, u: Urn)
    requires Coherent(cfg, f, st.disk.Some?, family) && RightStore(cfg, f, family, st) && family(u)
    ensures var c := Consult(cfg, st, u);
            && RightStore(cfg, f, family, c.store) && c.store.disk.Some? == st.disk.Some?
            && (c.outcome.Some? ==> Cacheless(cfg, f, u) == Success(c.outcome.value))
  {
    hide Coherent, Cacheless, RightPlan, RightMemory, RightDisk, CacheId, Lru.Touch, Lru.Lookup, Remember;
    hide VerifyAndDecrypt, DiskGetVerified;
    if u.root.Some? {
      var id := CacheId(u, u.root.value);
      assert LooksUp(family, u, id);
      TouchRight(cfg, f, family, st.mem, id);
      if Lru.Lookup(st.mem, id).None? {
        DiskRight(cfg, f, family, st, u);
        var d := DiskGetVerified(cfg, st, u, id);
        if d.outcome.Some? && d.outcome.value.Resolved? {
          VerifiedHitRight(cfg, f, st.disk.Some?, family, u, d.outcome.value.data);
          RememberRight(cfg, f, family, d.store, id, d.outcome.value.data);
        }
      }
    }
  }

  lemma VerifiedHitRight(cfg: Config, f: Request -> Reply, hasDisk: bool, family: Family, u: Urn, data: ResolvedData)
    requires Coherent(cfg, f, hasDisk, family) && family(u) && u.root.Some?
    requires Cacheless(cfg, f, u) == Success(Resolved(data))
    ensures Lru.Admissible(cfg.maxEntries, cfg.maxBytes, data) ==> Right(cfg, f, family, CacheId(u, u.root.value), data)
  {
    hide LadderAlone, Coherent, Right, CacheId;
    LadderFetched(cfg, f, u);
    OwnResultRight(cfg, f, hasDisk, family, u, u.root.value);
  }

  lemma DiskRight(cfg: Config, f: Request -> Reply, family: Family, st: Store, u: Urn)
    requires RightDisk(cfg, f, family, st.disk) && family(u) && u.root.Some?
    ensures var d := DiskGetVerified(cfg, st, u, CacheId(u, u.root.value));
            && d.store.mem == st.mem && d.store.plan == st.plan && d.store.disk.Some? == st.disk.Some?
            && RightDisk(cfg, f, family, d.store.disk)
            && (d.outcome.Some? ==> Cacheless(cfg, f, u) == Success(d.outcome.value))
  {
    hide Cacheless, CacheId, VerifyAndDecrypt;
    var id := CacheId(u, u.root.value);
    if st.disk.Some? && id in st.disk.value {
      assert LooksUp(family, u, id);
      assert RightArtifacts(cfg, f, family, id, st.disk.value[id]);
    }
  }

  lemma BeginRight(cfg: Config, f: Request -> Reply, family: Family, st: Store, u: Urn)
    requires Coherent(cfg, f, st.disk.Some?, family) && RightStore(cfg, f, family, st) && family(u)
    ensures var (st', p) := Begin(cfg, st, u);
            RightStore(cfg, f, family, st') && OnCourse(cfg, f, u, p)
  {
    hide Coherent, Consult, Start, RightMemory, RightDisk, Cacheless, LadderAlone, PlanFrom, ThePlan;
    ConsultRight(cfg, f, family, st, u);
    var c := Consult(cfg, st, u);
    if c.outcome.None? {
      StartOnCourse(cfg, f, u, c.store.plan);
    }
  }

  // ------------------------------------------------------------------ a reply arrives

  lemma KeepRight(cfg: Config, f: Request -> Reply, family: Family, st: Store, u: Urn, got: Fetched)
    requires Coherent(cfg, f, st.disk.Some?, family) && RightStore(cfg, f, family, st) && family(u)
    requires LadderAlone(cfg, f, u).fetched == Some(got)
    ensures RightStore(cfg, f, family, CacheSuccess(cfg, st, u, got))
  {
    hide Coherent, LadderAlone, CacheId, Remember, RightMemory, RightPlan, Right, RightArtifacts;
    if got.root.Some? {
      OwnResultRight(cfg, f, st.disk.Some?, family, u, got.root.value);
      RememberRight(cfg, f, family, st, CacheId(u, got.root.value), got.data);
    }
  }

  lemma ResumeRight(cfg: Config, f: Request -> Reply, family: Family, st: Store, u: Urn, p: Pending)
    requires Coherent(cfg, f, st.disk.Some?, family) && RightStore(cfg, f, family, st) && family(u)
    requires OnCourse(cfg, f, u, p) && !p.Done?
    ensures var m := Resume(cfg.w, u, p, f(RequestOf(cfg.w, u, p)));
            OnCourse(cfg, f, u, m.next) && RightStore(cfg, f, family, Learn(cfg, st, u, m.learned))
  {
    hide Coherent, Cacheless, LadderAlone, Resume, RequestOf, Fate, RightMemory, RightDisk, CacheSuccess, PlanFrom;
    hide ThePlan;
    var e := Next(cfg.w, Fixed(f), [], u, p);
    var m := Resume(cfg.w, u, p, e.reply);
    FateStep(cfg.w, Fixed(f), [], u, p);
    FateForgets(cfg.w, f, [] + [e], [], u, m.next);
    PlanOnCourse(cfg, f, u, p);
    if m.learned.Got? {
      KeepRight(cfg, f, family, st, u, m.learned.fetched);
    }
  }

  lemma PlanOnCourse(cfg: Config, f: Request -> Reply, u: Urn, p: Pending)
    requires OnCourse(cfg, f, u, p) && !p.Done?
    ensures var m := Resume(cfg.w, u, p, f(RequestOf(cfg.w, u, p)));
            && (m.learned.NewPlan? ==> RightPlan(cfg, f, Some(m.learned.plan)))
            && (m.next.Probing? ==> PlanFrom(cfg.w, Fixed(f), [], m.next.k).plan == ThePlan(cfg, f))
  {
    hide Cacheless, LadderAlone, Fate, PlanFrom, Enter, Rpc.OnReply, Rpc.Finish, Node.ReadReply, IsLoopbackBase;
    if p.Probing? {
      var e := Next(cfg.w, Fixed(f), [], u, p);
      ProbeStep(cfg.w, Fixed(f), [], u, p.k);
      var m := Resume(cfg.w, u, p, e.reply);
      if m.next.Probing? {
        PlanForgets(cfg.w, f, [] + [e], [], m.next.k);
      }
    }
  }

  // ------------------------------------------------------------------ runs

  /** The runs the theorem is about: replies are the transport's, launched URNs are the family's,
      and the environment only loses disk entries. */
  predicate Fair(cfg: Config, f: Request -> Reply, family: Family, s: State, act: Action) {
    match act
    case Launch(_, u) => family(u)
    case Deliver(t, reply) => Deliverable(cfg, s, t) ==> reply == f(RequestOf(cfg.w, s.tasks[t].urn, s.tasks[t].at))
    case Meddle(files) => s.disk.Some? ==> forall id :: id in files ==>
        id in s.disk.value && files[id] == s.disk.value[id]
  }

  predicate FairRun(cfg: Config, f: Request -> Reply, family: Family, s: State, acts: seq<Action>)
    decreases |acts|
  {
    acts != [] ==>
      && FairRun(cfg, f, family, s, acts[..|acts| - 1])
      && Fair(cfg, f, family, After(cfg, s, acts[..|acts| - 1]), acts[|acts| - 1])
  }

  lemma EmptyRight(cfg: Config, f: Request -> Reply, family: Family)
    ensures RightMemory(cfg, f, family, []) && RightPlan(cfg, f, None)
  {}

  lemma LaunchTransparent(cfg: Config, f: Request -> Reply, family: Family, s: State, inst: nat, u: Urn)
    requires Coherent(cfg, f, s.disk.Some?, family) && Transparent(cfg, f, family, s) && family(u)
    ensures Transparent(cfg, f, family, Do(cfg, s, Launch(inst, u)))
  {
    hide Coherent, OnCourse, RightMemory, RightPlan, RightDisk, Begin;
    EmptyRight(cfg, f, family);
    BeginRight(cfg, f, family, View(s, inst), u);
  }

  lemma DeliverTransparent(cfg: Config, f: Request -> Reply, family: Family, s: State, t: nat)
    requires Coherent(cfg, f, s.disk.Some?, family) && Transparent(cfg, f, family, s) && Deliverable(cfg, s, t)
    ensures var reply := f(RequestOf(cfg.w, s.tasks[t].urn, s.tasks[t].at));
            Transparent(cfg, f, family, Do(cfg, s, Deliver(t, reply)))
  {
    hide Coherent, OnCourse, RightMemory, RightPlan, RightDisk, Resume, Learn, RequestOf;
    EmptyRight(cfg, f, family);
    ResumeRight(cfg, f, family, View(s, s.tasks[t].inst), s.tasks[t].urn, s.tasks[t].at);
  }

  lemma StepTransparent(cfg: Config, f: Request -> Reply, family: Family, s: State, act: Action)
    requires Coherent(cfg, f, s.disk.Some?, family)
    requires Transparent(cfg, f, family, s) && Fair(cfg, f, family, s, act)
    ensures Transparent(cfg, f, family, Do(cfg, s, act))
  {
    hide Coherent, OnCourse, RightMemory, RightArtifacts, Resume, Learn, Begin, RequestOf;
    match act
    case Launch(inst, u) => LaunchTransparent(cfg, f, family, s, inst, u);
    case Meddle(files) =>
    case Deliver(t, reply) =>
      if Deliverable(cfg, s, t) {
        DeliverTransparent(cfg, f, family, s, t);
      }
  }

  lemma {:induction false} RunsTransparent(cfg: Config, f: Request -> Reply, family: Family,
                                           disk: Option<map<string, Artifacts>>, acts: seq<Action>)
    requires Coherent(cfg, f, disk.Some?, family)
    requires disk.Some? ==> disk.value == map[]
    requires FairRun(cfg, f, family, Initial(disk), acts)
    ensures Transparent(cfg, f, family, After(cfg, Initial(disk), acts))
    ensures After(cfg, Initial(disk), acts).disk.Some? == disk.Some?
    decreases |acts|
  {
    hide Do, Transparent, Fair, Coherent;
    if acts != [] {
      var s := After(cfg, Initial(disk), acts[..|acts| - 1]);
      RunsTransparent(cfg, f, family, disk, acts[..|acts| - 1]);
      StepTransparent(cfg, f, family, s, acts[|acts| - 1]);
      DiskStays(cfg, s, acts[|acts| - 1]);
    } else {
      InitialTransparent(cfg, f, family, disk);
    }
  }

  lemma InitialTransparent(cfg: Config, f: Request -> Reply, family: Family, disk: Option<map<string, Artifacts>>)
    requires disk.Some? ==> disk.value == map[]
    ensures Transparent(cfg, f, family, Initial(disk))
  {}

  /** Every finished resolve in `s` has exactly the outcome of the cacheless ladder walk: bytes,
      content type and failures alike. */
  predicate Cachelike(cfg: Config, f: Request -> Reply, s: State) {
    forall t :: 0 <= t < |s.tasks| && s.tasks[t].at.Done? ==>
        s.tasks[t].at.resolution == Cacheless(cfg, f, s.tasks[t].urn)
  }

  /** Cache transparency for a coherent family. */
  lemma CoherentIsTransparent(cfg: Config, f: Request -> Reply, family: Family, disk: Option<map<string, Artifacts>>,
                              acts: seq<Action>)
    requires Coherent(cfg, f, disk.Some?, family)
    requires disk.Some? ==> disk.value == map[]
    requires FairRun(cfg, f, family, Initial(disk), acts)
    ensures Cachelike(cfg, f, After(cfg, Initial(disk), acts))
  {
    hide Do, Cacheless, LadderAlone, Coherent;
    RunsTransparent(cfg, f, family, disk, acts);
  }

  /** Cache transparency for root-pinned URNs under one chain label: no condition on anything. */
  lemma CacheTransparency(cfg: Config, f: Request -> Reply, chain: string, disk: Option<map<string, Artifacts>>,
                          acts: seq<Action>)
    requires disk.Some? ==> disk.value == map[]
    requires FairRun(cfg, f, (u: Urn) => u.root.Some? && u.chain == chain, Initial(disk), acts)
    ensures Cachelike(cfg, f, After(cfg, Initial(disk), acts))
  {
    hide Do, Cacheless, Coherent, FairRun;
    PinnedOneChainCoherent(cfg, f, disk.Some?, chain);
    CoherentIsTransparent(cfg, f, (u: Urn) => u.root.Some? && u.chain == chain, disk, acts);
  }

  // ------------------------------------------------------------------ one object, one call after another

  /** The same for the `Resolver` object: a call that starts with right caches answers as the ladder
      alone would and leaves them right, whatever was exchanged before. */
  lemma ResolveTransparent(cfg: Config, f: Request -> Reply, family: Family, log: seq<Exchange>, st: Store, u: Urn)
    requires Coherent(cfg, f, st.disk.Some?, family) && RightStore(cfg, f, family, st) && family(u)
    ensures var o := ResolveSpec(cfg, Fixed(f), log, st, u);
            && o.resolution == Cacheless(cfg, f, u)
            && RightStore(cfg, f, family, o.store) && o.store.disk.Some? == st.disk.Some?
  {
    hide Coherent, Walk, PlanFrom, RightMemory, RightDisk, Consult, CacheSuccess;
    ConsultRight(cfg, f, family, st, u);
    ConsultFacts(cfg, st, u);
    var c := Consult(cfg, st, u);
    if c.outcome.None? {
      var p := PlanSpec(cfg.w, cfg.endpoint, Fixed(f), log);
      var p0 := PlanSpec(cfg.w, cfg.endpoint, Fixed(f), []);
      PlanForgets(cfg.w, f, log, [], 0);
      WalkForgets(cfg.w, f, p.log, p0.log, u, p0.plan, 0);
      WalkForgets(cfg.w, f, log, p0.log, u, p0.plan, 0);
      var planned := c.store.(plan := Some(p0.plan));
      var fetched := LadderAlone(cfg, f, u).fetched;
      if fetched.Some? {
        KeepRight(cfg, f, family, planned, u, fetched.value);
        KeepKeepsDisk(cfg, planned, u, fetched.value);
      }
    }
  }

  lemma KeepKeepsDisk(cfg: Config, st: Store, u: Urn, got: Fetched)
    ensures CacheSuccess(cfg, st, u, got).disk.Some? == st.disk.Some?
  {}

  /** The same for a whole session: one resolver, started with nothing cached, serving any sequence
      of URNs of a coherent family, answers each as the ladder alone would. */
  lemma SessionTransparent(cfg: Config, f: Request -> Reply, family: Family, disk: Option<map<string, Artifacts>>,
                           log: seq<Exchange>, urns: seq<Urn>)
    requires Coherent(cfg, f, disk.Some?, family) && (disk.Some? ==> disk.value == map[])
    requires forall u :: u in urns ==> family(u)
    ensures var answers := Session(cfg, Fixed(f), log, Store([], None, disk), urns).answers;
            |answers| == |urns| && forall i :: 0 <= i < |urns| ==> answers[i] == Cacheless(cfg, f, urns[i])
  {
    hide Coherent, Cacheless, Session;
    SessionRight(cfg, f, family, log, Store([], None, disk), urns);
  }

  lemma {:induction false} SessionRight(cfg: Config, f: Request -> Reply, family: Family, log: seq<Exchange>,
                                        st: Store, urns: seq<Urn>)
    requires Coherent(cfg, f, st.disk.Some?, family) && RightStore(cfg, f, family, st)
    requires forall u :: u in urns ==> family(u)
    ensures var answers := Session(cfg, Fixed(f), log, st, urns).answers;
            |answers| == |urns| && forall i :: 0 <= i < |urns| ==> answers[i] == Cacheless(cfg, f, urns[i])
    decreases |urns|
  {
    hide Coherent, Cacheless, ResolveSpec, RightStore;
    if urns == [] {
    } else {
      var o := ResolveSpec(cfg, Fixed(f), log, st, urns[0]);
      ResolveTransparent(cfg, f, family, log, st, urns[0]);
      SessionRight(cfg, f, family, o.log, o.store, urns[1..]);
    }
  }
}
