/** The resolver: memory LRU, then disk, then the ladder walk over the cached plan. The functions
    say what one undisturbed resolve does; the class does it in place and is proved against them. */
module Resolving {
  import opened Wrappers
  import opened Text
  import opened Types
  import opened Net
  import opened Worlds
  import opened Identity
  import opened Ladder
  import opened Cache
  import Lru
  import Node
  import Rpc

  /** What is fixed for a resolver's life. */
  datatype Config = Config(w: World, endpoint: Option<string>, maxEntries: nat, maxBytes: nat)

  /** What a resolver remembers: the memory cache (oldest entry first), the plan once built, and
      the disk when one is configured. */
  datatype Store = Store(mem: seq<Lru.Item>, plan: Option<seq<Endpoint>>, disk: Option<map<string, Artifacts>>)

  function Remember(cfg: Config, st: Store, id: string, data: ResolvedData): Store {
    st.(mem := Lru.Put(cfg.maxEntries, cfg.maxBytes, st.mem, id, data))
  }

  /** Cache a success under the concrete root it was served at; on disk too when it can be
      verified again. Without a root there is no identity to cache it under. */
  function CacheSuccess(cfg: Config, st: Store, u: Urn, f: Fetched): Store {
    match f.root
    case None => st
    case Some(root) =>
      var id := CacheId(u, root);
      var st' := Remember(cfg, st, id, f.data);
      if st.disk.Some? && f.artifacts.Some? then st'.(disk := Some(st.disk.value[id := f.artifacts.value])) else st'
  }

  datatype Consulted = Consulted(store: Store, outcome: Option<ResolveOutcome>)

  /** A disk entry is verified again before use; one that fails is dropped. */
  function DiskGetVerified(cfg: Config, st: Store, u: Urn, id: string): Consulted {
    if st.disk.None? || u.root.None? || id !in st.disk.value then Consulted(st, None)
    else
      var art := st.disk.value[id];
      var dropped := st.(disk := Some(st.disk.value - {id}));
      match VerifyAndDecrypt(cfg.w, u, art, u.root.value)
      case Success(bytes) => Consulted(st, Some(Resolved(ResolvedData(bytes, cfg.w.mime(u.key, bytes)))))
      case Failure(e) =>
        if e.VerifyFailed? || e.DecryptFailed?
        then Consulted(dropped, Some(IntegrityFailure))
        else Consulted(dropped, None)
  }

  /** The cache layers, consulted only when the URN pins a root. */
  function Consult(cfg: Config, st: Store, u: Urn): Consulted {
    if u.root.None? then Consulted(st, None)
    else
      var id := CacheId(u, u.root.value);
      match Lru.Lookup(st.mem, id)
      case Some(data) => Consulted(st.(mem := Lru.Touch(st.mem, id)), Some(Resolved(data)))
      case None =>
        var c := DiskGetVerified(cfg, st, u, id);
        if c.outcome.Some? && c.outcome.value.Resolved?
        then c.(store := Remember(cfg, c.store, id, c.outcome.value.data))
        else c
  }

  function TierFetch(w: World, a: Adversary, log: seq<Exchange>, u: Urn, ep: Endpoint): Rpc.Answer {
    match ep.kind
    case RpcKind => Rpc.FetchSpec(w, a, log, u, ep.base)
    case NodeKind =>
      var request := Serve(ServeUrl(ep.base, u));
      var reply := a(log, request);
      Rpc.Answer(Node.ReadReply(w, u, reply), log + [Exchange(request, reply)])
  }

  datatype Verdict = Verdict(resolution: Resolution, fetched: Option<Fetched>, log: seq<Exchange>)

  /** Walk the plan from tier `i`. */
  function Walk(w: World, a: Adversary, log: seq<Exchange>, u: Urn, plan: seq<Endpoint>, i: nat): Verdict
    decreases |plan| - i, 1
  {
    if i >= |plan| then Verdict(Success(Unreachable), None, log)
    else
      var answer := TierFetch(w, a, log, u, plan[i]);
      Decide(w, a, answer.log, u, plan, i, answer.result)
  }

  /** What tier `i`'s result means: stop, or go on to the next tier on absence or unreachability. */
  function Decide(w: World, a: Adversary, log: seq<Exchange>, u: Urn, plan: seq<Endpoint>, i: nat,
                  result: Result<Fetched, Error>): Verdict
    decreases |plan| - i, 0
  {
    match result
    case Success(f) => Verdict(Success(Resolved(f.data)), Some(f), log)
    case Failure(e) =>
      match e
      case VerifyFailed => Verdict(Success(IntegrityFailure), None, log)
      case DecryptFailed => Verdict(Success(IntegrityFailure), None, log)
      case NotFound =>
        if i + 1 >= |plan| then Verdict(Failure(NotFound), None, log) else Walk(w, a, log, u, plan, i + 1)
      case Transport =>
        if i + 1 >= |plan| then Verdict(Success(Unreachable), None, log) else Walk(w, a, log, u, plan, i + 1)
      case other => Verdict(Failure(other), None, log)
  }

  datatype Outcome = Outcome(store: Store, resolution: Resolution, log: seq<Exchange>)

  /** One resolve, undisturbed. */
  function ResolveSpec(cfg: Config, a: Adversary, log: seq<Exchange>, st: Store, u: Urn): Outcome {
    var c := Consult(cfg, st, u);
    if c.outcome.Some? then Outcome(c.store, Success(c.outcome.value), log)
    else
      var p := if c.store.plan.Some? then Planned(c.store.plan.value, log) else PlanSpec(cfg.w, cfg.endpoint, a, log);
      var v := Walk(cfg.w, a, p.log, u, p.plan, 0);
      var planned := c.store.(plan := Some(p.plan));
      Outcome(if v.fetched.Some? then CacheSuccess(cfg, planned, u, v.fetched.value) else planned, v.resolution, v.log)
  }

  /** The ladder alone, over a transport that is a fixed function of the request: no cache
      consulted and no plan remembered. */
  function LadderAlone(cfg: Config, f: Request -> Reply, u: Urn): Verdict {
    var p := PlanSpec(cfg.w, cfg.endpoint, Fixed(f), []);
    Walk(cfg.w, Fixed(f), p.log, u, p.plan, 0)
  }

  function Cacheless(cfg: Config, f: Request -> Reply, u: Urn): Resolution {
    LadderAlone(cfg, f, u).resolution
  }

  // ------------------------------------------------------------------ the object

  class Resolver {
    const w: World
    const endpoint: Option<string>
    const memory: MemoryCache
    const disk: DiskCache?
    const transport: Transport
    var planCache: Option<seq<Endpoint>>

    ghost predicate Valid()
      reads memory
    {
      memory.Valid()
    }

    ghost function Cfg(): Config {
      Config(w, endpoint, memory.maxEntries, memory.maxBytes)
    }

    ghost function State(): Store
      reads this, memory, disk
    {
      Store(memory.items, planCache, if disk == null then None else Some(disk.files))
    }

    constructor (w: World, endpoint: Option<string>, disk: DiskCache?, transport: Transport)
      ensures Valid() && fresh(memory) && this.disk == disk && this.transport == transport
      ensures Cfg() == Config(w, endpoint, 256, 33_554_432)
      ensures State() == Store([], None, if disk == null then None else Some(disk.files))
    {
      this.w, this.endpoint, this.disk, this.transport := w, endpoint, disk, transport;
      memory := new MemoryCache(DEFAULT_MEMORY_ENTRIES, DEFAULT_MEMORY_BYTES);
      planCache := None;
    }

    method Plan() returns (plan: seq<Endpoint>)
      requires Valid()
      modifies this, transport
      ensures Valid()
      ensures var p := if old(planCache).Some? then Planned(old(planCache).value, old(transport.log))
                       else PlanSpec(w, endpoint, transport.answer, old(transport.log));
              plan == p.plan && transport.log == p.log
      ensures planCache == Some(plan)
    {
      if planCache.Some? {
        return planCache.value;
      }
      plan := BuildPlan(w, transport, endpoint);
      planCache := Some(plan);
    }

    method FetchFrom(ep: Endpoint, u: Urn) returns (r: Result<Fetched, Error>)
      modifies transport
      ensures Rpc.Answer(r, transport.log) == TierFetch(w, transport.answer, old(transport.log), u, ep)
    {
      match ep.kind {
        case NodeKind => r := Node.Fetch(w, transport, ep.base, u);
        case RpcKind => r := Rpc.Fetch(w, transport, ep.base, u);
      }
    }

    method DiskLookup(u: Urn, id: string) returns (outcome: Option<ResolveOutcome>)
      requires Valid()
      modifies disk
      ensures Valid()
      ensures Consulted(State(), outcome) == DiskGetVerified(Cfg(), old(State()), u, id)
    {
      if disk == null || u.root.None? {
        return None;
      }
      var art := disk.Get(id);
      if art.None? {
        return None;
      }
      match VerifyAndDecrypt(w, u, art.value, u.root.value) {
        case Success(bytes) =>
          return Some(Resolved(ResolvedData(bytes, w.mime(u.key, bytes))));
        case Failure(e) =>
          disk.Remove(id);
          return if e.VerifyFailed? || e.DecryptFailed? then Some(IntegrityFailure) else None;
      }
    }

    method Keep(u: Urn, f: Fetched)
      requires Valid()
      modifies memory, disk
      ensures Valid()
      ensures State() == CacheSuccess(Cfg(), old(State()), u, f)
    {
      if f.root.None? {
        return;
      }
      var id := CacheId(u, f.root.value);
      memory.Put(id, f.data);
      if disk != null && f.artifacts.Some? {
        disk.Put(id, f.artifacts.value);
      }
    }

    /** The caches are consulted only when the content identity is known up front. */
    method LookUpCaches(u: Urn) returns (outcome: Option<ResolveOutcome>)
      requires Valid()
      modifies memory, disk
      ensures Valid()
      ensures Consulted(State(), outcome) == Consult(Cfg(), old(State()), u)
    {
      if u.root.None? {
        return None;
      }
      var id := CacheId(u, u.root.value);
      var data := memory.Get(id);
      if data.Some? {
        return Some(Resolved(data.value));
      }
      assert State() == old(State());
      outcome := DiskLookup(u, id);
      if outcome.Some? && outcome.value.Resolved? {
        memory.Put(id, outcome.value.data);
      }
    }

    /** A syntactically invalid URN is refused before anything is touched. */
    method Resolve(text: string) returns (r: Resolution)
      requires Valid()
      modifies this, memory, disk, transport
      ensures Valid()
      ensures match w.parse(text)
              case None => r == Failure(Parse) && State() == old(State()) && transport.log == old(transport.log)
              case Some(u) =>
                Outcome(State(), r, transport.log)
                    == ResolveSpec(Cfg(), transport.answer, old(transport.log), old(State()), u)
    {
      hide TierFetch, CacheSuccess, Consult, PlanSpec;
      var parsed := w.parse(text);
      if parsed.None? {
        return Failure(Parse);
      }
      var u := parsed.value;
      var hit := LookUpCaches(u);
      if hit.Some? {
        return Success(hit.value);
      }
      var plan := Plan();
      ghost var start := transport.log;
      ghost var planned := State();
      for i := 0 to |plan|
        invariant Valid() && State() == planned
        invariant Walk(w, transport.answer, start, u, plan, 0) == Walk(w, transport.answer, transport.log, u, plan, i)
      {
        var result := FetchFrom(plan[i], u);
        match result {
          case Success(f) =>
            Keep(u, f);
            return Success(Resolved(f.data));
          case Failure(e) =>
            match e {
              case VerifyFailed => return Success(IntegrityFailure);
              case DecryptFailed => return Success(IntegrityFailure);
              case NotFound =>
                if i == |plan| - 1 {
                  return Failure(NotFound);
                }
              case Transport =>
                if i == |plan| - 1 {
                  return Success(Unreachable);
                }
              case other => return Failure(other);
            }
        }
      }
      return Success(Unreachable);
    }
  }

  // ------------------------------------------------------------------ the ladder walk

  predicate FallsThrough(result: Result<Fetched, Error>) {
    result.Failure? && (result.error.NotFound? || result.error.Transport?)
  }

  /** The outcome a deciding tier gives the whole resolve. */
  function Conclude(result: Result<Fetched, Error>): Resolution {
    match result
    case Success(f) => Success(Resolved(f.data))
    case Failure(e) =>
      if e.VerifyFailed? || e.DecryptFailed? then Success(IntegrityFailure)
      else if e.Transport? then Success(Unreachable)
      else Failure(e)
  }

  /** The trace once the tiers before `d` have all been asked, each from the trace the one
      before left. */
  function TraceBefore(w: World, a: Adversary, log: seq<Exchange>, u: Urn, plan: seq<Endpoint>, d: nat): seq<Exchange>
    requires d <= |plan|
  {
    if d == 0 then log else TierFetch(w, a, TraceBefore(w, a, log, u, plan, d - 1), u, plan[d - 1]).log
  }

  /** What tier `d` answers if the walk gets that far. */
  function AnswerAt(w: World, a: Adversary, log: seq<Exchange>, u: Urn, plan: seq<Endpoint>, d: nat): Rpc.Answer
    requires d < |plan|
  {
    TierFetch(w, a, TraceBefore(w, a, log, u, plan, d), u, plan[d])
  }

  /** Absence and unreachability, and no other result, send a walk on to the next tier. */
  predicate Passed(result: Result<Fetched, Error>) {
    result == Failure(NotFound) || result == Failure(Error.Transport)
  }

  /** `d` is the first tier whose result is neither absence nor unreachability, or the last tier. */
  predicate Decider(w: World, a: Adversary, log: seq<Exchange>, u: Urn, plan: seq<Endpoint>, d: nat) {
    && d < |plan|
    && (forall k :: 0 <= k < d ==> Passed(AnswerAt(w, a, log, u, plan, k).result))
    && (d + 1 == |plan| || !Passed(AnswerAt(w, a, log, u, plan, d).result))
  }

  /** What the deciding tier's result makes of the whole resolve: bytes are returned, bytes that fail
      verification are an integrity failure, an unreachable tier is the unreachable outcome, and every
      other error is the resolve's own. */
  predicate Decides(result: Result<Fetched, Error>, resolution: Resolution) {
    && (result.Success? ==> resolution == Success(Resolved(result.value.data)))
    && (result == Failure(VerifyFailed) || result == Failure(DecryptFailed) ==> resolution == Success(IntegrityFailure))
    && (result == Failure(Error.Transport) ==> resolution == Success(Unreachable))
    && (result.Failure? && result.error in {Parse, Error.Rpc, NotFound, RootRequired} ==>
          resolution == Failure(result.error))
  }

  lemma {:induction false} WalkReaches(w: World, a: Adversary, log: seq<Exchange>, u: Urn, plan: seq<Endpoint>, d: nat)
    requires d < |plan| && forall k :: 0 <= k < d ==> FallsThrough(AnswerAt(w, a, log, u, plan, k).result)
    ensures Walk(w, a, log, u, plan, 0) == Walk(w, a, TraceBefore(w, a, log, u, plan, d), u, plan, d)
  {
    hide TierFetch;
    if d == 0 {
    } else {
      WalkReaches(w, a, log, u, plan, d - 1);
      assert FallsThrough(AnswerAt(w, a, log, u, plan, d - 1).result);
    }
  }

  lemma {:induction false} DeciderFrom(w: World, a: Adversary, log: seq<Exchange>, u: Urn, plan: seq<Endpoint>, i: nat)
    requires i < |plan| && forall k :: 0 <= k < i ==> FallsThrough(AnswerAt(w, a, log, u, plan, k).result)
    ensures exists d :: Decider(w, a, log, u, plan, d)
    decreases |plan| - i
  {
    hide TierFetch;
    if FallsThrough(AnswerAt(w, a, log, u, plan, i).result) && i + 1 < |plan| {
      DeciderFrom(w, a, log, u, plan, i + 1);
    } else {
      assert Decider(w, a, log, u, plan, i);
    }
  }

  /** The walk over a plan of any length: there is one deciding tier, its result is the whole
      walk's, and the trace ends with its requests. */
  lemma LadderDecides(w: World, a: Adversary, log: seq<Exchange>, u: Urn, plan: seq<Endpoint>)
    requires plan != []
    ensures exists d :: Decider(w, a, log, u, plan, d)
    ensures forall d :: Decider(w, a, log, u, plan, d) ==>
              && Walk(w, a, log, u, plan, 0).resolution == Conclude(AnswerAt(w, a, log, u, plan, d).result)
              && Decides(AnswerAt(w, a, log, u, plan, d).result, Walk(w, a, log, u, plan, 0).resolution)
              && Walk(w, a, log, u, plan, 0).log == AnswerAt(w, a, log, u, plan, d).log
  {
    hide TierFetch;
    DeciderFrom(w, a, log, u, plan, 0);
    forall d | Decider(w, a, log, u, plan, d)
      ensures Walk(w, a, log, u, plan, 0).resolution == Conclude(AnswerAt(w, a, log, u, plan, d).result)
      ensures Decides(AnswerAt(w, a, log, u, plan, d).result, Walk(w, a, log, u, plan, 0).resolution)
      ensures Walk(w, a, log, u, plan, 0).log == AnswerAt(w, a, log, u, plan, d).log
    {
      WalkReaches(w, a, log, u, plan, d);
    }
  }

  /** A request made on behalf of tier `ep`: to its own base, and at a gateway for the URN's own
      pinned root only. */
  predicate AddressedTo(w: World, u: Urn, ep: Endpoint, request: Request) {
    match ep.kind
    case NodeKind => request == Serve(ServeUrl(ep.base, u))
    case RpcKind => Rpc.IsPost(w, u, TrimSlashes(ep.base), request)
  }

  lemma TierRequests(w: World, a: Adversary, log: seq<Exchange>, u: Urn, ep: Endpoint) returns (sent: seq<Exchange>)
    ensures TierFetch(w, a, log, u, ep).log == log + sent
    ensures forall i :: 0 <= i < |sent| ==> AddressedTo(w, u, ep, sent[i].request)
    ensures ep.kind.RpcKind? && u.root.None? ==>
        sent == [] && TierFetch(w, a, log, u, ep).result == Failure(RootRequired)
  {
    if ep.kind.NodeKind? {
      var request := Serve(ServeUrl(ep.base, u));
      sent := [Exchange(request, a(log, request))];
    } else if u.root.None? {
      sent := [];
      assert log + sent == log;
    } else {
      var log' := TierFetch(w, a, log, u, ep).log;
      Rpc.AdversarialBounds(w, a, log, u, TrimSlashes(ep.base));
      sent := log'[|log|..];
    }
  }

  predicate AddressedSomewhere(w: World, u: Urn, plan: seq<Endpoint>, last: nat, request: Request) {
    exists k :: 0 <= k <= last && k < |plan| && AddressedTo(w, u, plan[k], request)
  }

  /** What the tiers up to `d` add to the trace: requests to those tiers only. */
  lemma {:induction false} TraceAddressed(w: World, a: Adversary, log: seq<Exchange>, u: Urn, plan: seq<Endpoint>,
                                          d: nat)
    returns (sent: seq<Exchange>)
    requires d < |plan|
    ensures AnswerAt(w, a, log, u, plan, d).log == log + sent
    ensures forall j :: 0 <= j < |sent| ==> AddressedSomewhere(w, u, plan, d, sent[j].request)
  {
    hide TierFetch;
    var before := [];
    if d > 0 {
      before := TraceAddressed(w, a, log, u, plan, d - 1);
    } else {
      assert log + before == log;
    }
    var last := TierRequests(w, a, TraceBefore(w, a, log, u, plan, d), u, plan[d]);
    sent := before + last;
    assert log + before + last == log + sent;
    forall j | 0 <= j < |sent|
      ensures AddressedSomewhere(w, u, plan, d, sent[j].request)
    {
      if j < |before| {
        assert AddressedSomewhere(w, u, plan, d - 1, before[j].request);
      } else {
        assert AddressedTo(w, u, plan[d], sent[j].request);
      }
    }
  }

  /** An integrity failure stops the ladder: some tier's bytes were refused, every tier before it
      fell through, and everything the walk added to the trace went to tiers up to that one. */
  lemma IntegrityStopsTheLadder(w: World, a: Adversary, log: seq<Exchange>, u: Urn, plan: seq<Endpoint>)
    returns (d: nat)
    requires Walk(w, a, log, u, plan, 0).resolution == Success(IntegrityFailure)
    ensures Decider(w, a, log, u, plan, d)
    ensures AnswerAt(w, a, log, u, plan, d).result == Failure(VerifyFailed)
      || AnswerAt(w, a, log, u, plan, d).result == Failure(DecryptFailed)
    ensures var log' := Walk(w, a, log, u, plan, 0).log;
            log <= log' && forall j :: |log| <= j < |log'| ==> AddressedSomewhere(w, u, plan, d, log'[j].request)
  {
    hide TierFetch;
    LadderDecides(w, a, log, u, plan);
    d :| Decider(w, a, log, u, plan, d);
    var sent := TraceAddressed(w, a, log, u, plan, d);
    assert forall j :: |log| <= j < |log + sent| ==> (log + sent)[j] == sent[j - |log|];
  }

  // ------------------------------------------------------------------ failures and healing

  lemma ConsultFacts(cfg: Config, st: Store, u: Urn)
    ensures var c := Consult(cfg, st, u);
            && c.store.plan == st.plan
            && (c.outcome != None && c.outcome.value.Resolved? ==> u.root.Some?)
            && (c.outcome == None || !c.outcome.value.Resolved? ==>
                  && c.store.mem == st.mem && c.store.disk.Some? == st.disk.Some?
                  && (st.disk.Some? ==> forall id :: id in c.store.disk.value ==>
                        id in st.disk.value && c.store.disk.value[id] == st.disk.value[id]))
  {}

  /** What the disk layer does with the entry it finds, exactly. One that the gate opens is answered and
      stays. Any other is removed: as an integrity failure when the gate or its encodings refuse it, and
      as a miss when it is malformed. Nothing else on the disk and nothing in memory changes. */
  lemma DiskExactly(cfg: Config, st: Store, u: Urn, id: string)
    requires u.root.Some? && st.disk.Some? && id in st.disk.value
    ensures var c := DiskGetVerified(cfg, st, u, id);
            var verdict := VerifyAndDecrypt(cfg.w, u, st.disk.value[id], u.root.value);
            && c.store.mem == st.mem && c.store.plan == st.plan && c.store.disk.Some?
            && (forall k :: k in c.store.disk.value <==> k in st.disk.value && (k == id ==> verdict.Success?))
            && (forall k :: k in c.store.disk.value ==> c.store.disk.value[k] == st.disk.value[k])
            && (c.outcome == Some(IntegrityFailure) <==>
                  verdict == Failure(VerifyFailed) || verdict == Failure(DecryptFailed))
            && (verdict.Success? ==>
                  && c.outcome.Some? && c.outcome.value.Resolved?
                  && Opens(cfg.w, u, st.disk.value[id], u.root.value, c.outcome.value.data))
            && (verdict == Failure(Parse) ==> c.outcome == None)
  {
    hide VerifyAndDecrypt, Opens;
    var art, root := st.disk.value[id], u.root.value;
    if VerifyAndDecrypt(cfg.w, u, art, root).Success? {
      OpenedExactly(cfg.w, u, art, root, DiskGetVerified(cfg, st, u, id).outcome.value.data);
    }
  }

  /** Without a disk, a pin or an entry the disk layer does nothing. */
  lemma DiskMisses(cfg: Config, st: Store, u: Urn, id: string)
    requires u.root.None? || st.disk.None? || id !in st.disk.value
    ensures DiskGetVerified(cfg, st, u, id) == Consulted(st, None)
  {}

  /** A resolve that ends in anything but a success leaves the memory cache exactly as it was, and
      the disk with no entry added and none changed. */
  lemma FailuresAreNotCached(cfg: Config, a: Adversary, log: seq<Exchange>, st: Store, u: Urn)
    requires var o := ResolveSpec(cfg, a, log, st, u); !(o.resolution.Success? && o.resolution.value.Resolved?)
    ensures var st' := ResolveSpec(cfg, a, log, st, u).store;
            && st'.mem == st.mem
            && st'.disk.Some? == st.disk.Some?
            && (st.disk.Some? ==> forall id :: id in st'.disk.value ==>
                  id in st.disk.value && st'.disk.value[id] == st.disk.value[id])
  {
    ConsultFacts(cfg, st, u);
    var c := Consult(cfg, st, u);
    if c.outcome.None? {
      var p := if c.store.plan.Some? then Planned(c.store.plan.value, log) else PlanSpec(cfg.w, cfg.endpoint, a, log);
      FetchedIsSuccess(cfg.w, a, p.log, u, p.plan, 0);
    }
  }

  lemma {:induction false} FetchedIsSuccess(w: World, a: Adversary, log: seq<Exchange>, u: Urn, plan: seq<Endpoint>,
                                            i: nat)
    ensures var v := Walk(w, a, log, u, plan, i);
            if v.fetched.Some? then v.resolution == Success(Resolved(v.fetched.value.data))
            else !(v.resolution.Success? && v.resolution.value.Resolved?)
    decreases |plan| - i
  {
    hide TierFetch;
    if i >= |plan| {
    } else {
      var answer := TierFetch(w, a, log, u, plan[i]);
      if FallsThrough(answer.result) {
        FetchedIsSuccess(w, a, answer.log, u, plan, i + 1);
      }
    }
  }

  /** Poison heals. Whatever a resolve did with a disk entry that fails verification, the next
      resolve of that URN, with the disk undisturbed, is decided by the ladder. */
  lemma PoisonHeals(cfg: Config, a: Adversary, log: seq<Exchange>, st: Store, u: Urn)
    requires Consult(cfg, st, u).outcome == Some(IntegrityFailure)
    ensures var o := ResolveSpec(cfg, a, log, st, u);
            && o.resolution == Success(IntegrityFailure) && o.log == log
            && Consult(cfg, o.store, u) == Consulted(o.store, None)
            && var p := if o.store.plan.Some? then Planned(o.store.plan.value, log)
                 else PlanSpec(cfg.w, cfg.endpoint, a, log);
               ResolveSpec(cfg, a, log, o.store, u).resolution == Walk(cfg.w, a, p.log, u, p.plan, 0).resolution
  {}

  // ------------------------------------------------------------------ whole sessions

  /** What a resolver that served some URNs is left with, and what it answered, in order. */
  datatype Served = Served(store: Store, answers: seq<Resolution>, log: seq<Exchange>)

  /** One resolver serving one URN after another. */
  function Session(cfg: Config, a: Adversary, log: seq<Exchange>, st: Store, urns: seq<Urn>): Served
    decreases |urns|
  {
    if urns == [] then Served(st, [], log)
    else
      var o := ResolveSpec(cfg, a, log, st, urns[0]);
      var rest := Session(cfg, a, o.log, o.store, urns[1..]);
      Served(rest.store, [o.resolution] + rest.answers, rest.log)
  }

  function Probes(log: seq<Exchange>): nat {
    if log == [] then 0 else (if log[0].request.Health? then 1 else 0) + Probes(log[1..])
  }

  lemma {:induction false} ProbesConcat(a: seq<Exchange>, b: seq<Exchange>)
    ensures Probes(a + b) == Probes(a) + Probes(b)
  {
    if a == [] {
      assert a + b == b;
    } else {
      assert (a + b)[1..] == a[1..] + b;
      ProbesConcat(a[1..], b);
    }
  }

  lemma {:induction false} ProbesAtMost(log: seq<Exchange>)
    ensures Probes(log) <= |log|
    ensures (forall i :: 0 <= i < |log| ==> !log[i].request.Health?) ==> Probes(log) == 0
  {
    if log == [] {
    } else {
      ProbesAtMost(log[1..]);
    }
  }

  lemma {:induction false} WalkProbes(w: World, a: Adversary, log: seq<Exchange>, u: Urn, plan: seq<Endpoint>, i: nat)
    ensures Probes(Walk(w, a, log, u, plan, i).log) == Probes(log)
    decreases |plan| - i
  {
    hide TierFetch;
    if i >= |plan| {
    } else {
      var sent := TierRequests(w, a, log, u, plan[i]);
      ProbesAtMost(sent);
      ProbesConcat(log, sent);
      WalkProbes(w, a, log + sent, u, plan, i + 1);
    }
  }

  /** However many URNs one resolver serves in turn, it probes health at most twice in all, and
      never under an endpoint override. */
  lemma {:induction false} SessionProbesTwice(cfg: Config, a: Adversary, log: seq<Exchange>, st: Store, urns: seq<Urn>)
    ensures Probes(Session(cfg, a, log, st, urns).log) <=
              Probes(log) + if st.plan.Some? || cfg.endpoint.Some? then 0 else 2
    decreases |urns|
  {
    hide Consult, Walk, PlanSpec;
    if urns == [] {
    } else {
      var u := urns[0];
      var c := Consult(cfg, st, u);
      var o := ResolveSpec(cfg, a, log, st, u);
      ConsultFacts(cfg, st, u);
      if c.outcome.None? && st.plan.None? {
        var probes := PlanIsShaped(cfg.w, cfg.endpoint, a, log);
        ProbesAtMost(probes);
        ProbesConcat(log, probes);
        WalkProbes(cfg.w, a, log + probes, u, PlanSpec(cfg.w, cfg.endpoint, a, log).plan, 0);
      } else if c.outcome.None? {
        WalkProbes(cfg.w, a, log, u, st.plan.value, 0);
      }
      SessionProbesTwice(cfg, a, o.log, o.store, urns[1..]);
    }
  }
}
