/** Where trusted bytes come from, over every interleaved run: arbitrary replies, any number of
    resolves and instances, and a disk rewritten between any two steps. */
module Provenance {
  import opened Wrappers
  import opened Types
  import opened Net
  import opened Worlds
  import opened Identity
  import opened Ladder
  import opened Resolving
  import opened Machine
  import opened Confinement
  import Lru
  import Node
  import Rpc
  import Text

  // ------------------------------------------------------------------ witnesses

  /** What a witness may point at: the common trace, the URNs launched so far, and the disk entries
      that were there at the start or that the environment ever put there. */
  datatype Evidence = Evidence(w: World, log: seq<Exchange>, urns: set<Urn>, planted: set<Artifacts>)

  ghost predicate Extends(ev: Evidence, ev': Evidence) {
    ev.w == ev'.w && ev.log <= ev'.log && ev.urns <= ev'.urns && ev.planted <= ev'.planted
  }

  /** The request of `e` asks a loopback node for `u`. */
  ghost predicate AskedNode(w: World, e: Exchange, u: Urn) {
    exists base :: IsLoopbackBase(w, base) && e.request == Serve(ServeUrl(base, u))
  }

  /** A loopback node attested `data` for `u`, naming `root` (or no root). */
  ghost predicate AttestedIn(ev: Evidence, u: Urn, root: Option<string>, data: ResolvedData) {
    exists i :: 0 <= i < |ev.log| && AskedNode(ev.w, ev.log[i], u)
        && Node.AttestedReply(ev.w, u, ev.log[i].reply, root, data)
  }

  /** A loopback node answered for `u` and named `root`. */
  ghost predicate NamedIn(ev: Evidence, u: Urn, root: string) {
    exists i :: 0 <= i < |ev.log| && AskedNode(ev.w, ev.log[i], u) && ev.log[i].reply.Reached?
      && Node.ServedRoot(u, ev.log[i].reply.response) == Some(root)
  }

  /** `root` is the URN's own pin, or was named by a loopback node. */
  ghost predicate Rooted(ev: Evidence, u: Urn, root: string) {
    u.root == Some(root) || NamedIn(ev, u, root)
  }

  /** A loopback node asked for `u` replied with these artifacts. */
  ghost predicate SentByNode(ev: Evidence, u: Urn, art: Artifacts) {
    exists i :: 0 <= i < |ev.log| && AskedNode(ev.w, ev.log[i], u) && Node.Carries(ev.log[i].reply, art)
  }

  /** Posts for `u` at its own pinned root, all of them in the trace. */
  ghost predicate PostsFor(ev: Evidence, u: Urn, posts: seq<Exchange>) {
    u.root.Some? && forall e :: e in posts ==>
      e in ev.log && e.request.Content? && Rpc.IsPost(ev.w, u, e.request.url, e.request)
  }

  /** The artifacts are what those posts' replies add up to: payloads joined, the last proof, the
      first chunk lengths. */
  ghost predicate JoinedFrom(ev: Evidence, u: Urn, posts: seq<Exchange>, art: Artifacts) {
    && PostsFor(ev, u, posts)
    && art == Artifacts(Rpc.Payloads(ev.w, posts), Rpc.LastProof(ev.w, posts), Rpc.FirstLens(ev.w, posts))
  }

  ghost predicate SentByGateway(ev: Evidence, u: Urn, art: Artifacts) {
    exists posts :: JoinedFrom(ev, u, posts, art)
  }

  /** Where artifacts can come from: planted on the disk, or sent for a launched URN. */
  ghost predicate Known(ev: Evidence, art: Artifacts) {
    art in ev.planted || exists u: Urn :: u in ev.urns && (SentByNode(ev, u, art) || SentByGateway(ev, u, art))
  }

  /** The gate opened known artifacts to `data` for `u` against `root`. */
  ghost predicate Gated(ev: Evidence, u: Urn, root: string, data: ResolvedData) {
    exists art: Artifacts :: Known(ev, art) && Opens(ev.w, u, art, root, data)
  }

  /** `data` is `u`'s at `root`: the gate opened known artifacts to it against a root that `u` pins
      or a loopback node named, or a loopback node attested it. */
  ghost predicate Backed(ev: Evidence, u: Urn, root: string, data: ResolvedData) {
    (Gated(ev, u, root, data) && Rooted(ev, u, root)) || AttestedIn(ev, u, Some(root), data)
  }

  /** Some resolve that was launched gives `data` under this cache identity a witness. */
  ghost predicate Vouched(ev: Evidence, id: string, data: ResolvedData) {
    exists u: Urn, root: string :: u in ev.urns && CacheId(u, root) == id && Backed(ev, u, root, data)
  }

  /** What may stand behind a success returned for `u`. */
  ghost predicate Returned(ev: Evidence, u: Urn, data: ResolvedData) {
    if u.root.Some? then Vouched(ev, CacheId(u, u.root.value), data)
    else AttestedIn(ev, u, None, data) || exists root :: Backed(ev, u, root, data)
  }

  // ------------------------------------------------------------------ witnesses last

  lemma SentGrows(ev: Evidence, ev': Evidence, u: Urn, art: Artifacts)
    requires Extends(ev, ev')
    ensures SentByNode(ev, u, art) ==> SentByNode(ev', u, art)
    ensures SentByGateway(ev, u, art) ==> SentByGateway(ev', u, art)
  {
    hide AskedNode, Node.Carries, Rpc.Payloads, Rpc.LastProof, Rpc.FirstLens, Rpc.IsPost;
    if SentByGateway(ev, u, art) {
      var posts :| JoinedFrom(ev, u, posts, art);
      assert JoinedFrom(ev', u, posts, art);
    }
  }

  lemma KnownGrows(ev: Evidence, ev': Evidence, art: Artifacts)
    requires Extends(ev, ev') && Known(ev, art)
    ensures Known(ev', art)
  {
    hide SentByNode, SentByGateway;
    if art !in ev.planted {
      var u: Urn :| u in ev.urns && (SentByNode(ev, u, art) || SentByGateway(ev, u, art));
      SentGrows(ev, ev', u, art);
    }
  }

  lemma AttestedGrows(ev: Evidence, ev': Evidence, u: Urn, root: Option<string>, data: ResolvedData)
    requires Extends(ev, ev') && AttestedIn(ev, u, root, data)
    ensures AttestedIn(ev', u, root, data)
  {}

  lemma BackedGrows(ev: Evidence, ev': Evidence, u: Urn, root: string, data: ResolvedData)
    requires Extends(ev, ev') && Backed(ev, u, root, data)
    ensures Backed(ev', u, root, data)
  {
    hide Known, Opens, AskedNode;
    if Gated(ev, u, root, data) {
      var art: Artifacts :| Known(ev, art) && Opens(ev.w, u, art, root, data);
      KnownGrows(ev, ev', art);
    }
  }

  lemma VouchedGrows(ev: Evidence, ev': Evidence, id: string, data: ResolvedData)
    requires Extends(ev, ev') && Vouched(ev, id, data)
    ensures Vouched(ev', id, data)
  {
    hide Backed;
    var u: Urn, root: string :| u in ev.urns && CacheId(u, root) == id && Backed(ev, u, root, data);
    BackedGrows(ev, ev', u, root, data);
  }

  lemma ReturnedGrows(ev: Evidence, ev': Evidence, u: Urn, data: ResolvedData)
    requires Extends(ev, ev') && Returned(ev, u, data)
    ensures Returned(ev', u, data)
  {
    hide Backed, Vouched, AttestedIn;
    if u.root.Some? {
      VouchedGrows(ev, ev', CacheId(u, u.root.value), data);
    } else if AttestedIn(ev, u, None, data) {
      AttestedGrows(ev, ev', u, None, data);
    } else {
      var root :| Backed(ev, u, root, data);
      BackedGrows(ev, ev', u, root, data);
    }
  }

  // ------------------------------------------------------------------ the invariant

  function Urns(s: State): set<Urn> {
    set t | 0 <= t < |s.tasks| :: s.tasks[t].urn
  }

  /** The disk entries a run starts with and those the environment writes during it. */
  function Planted(disk: Option<map<string, Artifacts>>, acts: seq<Action>): set<Artifacts>
    decreases |acts|
  {
    if disk.None? then {}
    else if acts == [] then disk.value.Values
    else
      var before := Planted(disk, acts[..|acts| - 1]);
      var act := acts[|acts| - 1];
      if act.Meddle? then before + act.files.Values else before
  }

  function EvidenceAt(cfg: Config, s: State, planted: set<Artifacts>): Evidence {
    Evidence(cfg.w, s.log, Urns(s), planted)
  }

  /** Every remembered entry is vouched for, and the memory bounds hold. */
  ghost predicate SoundMemory(cfg: Config, ev: Evidence, mem: seq<Lru.Item>) {
    && Lru.Distinct(mem) && Lru.Fits(cfg.maxEntries, cfg.maxBytes, mem)
    && forall x :: x in mem ==> Vouched(ev, x.id, x.data)
  }

  ghost predicate SoundDisk(ev: Evidence, disk: Option<map<string, Artifacts>>) {
    disk.Some? ==> forall id :: id in disk.value ==> Known(ev, disk.value[id])
  }

  ghost predicate Paged(ev: Evidence, u: Urn, page: Rpc.Paging) {
    SentByGateway(ev, u, Artifacts(page.buf, page.proof, page.chunkLens))
  }

  /** A finished success has a witness, and a half-filled buffer is what the gateway sent. */
  ghost predicate SoundTask(ev: Evidence, u: Urn, p: Pending) {
    && (p.Done? && p.resolution.Success? && p.resolution.value.Resolved? ==> Returned(ev, u, p.resolution.value.data))
    && (p.Paging? ==> Paged(ev, u, p.page))
  }

  ghost predicate Sound(cfg: Config, s: State, planted: set<Artifacts>) {
    var ev := EvidenceAt(cfg, s, planted);
    && (forall inst :: inst in s.locals ==> SoundMemory(cfg, ev, s.locals[inst].mem))
    && SoundDisk(ev, s.disk)
    && (forall t :: 0 <= t < |s.tasks| ==> SoundTask(ev, s.tasks[t].urn, s.tasks[t].at))
  }

  lemma MemoryGrows(cfg: Config, ev: Evidence, ev': Evidence, mem: seq<Lru.Item>)
    requires Extends(ev, ev') && SoundMemory(cfg, ev, mem)
    ensures SoundMemory(cfg, ev', mem)
  {
    hide Vouched;
    forall x | x in mem ensures Vouched(ev', x.id, x.data) {
      VouchedGrows(ev, ev', x.id, x.data);
    }
  }

  lemma DiskGrows(ev: Evidence, ev': Evidence, disk: Option<map<string, Artifacts>>)
    requires Extends(ev, ev') && SoundDisk(ev, disk)
    ensures SoundDisk(ev', disk)
  {
    hide Known;
    if disk.Some? {
      forall id | id in disk.value ensures Known(ev', disk.value[id]) {
        KnownGrows(ev, ev', disk.value[id]);
      }
    }
  }

  lemma TaskGrows(ev: Evidence, ev': Evidence, u: Urn, p: Pending)
    requires Extends(ev, ev') && SoundTask(ev, u, p)
    ensures SoundTask(ev', u, p)
  {
    hide Returned, SentByGateway;
    if p.Done? && p.resolution.Success? && p.resolution.value.Resolved? {
      ReturnedGrows(ev, ev', u, p.resolution.value.data);
    } else if p.Paging? {
      SentGrows(ev, ev', u, Artifacts(p.page.buf, p.page.proof, p.page.chunkLens));
    }
  }

  // ------------------------------------------------------------------ the caches

  lemma RememberSound(cfg: Config, ev: Evidence, st: Store, id: string, data: ResolvedData)
    requires SoundMemory(cfg, ev, st.mem) && Vouched(ev, id, data)
    ensures SoundMemory(cfg, ev, Remember(cfg, st, id, data).mem)
  {
    hide Vouched, Lru.Put, Lru.Distinct, Lru.Fits;
    Lru.PutSpec(cfg.maxEntries, cfg.maxBytes, st.mem, id, data);
  }

  lemma TouchSound(cfg: Config, ev: Evidence, mem: seq<Lru.Item>, id: string)
    requires SoundMemory(cfg, ev, mem)
    ensures SoundMemory(cfg, ev, Lru.Touch(mem, id))
    ensures Lru.Lookup(mem, id).Some? ==> Vouched(ev, id, Lru.Lookup(mem, id).value)
  {
    hide Vouched, Lru.Touch;
    Lru.TouchSpec(mem, id);
    Lru.LookupFound(mem, id);
  }

  /** Whatever the caches answer for `u` is vouched for, and the store stays sound; a disk entry
      is trusted for nothing but what the gate makes of it. */
  lemma ConsultSound(cfg: Config, ev: Evidence, st: Store, u: Urn)
    requires ev.w == cfg.w && u in ev.urns && SoundMemory(cfg, ev, st.mem) && SoundDisk(ev, st.disk)
    ensures var c := Consult(cfg, st, u);
            && SoundMemory(cfg, ev, c.store.mem) && SoundDisk(ev, c.store.disk)
            && (c.outcome.Some? && c.outcome.value.Resolved? ==> Returned(ev, u, c.outcome.value.data))
  {
    hide Vouched, SoundMemory, SoundDisk, Remember, DiskGetVerified, Lru.Touch, Lru.Lookup;
    if u.root.Some? {
      var id := CacheId(u, u.root.value);
      TouchSound(cfg, ev, st.mem, id);
      if Lru.Lookup(st.mem, id).None? {
        var d := DiskGetVerified(cfg, st, u, id);
        DiskVouched(cfg, ev, st, u);
        if d.outcome.Some? && d.outcome.value.Resolved? {
          RememberSound(cfg, ev, d.store, id, d.outcome.value.data);
          RememberKeepsDisk(cfg, d.store, id, d.outcome.value.data);
        }
      }
    }
  }

  lemma RememberKeepsDisk(cfg: Config, st: Store, id: string, data: ResolvedData)
    ensures Remember(cfg, st, id, data).disk == st.disk
  {}

  lemma DiskVouched(cfg: Config, ev: Evidence, st: Store, u: Urn)
    requires ev.w == cfg.w && u in ev.urns && u.root.Some? && SoundDisk(ev, st.disk)
    ensures var d := DiskGetVerified(cfg, st, u, CacheId(u, u.root.value));
            && d.store.mem == st.mem && SoundDisk(ev, d.store.disk)
            && (d.outcome.Some? && d.outcome.value.Resolved? ==>
                  Vouched(ev, CacheId(u, u.root.value), d.outcome.value.data))
  {
    hide Known, VerifyAndDecrypt, CacheId;
    var root := u.root.value;
    var id := CacheId(u, root);
    var d := DiskGetVerified(cfg, st, u, id);
    if d.outcome.Some? && d.outcome.value.Resolved? {
      var data := d.outcome.value.data;
      VerdictExactly(ev.w, u, st.disk.value[id], root);
      assert Known(ev, st.disk.value[id]) && Opens(ev.w, u, st.disk.value[id], root, data);
      assert Backed(ev, u, root, data);
    }
  }

  // ------------------------------------------------------------------ a reply arrives

  /** A fetched resource is backed at its root; without a root it is attested; and what can be kept
      on disk is known. */
  ghost predicate SoundFetch(ev: Evidence, u: Urn, f: Fetched) {
    && (u.root.Some? ==> f.root == u.root)
    && (if f.root.Some? then Backed(ev, u, f.root.value, f.data) else AttestedIn(ev, u, None, f.data))
    && (f.artifacts.Some? ==> Known(ev, f.artifacts.value))
  }

  lemma NodeSound(ev: Evidence, u: Urn, base: string, reply: Reply)
    requires IsLoopbackBase(ev.w, base) && u in ev.urns && Node.ReadReply(ev.w, u, reply).Success?
    ensures var ev' := ev.(log := ev.log + [Exchange(Serve(ServeUrl(base, u)), reply)]);
            SoundFetch(ev', u, Node.ReadReply(ev.w, u, reply).value)
  {
    hide IsLoopbackBase, ServeUrl, VerifyAndDecrypt, Node.ReadReply, Node.AttestedReply, Node.Carries;
    var e := Exchange(Serve(ServeUrl(base, u)), reply);
    var ev' := ev.(log := ev.log + [e]);
    var f := Node.ReadReply(ev.w, u, reply).value;
    assert ev'.log[|ev.log|] == e && AskedNode(ev.w, e, u);
    Node.AcceptedExactly(ev.w, u, reply);
    if f.artifacts.None? {
      assert AttestedIn(ev', u, f.root, f.data);
    } else {
      assert SentByNode(ev', u, f.artifacts.value);
      assert Opens(ev.w, u, f.artifacts.value, f.root.value, f.data);
      assert NamedIn(ev', u, f.root.value);
    }
  }

  lemma FinishSound(ev: Evidence, u: Urn, page: Rpc.Paging)
    requires u.root.Some? && u in ev.urns && Rpc.Finish(ev.w, u, page).Success? && Paged(ev, u, page)
    ensures SoundFetch(ev, u, Rpc.Finish(ev.w, u, page).value)
  {
    hide SentByGateway, VerifyAndDecrypt;
    var art := Artifacts(page.buf, page.proof, page.chunkLens);
    assert Known(ev, art);
    OpenedExactly(ev.w, u, art, u.root.value, Rpc.Finish(ev.w, u, page).value.data);
  }

  lemma StartPaged(ev: Evidence, u: Urn)
    requires u.root.Some?
    ensures Paged(ev, u, Rpc.START)
  {
    assert JoinedFrom(ev, u, [], Artifacts([], "", []));
  }

  /** One more accepted window keeps the buffer equal to what the gateway sent. */
  lemma PageGrows(ev: Evidence, u: Urn, url: string, page: Rpc.Paging, reply: Reply)
    requires u.root.Some? && Rpc.BoundedPage(page) && Paged(ev, u, page)
    requires !Rpc.OnReply(ev.w, page, reply).Abort?
    ensures var ev' := ev.(log := ev.log + [Exchange(Rpc.ContentRequest(ev.w, u, url, page.offset), reply)]);
            Paged(ev', u, Rpc.OnReply(ev.w, page, reply).page)
  {
    hide Rpc.OnReply, Rpc.Payload, Rpc.SentLens, Rpc.SentProof, Rpc.Payloads, Rpc.LastProof, Rpc.FirstLens;
    var e := Exchange(Rpc.ContentRequest(ev.w, u, url, page.offset), reply);
    var ev' := ev.(log := ev.log + [e]);
    var posts :| JoinedFrom(ev, u, posts, Artifacts(page.buf, page.proof, page.chunkLens));
    var page' := Rpc.OnReply(ev.w, page, reply).page;
    Rpc.AbsorbKeeps(ev.w, page, reply);
    Rpc.TurnAccumulates(ev.w, page, reply);
    Rpc.PostsSnoc(ev.w, posts, e);
    assert ev'.log[|ev.log|] == e;
    assert JoinedFrom(ev', u, posts + [e], Artifacts(page'.buf, page'.proof, page'.chunkLens));
  }

  /** A resumed resolve succeeds only with a soundly fetched resource, which is what it learned. */
  ghost predicate SoundMove(ev: Evidence, u: Urn, m: Move) {
    && (m.learned.Got? ==> SoundFetch(ev, u, m.learned.fetched))
    && (m.next.Done? && m.next.resolution.Success? && m.next.resolution.value.Resolved? ==>
          m.learned.Got? && m.next.resolution.value.data == m.learned.fetched.data)
    && (m.next.Paging? ==> Paged(ev, u, m.next.page))
  }

  lemma EnterSound(ev: Evidence, w: World, u: Urn, plan: seq<Endpoint>, i: nat)
    ensures Enter(w, u, plan, i).Paging? ==> Paged(ev, u, Enter(w, u, plan, i).page)
  {
    hide Paged;
    if u.root.Some? {
      StartPaged(ev, u);
    }
  }

  lemma {:induction false} ProbeSound(ev: Evidence, w: World, u: Urn, k: nat)
    ensures SoundMove(ev, u, ProbeFrom(w, u, k))
    decreases |CANDIDATES| - k
  {
    hide Enter, Paged, IsLoopbackBase;
    if k < |CANDIDATES| {
      ProbeSound(ev, w, u, k + 1);
    } else {
      EnterSound(ev, w, u, GATEWAY_PLAN, 0);
    }
  }

  lemma SettleSound(ev: Evidence, w: World, u: Urn, plan: seq<Endpoint>, i: nat, result: Result<Fetched, Error>)
    requires result.Success? ==> SoundFetch(ev, u, result.value)
    ensures SoundMove(ev, u, Settle(w, u, plan, i, result))
  {
    hide Enter, Paged, SoundFetch;
    EnterSound(ev, w, u, plan, i + 1);
  }

  lemma ResumeSound(cfg: Config, ev: Evidence, u: Urn, p: Pending, reply: Reply)
    requires Waits(cfg.w, u, p) && !p.Done? && ShapedAt(cfg, ev.log, p)
    requires ev.w == cfg.w && u in ev.urns && SoundTask(ev, u, p)
    ensures var ev' := ev.(log := ev.log + [Exchange(RequestOf(cfg.w, u, p), reply)]);
            SoundMove(ev', u, Resume(cfg.w, u, p, reply))
  {
    hide SoundFetch, SoundMove, Paged, Node.ReadReply, Rpc.OnReply, Rpc.Finish, PlanShape, Enter, Settle, ProbeFrom;
    hide HealthOk;
    var w := cfg.w;
    var ev' := ev.(log := ev.log + [Exchange(RequestOf(w, u, p), reply)]);
    match p
    case Probing(k) =>
      ProbeSound(ev', w, u, k + 1);
      AdoptSound(ev', w, u, NodePlan(k));
    case Serving(plan, i) =>
      if Node.ReadReply(w, u, reply).Success? {
        ShapedPlans(w, cfg.endpoint, ev.log, plan);
        NodeSound(ev, u, plan[i].base, reply);
      }
      SettleSound(ev', w, u, plan, i, Node.ReadReply(w, u, reply));
    case Paging(plan, i, page) => PageSound(ev, u, plan, i, page, reply);
  }

  lemma AdoptSound(ev: Evidence, w: World, u: Urn, plan: seq<Endpoint>)
    ensures SoundMove(ev, u, Adopt(w, u, plan))
  {
    hide Enter, Paged;
    EnterSound(ev, w, u, plan, 0);
  }

  lemma PageSound(ev: Evidence, u: Urn, plan: seq<Endpoint>, i: nat, page: Rpc.Paging, reply: Reply)
    requires Waits(ev.w, u, Paging(plan, i, page)) && u in ev.urns && Paged(ev, u, page)
    ensures var p := Paging(plan, i, page);
            var ev' := ev.(log := ev.log + [Exchange(RequestOf(ev.w, u, p), reply)]);
            SoundMove(ev', u, Resume(ev.w, u, p, reply))
  {
    hide SoundFetch, Paged, Rpc.OnReply, Rpc.Finish, Enter, Settle;
    var w := ev.w;
    var ev' := ev.(log := ev.log + [Exchange(RequestOf(w, u, Paging(plan, i, page)), reply)]);
    var turn := Rpc.OnReply(w, page, reply);
    Rpc.AbsorbKeeps(w, page, reply);
    if !turn.Abort? {
      PageGrows(ev, u, Text.TrimSlashes(plan[i].base), page, reply);
    }
    if turn.Complete? && Rpc.Finish(w, u, turn.page).Success? {
      FinishSound(ev', u, turn.page);
    }
    SettleSound(ev', w, u, plan, i, TurnResult(w, u, turn));
  }

  lemma FetchReturned(ev: Evidence, u: Urn, f: Fetched)
    requires SoundFetch(ev, u, f) && u in ev.urns
    ensures Returned(ev, u, f.data)
    ensures f.root.Some? ==> Vouched(ev, CacheId(u, f.root.value), f.data)
  {
    hide Backed, AttestedIn;
  }

  lemma LearnSound(cfg: Config, ev: Evidence, st: Store, u: Urn, learned: Learned)
    requires SoundMemory(cfg, ev, st.mem) && SoundDisk(ev, st.disk) && u in ev.urns
    requires learned.Got? ==> SoundFetch(ev, u, learned.fetched)
    ensures SoundMemory(cfg, ev, Learn(cfg, st, u, learned).mem) && SoundDisk(ev, Learn(cfg, st, u, learned).disk)
  {
    hide SoundMemory, Backed, AttestedIn, Known, Remember, Vouched, CacheId;
    if learned.Got? && learned.fetched.root.Some? {
      var f := learned.fetched;
      FetchReturned(ev, u, f);
      RememberSound(cfg, ev, st, CacheId(u, f.root.value), f.data);
      RememberKeepsDisk(cfg, st, CacheId(u, f.root.value), f.data);
    }
  }

  lemma StartSound(cfg: Config, ev: Evidence, plan: Option<seq<Endpoint>>, u: Urn)
    ensures SoundMove(ev, u, Start(cfg, plan, u)) && !Start(cfg, plan, u).learned.Got?
  {
    hide Enter, Paged, IsLoopbackBase;
    if plan.Some? {
      EnterSound(ev, cfg.w, u, plan.value, 0);
    } else if cfg.endpoint.Some? {
      EnterSound(ev, cfg.w, u, [Classify(cfg.w, cfg.endpoint.value)], 0);
    } else {
      ProbeSound(ev, cfg.w, u, 0);
    }
  }

  lemma BeginSound(cfg: Config, ev: Evidence, st: Store, u: Urn)
    requires ev.w == cfg.w && u in ev.urns && SoundMemory(cfg, ev, st.mem) && SoundDisk(ev, st.disk)
    ensures var (st', p) := Begin(cfg, st, u);
            SoundMemory(cfg, ev, st'.mem) && SoundDisk(ev, st'.disk) && SoundTask(ev, u, p)
  {
    hide SoundMemory, SoundDisk, Returned, Paged, SoundFetch, Consult, Learn, Start;
    ConsultSound(cfg, ev, st, u);
    var c := Consult(cfg, st, u);
    if c.outcome.None? {
      var m := Start(cfg, c.store.plan, u);
      StartSound(cfg, ev, c.store.plan, u);
      LearnSound(cfg, ev, c.store, u, m.learned);
    }
  }

  // ------------------------------------------------------------------ every step

  lemma EmptySound(cfg: Config, ev: Evidence)
    ensures SoundMemory(cfg, ev, [])
  {}

  lemma SoundGrows(cfg: Config, s: State, planted: set<Artifacts>, ev': Evidence)
    requires Sound(cfg, s, planted) && Extends(EvidenceAt(cfg, s, planted), ev')
    ensures forall inst :: inst in s.locals ==> SoundMemory(cfg, ev', s.locals[inst].mem)
    ensures forall t :: 0 <= t < |s.tasks| ==> SoundTask(ev', s.tasks[t].urn, s.tasks[t].at)
    ensures SoundDisk(ev', s.disk)
  {
    hide SoundMemory, SoundTask, SoundDisk, Extends;
    var ev := EvidenceAt(cfg, s, planted);
    DiskGrows(ev, ev', s.disk);
    forall inst | inst in s.locals ensures SoundMemory(cfg, ev', s.locals[inst].mem) {
      MemoryGrows(cfg, ev, ev', s.locals[inst].mem);
    }
    forall t | 0 <= t < |s.tasks| ensures SoundTask(ev', s.tasks[t].urn, s.tasks[t].at) {
      TaskGrows(ev, ev', s.tasks[t].urn, s.tasks[t].at);
    }
  }

  lemma LaunchSound(cfg: Config, s: State, planted: set<Artifacts>, inst: nat, u: Urn)
    requires Sound(cfg, s, planted)
    ensures Sound(cfg, Do(cfg, s, Launch(inst, u)), planted)
  {
    hide SoundMemory, SoundTask, SoundDisk, Begin;
    var s' := Do(cfg, s, Launch(inst, u));
    var ev' := EvidenceAt(cfg, s', planted);
    assert s'.tasks[|s.tasks|].urn == u;
    assert u in Urns(s');
    assert Urns(s) <= Urns(s') by {
      forall v | v in Urns(s) ensures v in Urns(s') {
        var t :| 0 <= t < |s.tasks| && s.tasks[t].urn == v;
        assert s'.tasks[t].urn == v;
      }
    }
    SoundGrows(cfg, s, planted, ev');
    EmptySound(cfg, ev');
    BeginSound(cfg, ev', View(s, inst), u);
  }

  /** A sound move leads to a sound wait, and what it learned may be kept. */
  lemma MoveSound(ev: Evidence, u: Urn, m: Move)
    requires SoundMove(ev, u, m) && u in ev.urns
    ensures SoundTask(ev, u, m.next)
    ensures m.learned.Got? ==> SoundFetch(ev, u, m.learned.fetched)
  {
    hide SoundFetch, Returned, Paged;
    if m.learned.Got? {
      FetchReturned(ev, u, m.learned.fetched);
    }
  }

  lemma TaskShapedAt(cfg: Config, s: State, t: nat)
    requires Shaped(cfg, s) && t < |s.tasks|
    ensures ShapedAt(cfg, s.log, s.tasks[t].at)
  {}

  lemma DeliverSound(cfg: Config, s: State, planted: set<Artifacts>, t: nat, reply: Reply)
    requires Shaped(cfg, s) && Sound(cfg, s, planted) && Deliverable(cfg, s, t)
    ensures Sound(cfg, Do(cfg, s, Deliver(t, reply)), planted)
  {
    hide SoundMemory, SoundDisk, SoundTask, SoundMove, Resume, Learn, RequestOf, TaskConfined, ShapedPlan, Waits;
    var s' := Do(cfg, s, Deliver(t, reply));
    var task := s.tasks[t];
    var m := Resume(cfg.w, task.urn, task.at, reply);
    assert Urns(s') == Urns(s) by {
      assert forall j :: 0 <= j < |s.tasks| ==> s'.tasks[j].urn == s.tasks[j].urn;
    }
    assert task.urn in Urns(s);
    TaskShapedAt(cfg, s, t);
    var ev, ev' := EvidenceAt(cfg, s, planted), EvidenceAt(cfg, s', planted);
    SoundGrows(cfg, s, planted, ev');
    EmptySound(cfg, ev');
    ResumeSound(cfg, ev, task.urn, task.at, reply);
    MoveSound(ev', task.urn, m);
    LearnSound(cfg, ev', View(s, task.inst), task.urn, m.learned);
  }

  lemma MeddleSound(cfg: Config, s: State, planted: set<Artifacts>, files: map<string, Artifacts>)
    requires Sound(cfg, s, planted)
    ensures s.disk.Some? ==> Sound(cfg, Do(cfg, s, Meddle(files)), planted + files.Values)
  {
    hide SoundMemory, SoundTask;
    if s.disk.Some? {
      var s' := Do(cfg, s, Meddle(files));
      var ev' := EvidenceAt(cfg, s', planted + files.Values);
      SoundGrows(cfg, s, planted, ev');
      assert forall id :: id in files ==> files[id] in files.Values;
    }
  }

  /** Provenance. In every reachable state, from any initial disk: every memory entry of every
      instance, and every success ever returned, has a witness. */
  lemma {:induction false} EverySuccessHasAWitness(cfg: Config, disk: Option<map<string, Artifacts>>, acts: seq<Action>)
    ensures Sound(cfg, After(cfg, Initial(disk), acts), Planted(disk, acts))
    ensures After(cfg, Initial(disk), acts).disk.Some? == disk.Some?
    decreases |acts|
  {
    hide Do, Sound, Shaped;
    if acts == [] {
      InitialSound(cfg, disk);
    } else {
      var front, act := acts[..|acts| - 1], acts[|acts| - 1];
      var s, planted := After(cfg, Initial(disk), front), Planted(disk, front);
      EverySuccessHasAWitness(cfg, disk, front);
      EveryRequestConfined(cfg, disk, front);
      DiskStays(cfg, s, act);
      match act
      case Launch(inst, u) => LaunchSound(cfg, s, planted, inst, u);
      case Meddle(files) => MeddleSteps(cfg, s, planted, files);
      case Deliver(t, reply) => DeliverSteps(cfg, s, planted, t, reply);
    }
  }

  lemma MeddleSteps(cfg: Config, s: State, planted: set<Artifacts>, files: map<string, Artifacts>)
    requires Sound(cfg, s, planted)
    ensures Sound(cfg, Do(cfg, s, Meddle(files)), if s.disk.Some? then planted + files.Values else planted)
  {
    hide Sound;
    MeddleSound(cfg, s, planted, files);
  }

  lemma DeliverSteps(cfg: Config, s: State, planted: set<Artifacts>, t: nat, reply: Reply)
    requires Shaped(cfg, s) && Sound(cfg, s, planted)
    ensures Sound(cfg, Do(cfg, s, Deliver(t, reply)), planted)
  {
    hide Sound, Shaped, Resume, Learn, RequestOf;
    if Deliverable(cfg, s, t) {
      DeliverSound(cfg, s, planted, t, reply);
    }
  }

  lemma InitialSound(cfg: Config, disk: Option<map<string, Artifacts>>)
    ensures Sound(cfg, Initial(disk), Planted(disk, []))
  {}
}
