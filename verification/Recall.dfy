/** What a resolve leaves behind for the next one: a success is found again, in memory whatever
    becomes of the disk, and on the disk by a resolver that starts afresh. */
module Recall {
  import opened Wrappers
  import opened Types
  import opened Net
  import opened Worlds
  import opened Identity
  import opened Ladder
  import opened Resolving
  import opened Transparency
  import Lru
  import Text

  /** The memory bounds, as every resolver keeps them. */
  predicate Bounded(cfg: Config, st: Store) {
    Lru.Distinct(st.mem) && Lru.Fits(cfg.maxEntries, cfg.maxBytes, st.mem)
  }

  predicate Answers(cfg: Config, st: Store, u: Urn, data: ResolvedData) {
    Consult(cfg, st, u).outcome == Some(Resolved(data))
  }

  lemma MemoryHolds(cfg: Config, st: Store, u: Urn, data: ResolvedData)
    requires u.root.Some? && Lru.Lookup(st.mem, CacheId(u, u.root.value)) == Some(data)
    ensures Answers(cfg, st, u, data)
  {
    hide CacheId, DiskGetVerified;
  }

  /** A hit is remembered: what the caches answered they answer again, whatever has become of the disk
      in between. A disk hit enters memory; a memory hit stays there. */
  lemma HitIsRemembered(cfg: Config, st: Store, u: Urn, data: ResolvedData, disk: Option<map<string, Artifacts>>)
    requires Bounded(cfg, st) && Answers(cfg, st, u, data) && Lru.Admissible(cfg.maxEntries, cfg.maxBytes, data)
    ensures Answers(cfg, Consult(cfg, st, u).store.(disk := disk), u, data)
    ensures Bounded(cfg, Consult(cfg, st, u).store)
  {
    hide CacheId, VerifyAndDecrypt, Lru.Put, Lru.Touch, Lru.Lookup, Lru.Distinct, Lru.Total;
    var id := CacheId(u, u.root.value);
    Lru.TouchSpec(st.mem, id);
    Lru.PutSpec(cfg.maxEntries, cfg.maxBytes, st.mem, id, data);
    MemoryHolds(cfg, Consult(cfg, st, u).store.(disk := disk), u, data);
  }

  /** What a ladder success leaves in memory is what every lookup of its identity finds. */
  lemma KeptIsFound(cfg: Config, st: Store, u: Urn, got: Fetched, v: Urn, disk: Option<map<string, Artifacts>>)
    requires Bounded(cfg, st) && Lru.Admissible(cfg.maxEntries, cfg.maxBytes, got.data)
    requires got.root.Some? && v.root.Some? && CacheId(v, v.root.value) == CacheId(u, got.root.value)
    ensures Answers(cfg, CacheSuccess(cfg, st, u, got).(disk := disk), v, got.data)
  {
    hide CacheId, Lru.Put, Lru.Lookup, Lru.Distinct, Lru.Fits;
    Lru.PutSpec(cfg.maxEntries, cfg.maxBytes, st.mem, CacheId(u, got.root.value), got.data);
    MemoryHolds(cfg, CacheSuccess(cfg, st, u, got).(disk := disk), v, got.data);
  }

  /** The walk of a resolve that found nothing in the caches. */
  function WalkOf(cfg: Config, a: Adversary, log: seq<Exchange>, st: Store, u: Urn): Verdict {
    var p := if st.plan.Some? then Planned(st.plan.value, log) else PlanSpec(cfg.w, cfg.endpoint, a, log);
    Walk(cfg.w, a, p.log, u, p.plan, 0)
  }

  /** Its store when the walk is over and nothing is kept yet. */
  function Walked(cfg: Config, a: Adversary, log: seq<Exchange>, st: Store, u: Urn): Store {
    var c := Consult(cfg, st, u);
    var plan := if c.store.plan.Some? then c.store.plan.value else PlanSpec(cfg.w, cfg.endpoint, a, log).plan;
    c.store.(plan := Some(plan))
  }

  lemma MissIsWalk(cfg: Config, a: Adversary, log: seq<Exchange>, st: Store, u: Urn)
    requires Consult(cfg, st, u).outcome.None?
    ensures var v := WalkOf(cfg, a, log, st, u);
            var o := ResolveSpec(cfg, a, log, st, u);
            && o.resolution == v.resolution && o.log == v.log
            && (v.fetched.Some? ==>
                  && v.resolution == Success(Resolved(v.fetched.value.data)) && Reopens(cfg.w, u, v.fetched.value)
                  && o.store == CacheSuccess(cfg, Walked(cfg, a, log, st, u), u, v.fetched.value))
            && Walked(cfg, a, log, st, u).mem == st.mem && Walked(cfg, a, log, st, u).disk.Some? == st.disk.Some?
            && (v.fetched.None? ==> !(v.resolution.Success? && v.resolution.value.Resolved?))
  {
    hide Consult, Walk, PlanSpec, CacheSuccess, Reopens;
    ConsultFacts(cfg, st, u);
    var c := Consult(cfg, st, u);
    var p := if st.plan.Some? then Planned(st.plan.value, log) else PlanSpec(cfg.w, cfg.endpoint, a, log);
    WalkReopens(cfg.w, a, p.log, u, p.plan, 0);
    FetchedIsSuccess(cfg.w, a, p.log, u, p.plan, 0);
  }

  /** A pinned success is remembered. Whatever replies come later and whatever becomes of the disk, the
      next resolve of that URN has the same outcome and makes no request. */
  lemma SuccessIsRemembered(cfg: Config, a: Adversary, log: seq<Exchange>, st: Store, u: Urn, data: ResolvedData,
                            disk: Option<map<string, Artifacts>>, a': Adversary, log': seq<Exchange>)
    requires Bounded(cfg, st) && u.root.Some? && Lru.Admissible(cfg.maxEntries, cfg.maxBytes, data)
    requires ResolveSpec(cfg, a, log, st, u).resolution == Success(Resolved(data))
    ensures var o := ResolveSpec(cfg, a', log', ResolveSpec(cfg, a, log, st, u).store.(disk := disk), u);
            o.resolution == Success(Resolved(data)) && o.log == log'
  {
    hide Consult, CacheId, CacheSuccess, Walk, PlanSpec, Lru.Distinct, Lru.Fits;
    if Consult(cfg, st, u).outcome.Some? {
      HitIsRemembered(cfg, st, u, data, disk);
    } else {
      MissIsWalk(cfg, a, log, st, u);
      var got := WalkOf(cfg, a, log, st, u).fetched.value;
      KeptIsFound(cfg, Walked(cfg, a, log, st, u), u, got, u, disk);
    }
  }

  /** A rootless success is kept under the root that was named for it, and answers the URN pinned
      there. */
  lemma NamedSuccessServesPin(cfg: Config, a: Adversary, log: seq<Exchange>, st: Store, u: Urn, root: string,
                              disk: Option<map<string, Artifacts>>)
    requires Bounded(cfg, st) && u.root.None? && Text.IsHex64(root)
    requires var got := WalkOf(cfg, a, log, st, u).fetched;
             got.Some? && got.value.root == Some(root) && Lru.Admissible(cfg.maxEntries, cfg.maxBytes, got.value.data)
    ensures Answers(cfg, ResolveSpec(cfg, a, log, st, u).store.(disk := disk), u.(root := Some(root)),
                    WalkOf(cfg, a, log, st, u).fetched.value.data)
  {
    hide CacheId, CacheSuccess, Walk, PlanSpec, Lru.Distinct, Lru.Fits;
    MissIsWalk(cfg, a, log, st, u);
    var got := WalkOf(cfg, a, log, st, u).fetched.value;
    SameIdPinned(u, root);
    KeptIsFound(cfg, Walked(cfg, a, log, st, u), u, got, u.(root := Some(root)), disk);
  }

  lemma SameIdPinned(u: Urn, root: string)
    requires Text.IsHex64(root)
    ensures CacheId(u.(root := Some(root)), root) == CacheId(u, root)
  {}

  /** A pinned success with artifacts survives a restart: a resolver that starts afresh over the same
      disk finds it there, verifies it again and answers the same. */
  lemma SuccessSurvivesRestart(cfg: Config, a: Adversary, log: seq<Exchange>, st: Store, u: Urn)
    requires u.root.Some? && st.disk.Some? && Consult(cfg, st, u).outcome.None?
    requires var got := WalkOf(cfg, a, log, st, u).fetched; got.Some? && got.value.artifacts.Some?
    ensures Answers(cfg, Store([], None, ResolveSpec(cfg, a, log, st, u).store.disk), u,
                    WalkOf(cfg, a, log, st, u).fetched.value.data)
  {
    hide Consult, CacheId, Walk, PlanSpec, Lru.Put;
    MissIsWalk(cfg, a, log, st, u);
    var got := WalkOf(cfg, a, log, st, u).fetched.value;
    DiskAnswersAfresh(cfg, ResolveSpec(cfg, a, log, st, u).store.disk, u, got);
  }

  lemma DiskAnswersAfresh(cfg: Config, disk: Option<map<string, Artifacts>>, u: Urn, got: Fetched)
    requires u.root.Some? && Reopens(cfg.w, u, got) && got.artifacts.Some? && disk.Some?
    requires CacheId(u, u.root.value) in disk.value && disk.value[CacheId(u, u.root.value)] == got.artifacts.value
    ensures Answers(cfg, Store([], None, disk), u, got.data)
  {
    hide CacheId, VerifyAndDecrypt, Lru.Put;
  }
}
