/** The exact condition for cache transparency, and when it is met. Whenever two URNs of a family
    disagree, two resolves in a row already show it; so agreement in pairs is all there is to ask. */
module Exactness {
  import opened Wrappers
  import opened Types
  import opened Net
  import opened Worlds
  import opened Identity
  import opened Ladder
  import opened Resolving
  import opened Machine
  import opened Solo
  import opened Transparency
  import opened Soundness
  import Lru
  import Rpc

  lemma {:induction false} FairCons(cfg: Config, f: Request -> Reply, family: Family, s: State, act: Action,
                                    acts: seq<Action>)
    requires Fair(cfg, f, family, s, act) && FairRun(cfg, f, family, Do(cfg, s, act), acts)
    ensures FairRun(cfg, f, family, s, [act] + acts)
    decreases |acts|
  {
    hide Do, Fair;
    var all := [act] + acts;
    if acts == [] {
      assert all[..0] == [] && all[0] == act;
      assert After(cfg, s, []) == s;
    } else {
      var front := acts[..|acts| - 1];
      assert all[..|all| - 1] == [act] + front;
      FairCons(cfg, f, family, s, act, front);
      AfterCons(cfg, s, act, front);
    }
  }

  lemma {:induction false} DrivenFair(cfg: Config, f: Request -> Reply, family: Family, s: State, t: nat,
                                      acts: seq<Action>)
    requires Driven(cfg, Fixed(f), s, t, acts)
    ensures FairRun(cfg, f, family, s, acts)
    decreases |acts|
  {
    hide Do, RequestOf;
    if acts == [] {
    } else {
      DrivenFair(cfg, f, family, Do(cfg, s, acts[0]), t, acts[1..]);
      FairCons(cfg, f, family, s, acts[0], acts[1..]);
      assert acts == [acts[0]] + acts[1..];
    }
  }

  lemma FairSnoc(cfg: Config, f: Request -> Reply, family: Family, s: State, acts: seq<Action>, act: Action)
    requires FairRun(cfg, f, family, s, acts) && Fair(cfg, f, family, After(cfg, s, acts), act)
    ensures FairRun(cfg, f, family, s, acts + [act])
    ensures After(cfg, s, acts + [act]) == Do(cfg, After(cfg, s, acts), act)
  {
    hide Do, Fair;
    var all := acts + [act];
    assert all[..|all| - 1] == acts && all[|all| - 1] == act;
  }

  /** The first resolve of a fresh system: what the ladder alone gives, then kept. */
  lemma FirstResolve(cfg: Config, f: Request -> Reply, disk: Option<map<string, Artifacts>>, u: Urn)
    requires disk.Some? ==> disk.value == map[]
    ensures var o := ResolveSpec(cfg, Fixed(f), [], Store([], None, disk), u);
            var v := LadderAlone(cfg, f, u);
            var planned := Store([], Some(ThePlan(cfg, f)), disk);
            o.store == if v.fetched.Some? then CacheSuccess(cfg, planned, u, v.fetched.value) else planned
  {
    hide Walk, CacheSuccess, PlanSpec, CacheId;
  }

  /** A fresh system after `u` has been resolved and left undisturbed. */
  lemma AfterFirst(cfg: Config, f: Request -> Reply, family: Family, disk: Option<map<string, Artifacts>>, u: Urn)
    returns (acts: seq<Action>)
    requires (disk.Some? ==> disk.value == map[]) && family(u)
    requires LadderAlone(cfg, f, u).fetched.Some?
    ensures FairRun(cfg, f, family, Initial(disk), acts)
    ensures var s := After(cfg, Initial(disk), acts);
            var got := LadderAlone(cfg, f, u).fetched.value;
            var kept := CacheSuccess(cfg, Store([], Some(ThePlan(cfg, f)), disk), u, got);
            View(s, 0) == kept && View(s, 1) == Store([], None, kept.disk)
  {
    hide LadderAlone, CacheSuccess, ThePlan, ResolveSpec, Begin, FairRun, Driven, After;
    var s0 := Initial(disk);
    var launch := Launch(0, u);
    var rest := UndisturbedResolveRefines(cfg, Fixed(f), s0, 0, u);
    FirstResolve(cfg, f, disk, u);
    DrivenFair(cfg, f, family, Do(cfg, s0, launch), 0, rest);
    FairCons(cfg, f, family, s0, launch, rest);
    AfterCons(cfg, s0, launch, rest);
    acts := [launch] + rest;
    assert LocalOf(s0, 1) == Local([], None);
    assert LocalOf(After(cfg, s0, acts), 1) == LocalOf(s0, 1);
  }

  lemma MemoryAnswers(cfg: Config, plan: seq<Endpoint>, disk: Option<map<string, Artifacts>>, u: Urn, got: Fetched,
                      v: Urn)
    requires got.root.Some? && v.root.Some? && CacheId(v, v.root.value) == CacheId(u, got.root.value)
    requires Lru.Admissible(cfg.maxEntries, cfg.maxBytes, got.data)
    ensures Begin(cfg, CacheSuccess(cfg, Store([], Some(plan), disk), u, got), v).1 == Done(Success(Resolved(got.data)))
  {
    hide CacheId, Lru.Put, DiskGetVerified;
    Lru.PutSpec(cfg.maxEntries, cfg.maxBytes, [], CacheId(u, got.root.value), got.data);
  }

  lemma DiskAnswers(cfg: Config, plan: seq<Endpoint>, disk: Option<map<string, Artifacts>>, u: Urn, got: Fetched,
                    v: Urn)
    requires got.root.Some? && v.root.Some? && CacheId(v, v.root.value) == CacheId(u, got.root.value)
    requires disk.Some? && got.artifacts.Some? && OpenAnswer(cfg.w, v, got.artifacts.value).Some?
    ensures var kept := CacheSuccess(cfg, Store([], Some(plan), disk), u, got);
            Begin(cfg, Store([], None, kept.disk), v).1
                == Done(Success(OpenAnswer(cfg.w, v, got.artifacts.value).value))
  {
    hide CacheId, Lru.Put, VerifyAndDecrypt;
  }

  /** Two URNs of the family that disagree give a fair run whose last resolve is answered by a
      cache, and not as the ladder would. */
  lemma DisagreementShows(cfg: Config, f: Request -> Reply, family: Family, disk: Option<map<string, Artifacts>>,
                          u: Urn, v: Urn)
    returns (acts: seq<Action>)
    requires (disk.Some? ==> disk.value == map[]) && family(u) && family(v) && !Agree(cfg, f, disk.Some?, u, v)
    ensures FairRun(cfg, f, family, Initial(disk), acts)
    ensures !Cachelike(cfg, f, After(cfg, Initial(disk), acts))
  {
    hide LadderAlone, Cacheless, CacheSuccess, ThePlan, Begin, FairRun, CacheId, OpenAnswer, After;
    var got := LadderAlone(cfg, f, u).fetched.value;
    var first := AfterFirst(cfg, f, family, disk, u);
    var s := After(cfg, Initial(disk), first);
    var inMemory := Lru.Admissible(cfg.maxEntries, cfg.maxBytes, got.data)
        && Cacheless(cfg, f, v) != Success(Resolved(got.data));
    var launch := Launch(if inMemory then 0 else 1, v);
    if inMemory {
      MemoryAnswers(cfg, ThePlan(cfg, f), disk, u, got, v);
    } else {
      DiskAnswers(cfg, ThePlan(cfg, f), disk, u, got, v);
    }
    FairSnoc(cfg, f, family, Initial(disk), first, launch);
    acts := first + [launch];
    var s' := Do(cfg, s, launch);
    assert s'.tasks[|s.tasks|].urn == v && s'.tasks[|s.tasks|].at.Done?;
    assert s'.tasks[|s.tasks|].at.resolution != Cacheless(cfg, f, v);
  }

  /** The exact condition. From an empty start, every resolve of every fair run over the family is
      what the cacheless ladder gives, if and only if the family's URNs agree in pairs. */
  lemma TransparencyExactly(cfg: Config, f: Request -> Reply, family: Family, disk: Option<map<string, Artifacts>>)
    requires disk.Some? ==> disk.value == map[]
    ensures (forall acts :: FairRun(cfg, f, family, Initial(disk), acts) ==>
        Cachelike(cfg, f, After(cfg, Initial(disk), acts)))
            <==> Coherent(cfg, f, disk.Some?, family)
  {
    hide Agree, FairRun, Cachelike, After;
    if Coherent(cfg, f, disk.Some?, family) {
      forall acts | FairRun(cfg, f, family, Initial(disk), acts)
        ensures Cachelike(cfg, f, After(cfg, Initial(disk), acts))
      {
        CoherentIsTransparent(cfg, f, family, disk, acts);
      }
    } else {
      var u: Urn, v: Urn :| family(u) && family(v) && !Agree(cfg, f, disk.Some?, u, v);
      var acts := DisagreementShows(cfg, f, family, disk, u, v);
    }
  }

  // ------------------------------------------------------------------ when the condition is met

  lemma GatewayOnlyRootless(w: World, a: Adversary, log: seq<Exchange>, u: Urn, plan: seq<Endpoint>, i: nat)
    requires u.root.None? && forall k :: 0 <= k < |plan| ==> plan[k].kind.RpcKind?
    ensures Walk(w, a, log, u, plan, i).fetched.None?
  {}

  /** Without a loopback host in reach, any URNs of one chain label agree, rootless ones included:
      a rootless resolve never yields anything to keep. */
  lemma RemoteOnlyCoherent(cfg: Config, f: Request -> Reply, hasDisk: bool, chain: string)
    requires NoLoopback(cfg)
    ensures Coherent(cfg, f, hasDisk, (u: Urn) => u.chain == chain)
  {
    hide CacheId, VerifyAndDecrypt, IsLoopbackBase, Walk, Rpc.FetchSpec;
    var family: Family := (u: Urn) => u.chain == chain;
    forall u: Urn, v: Urn | family(u) && family(v)
      ensures Agree(cfg, f, hasDisk, u, v)
    {
      LadderFetched(cfg, f, u);
      var p := PlanSpec(cfg.w, cfg.endpoint, Fixed(f), []);
      if u.root.None? {
        GatewayOnlyRootless(cfg.w, Fixed(f), p.log, u, p.plan, 0);
      } else if v.root.Some? && CacheId(v, v.root.value) == CacheId(u, u.root.value) {
        PinnedIdInjective(u, v);
      }
    }
  }
}
