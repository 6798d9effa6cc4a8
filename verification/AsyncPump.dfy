/** The engine as the driver keeps it: registry, graveyard and counters updated in
  * place, one method a critical section, each equal to its step of AsyncEngine. */
module AsyncPump {
  import opened AsyncContext
  import opened AsyncEngine

  datatype Handle = Handle(id: nat) | AlreadyEnded(status: Status)

  class CompletionEngine {
    var ctxs: map<nat, Ctx>
    var graveyard: seq<nat>
    var graves: nat
    var inflight: int
    var decs: nat
    var alive: bool
    var closed: bool
    var corrupt: bool
    var nextId: nat

    function Model(): Engine
      reads this
    {
      Engine(ctxs, graveyard, graves, inflight, decs, alive, closed, corrupt)
    }

    /** Ids are handed out once. */
    ghost predicate Valid()
      reads this
    {
      forall id :: id in ctxs ==> id < nextId
    }

    /** rc_amd_init_async_subsystem. */
    constructor ()
      ensures Valid() && Init(Model())
    {
      ctxs, graveyard, graves, inflight, decs := map[], [], 0, 0, 0;
      alive, closed, corrupt, nextId := true, false, false, 0;
    }

    /** rc_amd_queue_async_completion: a registered context, or a parent already
      * ended; nothing in between. */
    method QueueCompletion(parent: nat, total: int, statusFlag: bool, memory: bool) returns (h: Handle)
      requires Valid() && !closed
      modifies this
      ensures Valid()
      ensures h.Handle? <==> total > 0 && memory && old(alive)
      ensures h.AlreadyEnded? ==> h.status == (if total <= 0 then IoErr else Resource) && Model() == old(Model())
      ensures h.Handle? ==> h.id !in old(ctxs) && inflight == old(inflight) + 1 && graveyard == old(graveyard)
      ensures h.Handle? ==>
        ctxs == old(ctxs)[h.id := Ctx(parent, total, total, false, false, false, if statusFlag then IoErr else Ok,
                                      Live, NoWork, 0, 0, 0, 0, 0, [], !statusFlag, false, [])]
      ensures h.Handle? ==> Model() == Apply(old(Model()), Dispatch(h.id, parent, total, !statusFlag))
    {
      if total <= 0 { return AlreadyEnded(IoErr); }
      if !memory { return AlreadyEnded(Resource); }
      if !alive { return AlreadyEnded(Resource); }
      h := Handle(nextId);
      ctxs := ctxs[nextId := NewCtx(parent, total, !statusFlag)];
      inflight := inflight + 1;
      nextId := nextId + 1;
    }

    /** rc_amd_mirror_complete, up to the unlock: late reports go to the straggler
      * path, the last owed one goes on to claim. */
    method MirrorComplete(id: nat, st: Status) returns (late: bool, last: bool)
      requires Enabled(Model(), Complete(id, st))
      modifies this`ctxs
      ensures Model() == Apply(old(Model()), Complete(id, st))
      ensures late <==> old(ctxs)[id].completing || old(ctxs)[id].retired || old(ctxs)[id].home != Live
      ensures last <==> !late && ctxs[id].remaining == 0
      ensures var c := old(ctxs)[id];
        ctxs == old(ctxs)[id :=
          if c.home != Live then c
          else if late then c.(reports := c.reports + 1, stragglers := c.stragglers + 1)
          else c.(reports := c.reports + 1, remaining := c.remaining - 1, merged := c.merged + [st],
                  status := ctxs[id].status, claimers := c.claimers + (if last then 1 else 0))]
      ensures !late ==> ctxs[id].status == MergeAll(old(ctxs)[id].status, [st])
    {
      var c := ctxs[id];
      late := c.completing || c.retired || c.home != Live;
      last := false;
      if late {
        if c.home == Live {
          c := c.(reports := c.reports + 1, stragglers := c.stragglers + 1);
        }
      } else {
        c := c.(status := Merge(c.status, st), merged := c.merged + [st], reports := c.reports + 1);
        c := c.(remaining := c.remaining - 1);
        last := c.remaining == 0;
        if last { c := c.(claimers := c.claimers + 1); }
      }
      ctxs := ctxs[id := c];
    }

    /** rc_amd_straggler_report. */
    method StragglerReport(id: nat) returns (dead: bool)
      requires Enabled(Model(), Straggler(id))
      modifies this`ctxs, this`corrupt
      ensures Model() == Apply(old(Model()), Straggler(id))
      ensures var c := old(ctxs)[id];
        && (dead <==> c.home == Live && c.retired && c.remaining <= 1)
        && ctxs == old(ctxs)[id := c.(stragglers := c.stragglers - 1,
                                      remaining := if c.home == Live then c.remaining - 1 else c.remaining,
                                      reapers := if dead then c.reapers + 1 else c.reapers)]
      ensures corrupt <==> old(corrupt) || old(ctxs)[id].home == Freed
    {
      var c := ctxs[id];
      corrupt := corrupt || c.home == Freed;
      c := c.(stragglers := c.stragglers - 1);
      dead := false;
      if c.home == Live {
        c := c.(remaining := c.remaining - 1);
        dead := c.retired && c.remaining <= 0;
        if dead { c := c.(reapers := c.reapers + 1); }
      }
      ctxs := ctxs[id := c];
    }

    /** rc_amd_mirror_abort. */
    method MirrorAbort(id: nat, st: Status) returns (claimed: bool)
      requires Enabled(Model(), AbortSet(id, st))
      modifies this`ctxs
      ensures Model() == Apply(old(Model()), AbortSet(id, st))
      ensures claimed <==> !old(ctxs)[id].completing
      ensures var c := old(ctxs)[id];
        ctxs == old(ctxs)[id :=
          if claimed then c.(completing := true, aborted := true, queuers := c.queuers + 1, status := ctxs[id].status)
          else c]
      ensures claimed ==> ctxs[id].status == MergeAll(old(ctxs)[id].status, [st])
    {
      var c := ctxs[id];
      claimed := !c.completing;
      if claimed {
        if st != Ok { c := c.(status := Merge(c.status, st)); }
        c := c.(completing := true, aborted := true, queuers := c.queuers + 1);
      }
      ctxs := ctxs[id := c];
    }

    /** rc_amd_mirror_completion_work, its critical section. */
    method CompletionWork(id: nat) returns (status: Status, freeNow: bool)
      requires Enabled(Model(), WorkRetire(id))
      modifies this`ctxs, this`corrupt
      ensures Model() == Apply(old(Model()), WorkRetire(id))
      ensures status == if old(ctxs)[id].resource then Resource else old(ctxs)[id].status
      ensures freeNow <==> old(ctxs)[id].remaining <= 0
      ensures ctxs == old(ctxs)[id := old(ctxs)[id].(retired := true, work := Ending(status, freeNow))]
    {
      var c := ctxs[id];
      corrupt := corrupt || c.home == Freed;
      status := c.status;
      c := c.(retired := true);
      freeNow := c.Dead();
      if c.resource { status := Resource; }
      ctxs := ctxs[id := c.(work := Ending(status, freeNow))];
    }

    /** rc_amd_context_reap, under engine->lock. */
    method ContextReap(id: nat)
      requires Enabled(Model(), Reap(id))
      modifies this
      ensures Model() == Apply(old(Model()), Reap(id)) && nextId == old(nextId)
      ensures var evicts := old(graves) >= GRAVEYARD_MAX; var all := old(graveyard) + [id];
        && graveyard == (if evicts then all[1..] else all) && graves == (if evicts then old(graves) else old(graves) + 1)
        && (evicts && all[0] in old(ctxs) ==> ctxs[all[0]].home == Freed)
        && (!evicts || all[0] != id ==> ctxs[id].home == Tomb)
      ensures decs == old(decs) + 1 && inflight == old(inflight)
    {
      var c := ctxs[id];
      corrupt := corrupt || c.home != Live;
      ctxs := ctxs[id := c.(reapers := c.reapers - 1, home := Tomb)];
      graveyard := graveyard + [id];
      graves := graves + 1;
      decs := decs + 1;
      if graves > GRAVEYARD_MAX { EvictOldest(); }
    }

    /** The oldest tombstone goes. */
    method EvictOldest()
      requires graveyard != [] && graves > 0
      modifies this`ctxs, this`graveyard, this`graves
      ensures Model() == Evict(old(Model()))
      ensures graveyard == old(graveyard)[1..] && graves == old(graves) - 1
      ensures old(graveyard)[0] in old(ctxs) ==>
        var c := old(ctxs)[old(graveyard)[0]]; ctxs == old(ctxs)[old(graveyard)[0] := c.(home := Freed)]
    {
      var oldest := graveyard[0];
      graveyard := graveyard[1..];
      graves := graves - 1;
      if oldest in ctxs { ctxs := ctxs[oldest := ctxs[oldest].(home := Freed)]; }
    }

    /** rc_amd_drain_force: claim every live context nobody owns yet. */
    method DrainForceAll() returns (forced: nat)
      requires !alive && !closed
      modifies this`ctxs
      ensures ctxs == Forced(old(Model()), Registry(old(Model())))
      ensures forall id :: id in old(ctxs) ==>
        var c := old(ctxs)[id];
        id in ctxs && ctxs[id] ==
          if c.home == Live && !c.completing
          then c.(completing := true, queuers := c.queuers + 1, resource := true) else c
      ensures forced == |Unowned(old(Model()), Registry(old(Model())))|
    {
      ghost var e := Model();
      var todo := Registry(Model());
      ghost var done: set<nat> := {};
      forced := 0;
      assert Forced(e, {}) == ctxs;
      while todo != {}
        invariant todo + done == Registry(e) && todo !! done
        invariant ctxs == Forced(e, done) && forced == |Unowned(e, done)|
        decreases todo
      {
        var id :| id in todo;
        ForceNext(e, done, id);
        if !ctxs[id].completing { forced := forced + 1; }
        ctxs := ctxs[id := Force(ctxs[id])];
        todo, done := todo - {id}, done + {id};
      }
      assert done == Registry(e);
    }

    /** rc_amd_context_purge: free what is registered, and the tombstones. */
    method ContextPurge() returns (purged: nat)
      requires Enabled(Model(), Purge)
      modifies this
      ensures Model() == Apply(old(Model()), Purge) && purged == |Registry(old(Model()))|
      ensures graveyard == [] && graves == 0 && closed && inflight == old(inflight) - purged
      ensures ctxs.Keys == old(ctxs).Keys && forall id :: id in ctxs ==> ctxs[id] == old(ctxs)[id].(home := Freed)
    {
      var dying := Registry(Model());
      purged := |dying|;
      graveyard, graves, closed := [], 0, true;
      while dying != {}
        invariant dying <= Registry(old(Model())) && inflight == old(inflight) - (purged - |dying|)
        invariant ctxs == old(ctxs) && graveyard == [] && graves == 0 && closed && decs == old(decs)
        invariant alive == old(alive) && corrupt == old(corrupt)
        decreases dying
      {
        var id :| id in dying;
        dying := dying - {id};
        inflight := inflight - 1;
      }
      ctxs := map id | id in ctxs :: ctxs[id].(home := Freed);
    }
  }

  /** The contexts once those in done have been forced. */
  function Forced(e: Engine, done: set<nat>): map<nat, Ctx> {
    map id | id in e.ctxs :: if id in done then Force(e.ctxs[id]) else e.ctxs[id]
  }

  /** Those of done without an endio owner. */
  function Unowned(e: Engine, done: set<nat>): set<nat> {
    set id | id in done && id in e.ctxs && !e.ctxs[id].completing
  }

  lemma ForceNext(e: Engine, done: set<nat>, id: nat)
    requires id in e.ctxs && id !in done
    ensures Forced(e, done)[id] == e.ctxs[id]
    ensures Forced(e, done + {id}) == Forced(e, done)[id := Force(e.ctxs[id])]
    ensures |Unowned(e, done + {id})| == |Unowned(e, done)| + (if e.ctxs[id].completing then 0 else 1)
  {
    if e.ctxs[id].completing {
      assert Unowned(e, done + {id}) == Unowned(e, done);
    } else {
      assert Unowned(e, done + {id}) == Unowned(e, done) + {id};
    }
  }
}
