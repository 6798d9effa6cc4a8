/** The completion engine of src/patch_async_worker.c: any number of contexts,
  * reporters, aborts, the forced drain, the worker, the registry and the bounded
  * graveyard, interleaved at the grain of critical sections. */
module AsyncEngine {
  import opened AsyncContext

  const GRAVEYARD_MAX: nat := 256

  /** decs: reaps whose atomic_dec of inflight is still to come.  corrupt: a list
    * entry was unlinked twice, or freed memory was touched. */
  datatype Engine = Engine(
    ctxs: map<nat, Ctx>, graveyard: seq<nat>, graves: nat,
    inflight: int, decs: nat, alive: bool, closed: bool, corrupt: bool)

  datatype Step =
    | Dispatch(id: nat, parent: nat, total: nat, clean: bool)
    | Complete(id: nat, st: Status)
    | Straggler(id: nat)
    | LastClaim(id: nat)
    | AbortSet(id: nat, st: Status)
    | DrainForce(id: nat)
    | QueueWork(id: nat)
    | WorkRetire(id: nat)
    | WorkEnd(id: nat)
    | Reap(id: nat)
    | Dec
    | Exit
    | Purge

  function Put(e: Engine, id: nat, c: Ctx): Engine {
    e.(ctxs := e.ctxs[id := c])
  }

  predicate Quiet(c: Ctx) {
    c.stragglers == 0 && c.claimers == 0 && c.queuers == 0 && c.reapers == 0 && !c.work.Queued? && !c.work.Ending?
  }

  /** What can happen.  A handle is used only while its memory is there. */
  predicate Enabled(e: Engine, l: Step) {
    !e.closed &&
    match l
    case Dispatch(id, parent, total, clean) => id !in e.ctxs && total > 0 && e.alive
    case Complete(id, st) => id in e.ctxs && e.ctxs[id].home != Freed
    case Straggler(id) => id in e.ctxs && e.ctxs[id].stragglers > 0
    case LastClaim(id) => id in e.ctxs && e.ctxs[id].claimers > 0
    case AbortSet(id, st) => id in e.ctxs && e.ctxs[id].home != Freed
    case DrainForce(id) => id in e.ctxs && e.ctxs[id].home == Live && !e.alive
    case QueueWork(id) => id in e.ctxs && e.ctxs[id].queuers > 0
    case WorkRetire(id) => id in e.ctxs && e.ctxs[id].work.Queued?
    case WorkEnd(id) => id in e.ctxs && e.ctxs[id].work.Ending?
    case Reap(id) => id in e.ctxs && e.ctxs[id].reapers > 0
    case Dec => e.decs > 0
    case Exit => e.alive
    case Purge =>
      // the caller has quiesced every member path, and the worker is flushed
      !e.alive && forall id :: id in e.ctxs ==> Quiet(e.ctxs[id])
  }

  /** rc_amd_context_reap, under engine->lock: unlink, bury, evict the oldest. */
  function Bury(e: Engine, id: nat): Engine
    requires id in e.ctxs && e.ctxs[id].reapers > 0
  {
    var c := e.ctxs[id];
    var b := Put(e, id, c.(reapers := c.reapers - 1, home := Tomb))
      .(graveyard := e.graveyard + [id], graves := e.graves + 1, decs := e.decs + 1,
        corrupt := e.corrupt || c.home != Live);
    if b.graves > GRAVEYARD_MAX then Evict(b) else b
  }

  function Evict(e: Engine): Engine
    requires e.graveyard != [] && e.graves > 0
  {
    var oldest := e.graveyard[0];
    var f := e.(graveyard := e.graveyard[1..], graves := e.graves - 1);
    if oldest in e.ctxs then Put(f, oldest, e.ctxs[oldest].(home := Freed)) else f
  }

  function Touch(e: Engine, id: nat): bool
    requires id in e.ctxs
  {
    e.corrupt || e.ctxs[id].home == Freed
  }

  function Apply(e: Engine, l: Step): Engine
    requires Enabled(e, l)
  {
    match l
    case Dispatch(id, parent, total, clean) =>
      Put(e, id, NewCtx(parent, total, clean)).(inflight := e.inflight + 1)
    case Complete(id, st) => Put(e, id, Report(e.ctxs[id], st))
    case Straggler(id) => Put(e, id, Straggle(e.ctxs[id])).(corrupt := Touch(e, id))
    case LastClaim(id) => Put(e, id, ClaimLast(e.ctxs[id])).(corrupt := Touch(e, id))
    case AbortSet(id, st) => Put(e, id, Abort(e.ctxs[id], st))
    case DrainForce(id) => Put(e, id, Force(e.ctxs[id]))
    case QueueWork(id) => Put(e, id, Enqueue(e.ctxs[id])).(corrupt := Touch(e, id))
    case WorkRetire(id) => Put(e, id, Retire(e.ctxs[id])).(corrupt := Touch(e, id))
    case WorkEnd(id) => Put(e, id, End(e.ctxs[id])).(corrupt := Touch(e, id))
    case Reap(id) => Bury(e, id)
    case Dec => e.(decs := e.decs - 1, inflight := e.inflight - 1)
    case Exit => e.(alive := false)
    case Purge =>
      e.(ctxs := map id | id in e.ctxs :: e.ctxs[id].(home := Freed), graveyard := [], graves := 0,
         inflight := e.inflight - |Registry(e)|, closed := true)
  }

  /** The contexts on the registry. */
  function Registry(e: Engine): set<nat> {
    set id | id in e.ctxs && e.ctxs[id].home == Live
  }

  // ---------- hypotheses on the callers ----------

  /** No more reports than were promised before the context is a tombstone; an abort
    * carries a failure; the tombstone evicted, if any, has had its endio and no
    * thread still on its way to it. */
  predicate Careful(e: Engine, l: Step)
    requires Enabled(e, l)
  {
    match l
    case Complete(id, st) => e.ctxs[id].home == Live ==> e.ctxs[id].reports < e.ctxs[id].promised
    case AbortSet(id, st) => st != Ok
    case Reap(id) =>
      e.graves == GRAVEYARD_MAX && e.graveyard != [] && e.graveyard[0] in e.ctxs ==> Settled(e.ctxs[e.graveyard[0]])
    case _ => true
  }

  predicate Settled(c: Ctx) {
    Quiet(c) && c.work.Ended?
  }

  // ---------- the invariant ----------

  predicate CtxsOk(e: Engine) {
    forall id :: id in e.ctxs ==> CtxOk(e.ctxs[id])
  }

  predicate Buried(e: Engine, id: nat) {
    id in e.ctxs && e.ctxs[id].home == Tomb
  }

  /** The graveyard lists the tombstones, each once. */
  ghost predicate Listed(e: Engine) {
    && (forall i :: 0 <= i < |e.graveyard| ==> Buried(e, e.graveyard[i]))
    && (forall i, j :: 0 <= i < j < |e.graveyard| ==> e.graveyard[i] != e.graveyard[j])
    && (forall id :: Buried(e, id) ==> id in e.graveyard)
  }

  ghost predicate GraveyardOk(e: Engine) {
    Listed(e) && e.graves == |e.graveyard| <= GRAVEYARD_MAX
  }

  /** A freed context is over: nothing is on its way to it. */
  predicate FreedOk(e: Engine) {
    forall id :: id in e.ctxs && e.ctxs[id].home == Freed ==> Settled(e.ctxs[id])
  }

  ghost predicate Inv(e: Engine) {
    && CtxsOk(e) && GraveyardOk(e) && FreedOk(e) && !e.corrupt
    && e.inflight == |Registry(e)| + e.decs
  }

  predicate Init(e: Engine) {
    e == Engine(map[], [], 0, 0, 0, true, false, false)
  }

  // ---------- each step keeps it ----------

  /** A step that changes one context and leaves its home alone. */
  lemma PutKeeps(e: Engine, id: nat, c: Ctx)
    requires Inv(e) && id in e.ctxs && c.home == e.ctxs[id].home && CtxOk(c)
    requires c.home == Freed ==> Settled(c)
    ensures Inv(Put(e, id, c))
  {
    var f := Put(e, id, c);
    assert Registry(f) == Registry(e);
    ListedStays(e, f);
  }

  lemma ReapKeeps(e: Engine, id: nat)
    requires Inv(e) && Enabled(e, Reap(id)) && Careful(e, Reap(id))
    ensures Inv(Apply(e, Reap(id)))
  {
    var c := e.ctxs[id];
    ReapedOk(c);
    var d := c.(reapers := c.reapers - 1, home := Tomb);
    var b := Put(e, id, d).(graveyard := e.graveyard + [id], graves := e.graves + 1, decs := e.decs + 1);
    BuriedKeeps(e, id, d, b);
    if b.graves > GRAVEYARD_MAX {
      assert b.graveyard[0] == e.graveyard[0] && Buried(e, e.graveyard[0]);
      EvictKeeps(b);
    }
  }

  lemma ReapedOk(c: Ctx)
    requires CtxOk(c) && c.reapers > 0
    ensures c.home == Live && CtxOk(c.(reapers := c.reapers - 1, home := Tomb))
  {
  }

  lemma ListedStays(e: Engine, f: Engine)
    requires Listed(e) && f.graveyard == e.graveyard && forall id :: Buried(f, id) <==> Buried(e, id)
    ensures Listed(f)
  {
  }

  lemma BuriedKeeps(e: Engine, id: nat, d: Ctx, b: Engine)
    requires Inv(e) && id in e.ctxs && e.ctxs[id].home == Live && CtxOk(d) && d.home == Tomb
    requires b == Put(e, id, d).(graveyard := e.graveyard + [id], graves := e.graves + 1, decs := e.decs + 1)
    ensures CtxsOk(b) && FreedOk(b) && !b.corrupt && b.inflight == |Registry(b)| + b.decs
    ensures b.graves == |b.graveyard| && Listed(b)
  {
    assert Registry(e) == Registry(b) + {id};
    forall i | 0 <= i < |b.graveyard| ensures Buried(b, b.graveyard[i]) {
      if i < |e.graveyard| { assert Buried(e, e.graveyard[i]); }
    }
    forall i, j | 0 <= i < j < |b.graveyard| ensures b.graveyard[i] != b.graveyard[j] {
      if j == |e.graveyard| { assert Buried(e, e.graveyard[i]); }
    }
    forall j | Buried(b, j) ensures j in b.graveyard {
      if j != id { assert Buried(e, j); } else { assert b.graveyard[|e.graveyard|] == id; }
    }
  }

  lemma EvictKeeps(b: Engine)
    requires CtxsOk(b) && FreedOk(b) && !b.corrupt && b.inflight == |Registry(b)| + b.decs
    requires b.graves == |b.graveyard| == GRAVEYARD_MAX + 1 && Listed(b)
    requires Buried(b, b.graveyard[0]) && Settled(b.ctxs[b.graveyard[0]])
    ensures Inv(Evict(b))
  {
    var oldest, f := b.graveyard[0], Evict(b);
    assert Registry(f) == Registry(b);
    assert CtxOk(b.ctxs[oldest]);
    forall i | 0 <= i < |f.graveyard| ensures Buried(f, f.graveyard[i]) {
      assert Buried(b, b.graveyard[i + 1]) && b.graveyard[0] != b.graveyard[i + 1];
    }
    forall id | Buried(f, id) ensures id in f.graveyard {
      assert Buried(b, id);
      var i :| 0 <= i < |b.graveyard| && b.graveyard[i] == id;
      assert i > 0 && f.graveyard[i - 1] == id;
    }
  }

  lemma DispatchKeeps(e: Engine, id: nat, parent: nat, total: nat, clean: bool)
    requires Inv(e) && Enabled(e, Dispatch(id, parent, total, clean))
    ensures Inv(Apply(e, Dispatch(id, parent, total, clean)))
  {
    var f := Apply(e, Dispatch(id, parent, total, clean));
    NewCtxOk(parent, total, clean);
    assert Registry(f) == Registry(e) + {id};
    ListedStays(e, f);
  }

  /** After the purge nothing is registered and every reap is accounted for. */
  lemma PurgeEmpties(e: Engine)
    requires Inv(e) && Enabled(e, Purge)
    ensures var f := Apply(e, Purge); Registry(f) == {} && f.inflight == f.decs && f.graves == 0
  {
  }

  /** The steps of one context: what it becomes. */
  function Next(c: Ctx, l: Step): Ctx
    requires l.Straggler? ==> c.stragglers > 0
    requires l.LastClaim? ==> c.claimers > 0
    requires l.QueueWork? ==> c.queuers > 0
    requires l.WorkRetire? ==> c.work.Queued?
    requires l.WorkEnd? ==> c.work.Ending?
  {
    match l
    case Complete(_, st) => Report(c, st)
    case Straggler(_) => Straggle(c)
    case LastClaim(_) => ClaimLast(c)
    case AbortSet(_, st) => Abort(c, st)
    case DrainForce(_) => Force(c)
    case QueueWork(_) => Enqueue(c)
    case WorkRetire(_) => Retire(c)
    case WorkEnd(_) => End(c)
    case _ => c
  }

  predicate OneContext(l: Step) {
    l.Complete? || l.Straggler? || l.LastClaim? || l.AbortSet? || l.DrainForce? || l.QueueWork? || l.WorkRetire?
    || l.WorkEnd?
  }

  lemma NextOk(e: Engine, l: Step)
    requires Inv(e) && Enabled(e, l) && Careful(e, l) && OneContext(l)
    ensures var c := e.ctxs[l.id]; var d := Next(c, l);
      CtxOk(d) && d.home == c.home && (c.home == Freed ==> d == c)
  {
    var c := e.ctxs[l.id];
    assert CtxOk(c);
    match l
    case Complete(_, st) => ReportKeeps(c, st);
    case Straggler(_) => StraggleKeeps(c);
    case LastClaim(_) => ClaimLastKeeps(c);
    case AbortSet(_, st) => AbortKeeps(c, st);
    case DrainForce(_) => ForceKeeps(c);
    case QueueWork(_) => EnqueueKeeps(c);
    case WorkRetire(_) => RetireKeeps(c);
    case WorkEnd(_) => EndKeeps(c);
  }

  lemma StepKeeps(e: Engine, l: Step)
    requires Inv(e) && Enabled(e, l) && Careful(e, l) && l != Purge
    ensures Inv(Apply(e, l))
  {
    if OneContext(l) {
      NextOk(e, l);
      PutKeeps(e, l.id, Next(e.ctxs[l.id], l));
    } else if l.Dispatch? {
      DispatchKeeps(e, l.id, l.parent, l.total, l.clean);
    } else if l.Reap? {
      ReapKeeps(e, l.id);
    } else {
      assert Registry(Apply(e, l)) == Registry(e);
    }
  }

  // ---------- runs ----------

  /** ls is a run from e; ok restricts the schedule. */
  ghost predicate Run(e: Engine, ls: seq<Step>, careful: bool)
    decreases |ls|
  {
    ls == [] || (Enabled(e, ls[0]) && (careful ==> Careful(e, ls[0])) && Run(Apply(e, ls[0]), ls[1..], careful))
  }

  ghost function After(e: Engine, ls: seq<Step>, careful: bool): Engine
    requires Run(e, ls, careful)
    decreases |ls|
  {
    if ls == [] then e else After(Apply(e, ls[0]), ls[1..], careful)
  }

  /** The contexts' own invariants outlive the purge; the lists' end with it. */
  ghost predicate Reachable(e: Engine) {
    if e.closed then Purged(e) else Inv(e)
  }

  ghost predicate Purged(e: Engine) {
    && e.inflight == e.decs && e.graves == 0 && !e.corrupt
    && forall id :: id in e.ctxs ==> e.ctxs[id].home == Freed && Over(e.ctxs[id])
  }

  /** What remains true of a purged context: its endios and their meaning. */
  predicate Over(c: Ctx) {
    |c.ends| <= 1 && OutcomeOk(c)
  }

  lemma StepReaches(e: Engine, l: Step)
    requires Reachable(e) && Enabled(e, l) && Careful(e, l)
    ensures Reachable(Apply(e, l))
  {
    if l == Purge {
      PurgeEmpties(e);
    } else {
      StepKeeps(e, l);
    }
  }

  lemma {:induction false} RunReaches(e: Engine, ls: seq<Step>)
    requires Reachable(e) && Run(e, ls, true)
    ensures Reachable(After(e, ls, true))
    decreases |ls|
  {
    if ls != [] {
      StepReaches(e, ls[0]);
      RunReaches(Apply(e, ls[0]), ls[1..]);
    }
  }

  /** A run from an idle engine in which the callers keep the hypotheses. */
  ghost predicate CarefulRun(e: Engine, ls: seq<Step>) {
    Init(e) && Run(e, ls, true)
  }

  lemma CarefulRunReaches(e: Engine, ls: seq<Step>)
    requires CarefulRun(e, ls)
    ensures Reachable(After(e, ls, true))
  {
    assert Registry(e) == {};
    RunReaches(e, ls);
  }

  // ---------- what it means ----------

  /** Every registered parent is ended at most once, no list entry is unlinked twice
    * and no freed context touched; the live contexts and the reaps still to be
    * counted are what inflight says; the graveyard keeps its bound. */
  lemma EndedOnceReapedOnce(e: Engine, ls: seq<Step>, id: nat)
    requires CarefulRun(e, ls)
    ensures var f := After(e, ls, true);
      && (id in f.ctxs ==> |f.ctxs[id].ends| <= 1)
      && !f.corrupt && f.graves <= GRAVEYARD_MAX && f.inflight == |Registry(f)| + f.decs
  {
    CarefulRunReaches(e, ls);
    var f := After(e, ls, true);
    if f.closed { assert Registry(f) == {}; }
    if id in f.ctxs && !f.closed { assert CtxOk(f.ctxs[id]); }
  }

  /** A parent ends OK only if its dispatch was clean, no abort or drain claimed it
    * and every report promised for it arrived and was OK. */
  lemma OkMeansEverythingOk(e: Engine, ls: seq<Step>, id: nat)
    requires CarefulRun(e, ls)
    ensures var f := After(e, ls, true);
      id in f.ctxs && Ok in f.ctxs[id].ends ==>
        var c := f.ctxs[id];
        c.clean && !c.aborted && !c.resource && |c.merged| == c.promised && AllOk(c.merged)
  {
    CarefulRunReaches(e, ls);
    var f := After(e, ls, true);
    if id in f.ctxs && Ok in f.ctxs[id].ends {
      var c := f.ctxs[id];
      assert f.closed || CtxOk(c);
      assert OutcomeOk(c);
    }
  }

  ghost predicate Aggregates(e: Engine) {
    forall id :: id in e.ctxs ==> AggregateOk(e.ctxs[id])
  }

  lemma NextAggregates(e: Engine, l: Step)
    requires Inv(e) && Aggregates(e) && Enabled(e, l) && OneContext(l)
    ensures AggregateOk(Next(e.ctxs[l.id], l))
  {
    var c := e.ctxs[l.id];
    var d := Next(c, l);
    assert AggregateOk(c) && CtxOk(c);
    match l
    case Complete(_, st) => ReportAggregates(c, st);
    case AbortSet(_, st) => AbortAggregates(c, st);
    case _ => OtherAggregates(c, d);
  }

  predicate SameHistory(c: Ctx, d: Ctx) {
    d.status == c.status && d.merged == c.merged && d.clean == c.clean && d.aborted == c.aborted
  }

  lemma OtherAggregates(c: Ctx, d: Ctx)
    requires AggregateOk(c) && SameHistory(c, d)
    ensures AggregateOk(d)
  {
    if d.aborted {
      var st :| c.status == MergeAll(Initial(c), c.merged + [st]);
      assert d.status == MergeAll(Initial(d), d.merged + [st]);
    }
  }

  lemma StepKeepsAggregates(e: Engine, l: Step)
    requires Inv(e) && Aggregates(e) && Enabled(e, l)
    ensures Aggregates(Apply(e, l))
  {
    var f := Apply(e, l);
    forall id | id in f.ctxs ensures AggregateOk(f.ctxs[id]) { StepKeepsAggregate(e, l, id); }
  }

  lemma StepKeepsAggregate(e: Engine, l: Step, id: nat)
    requires Inv(e) && Aggregates(e) && Enabled(e, l) && id in Apply(e, l).ctxs
    ensures AggregateOk(Apply(e, l).ctxs[id])
  {
    if OneContext(l) && l.id == id {
      NextAggregates(e, l);
    } else {
      LeavesAggregate(e, l, id, Apply(e, l));
    }
  }

  lemma LeavesAggregate(e: Engine, l: Step, id: nat, f: Engine)
    requires Aggregates(e) && Enabled(e, l) && f == Apply(e, l) && id in f.ctxs && !(OneContext(l) && l.id == id)
    ensures AggregateOk(f.ctxs[id])
  {
    if id in e.ctxs {
      LeavesFields(e, l, id, f);
      OtherAggregates(e.ctxs[id], f.ctxs[id]);
    } else {
      OnlyDispatched(e, l, id, f);
      NewAggregates(l.parent, l.total, l.clean);
    }
  }

  lemma LeavesFields(e: Engine, l: Step, id: nat, f: Engine)
    requires Enabled(e, l) && f == Apply(e, l) && id in e.ctxs && id in f.ctxs && !(OneContext(l) && l.id == id)
    ensures SameHistory(e.ctxs[id], f.ctxs[id])
  {
    if OneContext(l) {
      OthersStay(e, l, id, f);
    } else if l.Reap? {
      ReapLeaves(e, l.id, id, f);
    }
  }

  lemma OthersStay(e: Engine, l: Step, id: nat, f: Engine)
    requires Enabled(e, l) && f == Apply(e, l) && id in e.ctxs && OneContext(l) && l.id != id
    ensures id in f.ctxs && f.ctxs[id] == e.ctxs[id]
  {
  }

  lemma ReapLeaves(e: Engine, k: nat, id: nat, f: Engine)
    requires Enabled(e, Reap(k)) && f == Bury(e, k) && id in e.ctxs
    ensures id in f.ctxs && SameHistory(e.ctxs[id], f.ctxs[id])
  {
    var c := e.ctxs[k];
    var b := Put(e, k, c.(reapers := c.reapers - 1, home := Tomb))
      .(graveyard := e.graveyard + [k], graves := e.graves + 1, decs := e.decs + 1, corrupt := e.corrupt || c.home != Live);
    if b.graves > GRAVEYARD_MAX { EvictLeaves(b, id); }
  }

  lemma EvictLeaves(b: Engine, id: nat)
    requires b.graveyard != [] && b.graves > 0 && id in b.ctxs
    ensures id in Evict(b).ctxs && SameHistory(b.ctxs[id], Evict(b).ctxs[id])
  {
  }

  lemma OnlyDispatched(e: Engine, l: Step, id: nat, f: Engine)
    requires Enabled(e, l) && f == Apply(e, l) && id !in e.ctxs && id in f.ctxs
    ensures l.Dispatch? && f.ctxs[id] == NewCtx(l.parent, l.total, l.clean)
  {
  }

  lemma NewAggregates(parent: nat, total: nat, clean: bool)
    ensures AggregateOk(NewCtx(parent, total, clean))
  {
  }

  lemma {:induction false} RunKeepsAggregates(e: Engine, ls: seq<Step>)
    requires Reachable(e) && Aggregates(e) && Run(e, ls, true)
    ensures Aggregates(After(e, ls, true))
    decreases |ls|
  {
    if ls != [] {
      StepKeepsAggregates(e, ls[0]);
      StepReaches(e, ls[0]);
      RunKeepsAggregates(Apply(e, ls[0]), ls[1..]);
    }
  }

  /** What a parent is ended with: Resource if the drain took it; otherwise the worst of
    * what its dispatch started with, every report merged and the status of an abort; and
    * unless it was aborted, all the reports promised are among them. */
  ghost predicate EndedWithWorst(c: Ctx) {
    var start := Initial(c);
    if c.resource then c.ends == [Resource]
    else if c.aborted then exists st :: c.ends == [MergeAll(start, c.merged + [st])]
    else
      && |c.merged| == c.promised && c.ends == [MergeAll(start, c.merged)]
      && Graded([start] + c.merged, c.ends[0])
  }

  lemma ParentGetsWorst(e: Engine, ls: seq<Step>, id: nat)
    requires CarefulRun(e, ls)
    ensures var f := After(e, ls, true);
      id in f.ctxs && f.ctxs[id].ends != [] ==> EndedWithWorst(f.ctxs[id])
  {
    CarefulRunReaches(e, ls);
    assert Registry(e) == {};
    RunKeepsAggregates(e, ls);
    var f := After(e, ls, true);
    if id in f.ctxs && f.ctxs[id].ends != [] {
      var c := f.ctxs[id];
      assert f.closed || CtxOk(c);
      assert OutcomeOk(c) && AggregateOk(c);
      AggregateIsGraded(Initial(c), c.merged);
    }
  }

  /** Nothing is forgotten: once every promised report has arrived and nobody is on
    * the way to a context, its parent has been ended and it has left the registry. */
  lemma NothingForgotten(e: Engine, ls: seq<Step>, id: nat)
    requires CarefulRun(e, ls)
    ensures var f := After(e, ls, true);
      !f.closed && id in f.ctxs && Quiet(f.ctxs[id]) && f.ctxs[id].reports == f.ctxs[id].promised ==>
        |f.ctxs[id].ends| == 1 && f.ctxs[id].home != Live
  {
    CarefulRunReaches(e, ls);
    var f := After(e, ls, true);
    if !f.closed && id in f.ctxs { assert CtxOk(f.ctxs[id]); }
  }

  // ---------- the hypotheses are needed ----------

  /** A report beyond the promised ones, between the worker's critical section and
    * its own reap: two observers reap the same context. */
  const EXTRA_REPORT := [
    Dispatch(0, 7, 1, true), Complete(0, Ok), LastClaim(0), QueueWork(0), WorkRetire(0),
    Complete(0, Ok), Straggler(0), WorkEnd(0), Reap(0), Reap(0)]

  /** An abort with BLK_STS_OK: the parent ends OK although no member reported. */
  const ABORT_OK := [Dispatch(0, 7, 2, true), AbortSet(0, Ok), QueueWork(0), WorkRetire(0), WorkEnd(0)]

  const IDLE := Engine(map[], [], 0, 0, 0, true, false, false)

  /** The engine after the first n steps of ls. */
  ghost predicate Reaches(e: Engine, ls: seq<Step>, f: Engine) {
    Run(e, ls, false) && After(e, ls, false) == f
  }

  lemma {:induction false} OneMore(e: Engine, ls: seq<Step>, f: Engine, l: Step)
    requires Reaches(e, ls, f) && Enabled(f, l)
    ensures Reaches(e, ls + [l], Apply(f, l))
    decreases |ls|
  {
    var all := ls + [l];
    if ls == [] {
      assert all[1..] == [];
    } else {
      OneMore(Apply(e, ls[0]), ls[1..], f, l);
      assert all[0] == ls[0] && all[1..] == ls[1..] + [l];
    }
  }

  /** One context on the registry of an engine. */
  function With(c: Ctx): Engine {
    Engine(map[0 := c], [], 0, 1, 0, true, false, false)
  }

  /** Step n of all, when it concerns the one context. */
  lemma Move(all: seq<Step>, n: nat, c: Ctx)
    requires n < |all| && Reaches(IDLE, all[..n], With(c)) && c.home == Live
    requires Enabled(With(c), all[n]) && OneContext(all[n])
    ensures Reaches(IDLE, all[..n + 1], With(Next(c, all[n])))
  {
    OneMore(IDLE, all[..n], With(c), all[n]);
    assert all[..n + 1] == all[..n] + [all[n]];
    assert Apply(With(c), all[n]) == With(Next(c, all[n]));
  }

  lemma Start(total: nat)
    requires total > 0
    ensures Reaches(IDLE, [Dispatch(0, 7, total, true)], With(NewCtx(7, total, true)))
  {
    OneMore(IDLE, [], IDLE, Dispatch(0, 7, total, true));
    assert [] + [Dispatch(0, 7, total, true)] == [Dispatch(0, 7, total, true)];
    assert map[][0 := NewCtx(7, total, true)] == map[0 := NewCtx(7, total, true)];
  }

  lemma AbortOkQueues()
    ensures Reaches(IDLE, ABORT_OK[..3], With(Unreported()))
  {
    var all := ABORT_OK;
    Start(2);
    assert all[..1] == [Dispatch(0, 7, 2, true)];
    Move(all, 1, NewCtx(7, 2, true));
    Move(all, 2, Abort(NewCtx(7, 2, true), Ok));
  }

  /** Claimed by an abort with OK, no report yet. */
  function Unreported(): Ctx {
    Ctx(7, 2, 2, true, false, false, Ok, Live, Queued, 0, 0, 0, 0, 0, [], true, true, [])
  }

  lemma AbortOkEndsOk()
    ensures Run(IDLE, ABORT_OK, false)
    ensures var f := After(IDLE, ABORT_OK, false);
      0 in f.ctxs && f.ctxs[0].ends == [Ok] && f.ctxs[0].merged == [] && f.ctxs[0].promised == 2
  {
    var all := ABORT_OK;
    AbortOkQueues();
    Move(all, 3, Unreported());
    Move(all, 4, Retire(Unreported()));
    assert all[..5] == all;
  }

  /** The only report is in and about to claim. */
  function Counted(): Ctx {
    Ctx(7, 1, 0, false, false, false, Ok, Live, NoWork, 0, 1, 0, 0, 1, [Ok], true, false, [])
  }

  /** The work is queued. */
  function Parked(): Ctx {
    Ctx(7, 1, 0, true, false, false, Ok, Live, Queued, 0, 0, 0, 0, 1, [Ok], true, false, [])
  }

  /** The worker is past its critical section, and one report too many is on the
    * straggler path. */
  function Straying(): Ctx {
    Ctx(7, 1, 0, true, true, false, Ok, Live, Ending(Ok, true), 1, 0, 0, 0, 2, [Ok], true, false, [])
  }

  /** Worker and straggler are both about to reap. */
  function Doomed(): Ctx {
    Ctx(7, 1, -1, true, true, false, Ok, Live, Ended, 0, 0, 0, 2, 2, [Ok], true, false, [Ok])
  }

  lemma ReachParked()
    ensures Reaches(IDLE, EXTRA_REPORT[..4], With(Parked()))
  {
    var all := EXTRA_REPORT;
    Start(1);
    assert all[..1] == [Dispatch(0, 7, 1, true)];
    Move(all, 1, NewCtx(7, 1, true));
    assert Report(NewCtx(7, 1, true), Ok) == Counted() by { assert [] + [Ok] == [Ok]; }
    ReachClaimed(all);
  }

  lemma ReachClaimed(all: seq<Step>)
    requires all == EXTRA_REPORT && Reaches(IDLE, all[..2], With(Counted()))
    ensures Reaches(IDLE, all[..4], With(Parked()))
  {
    Move(all, 2, Counted());
    Move(all, 3, ClaimLast(Counted()));
  }

  lemma ReachStraying()
    ensures Reaches(IDLE, EXTRA_REPORT[..6], With(Straying()))
  {
    ReachParked();
    Move(EXTRA_REPORT, 4, Parked());
    Move(EXTRA_REPORT, 5, Retire(Parked()));
  }

  lemma ReachDoomed()
    ensures Reaches(IDLE, EXTRA_REPORT[..8], With(Doomed()))
  {
    ReachStraying();
    Move(EXTRA_REPORT, 6, Straying());
    Move(EXTRA_REPORT, 7, Straggle(Straying()));
    assert End(Straggle(Straying())) == Doomed() by { assert [] + [Ok] == [Ok]; }
  }

  lemma ExtraReportReapsTwice()
    ensures Run(IDLE, EXTRA_REPORT, false) && After(IDLE, EXTRA_REPORT, false).corrupt
  {
    var all := EXTRA_REPORT;
    ReachDoomed();
    var e8 := With(Doomed());
    OneMore(IDLE, all[..8], e8, Reap(0));
    assert all[..9] == all[..8] + [Reap(0)];
    var e9 := Apply(e8, Reap(0));
    OneMore(IDLE, all[..9], e9, Reap(0));
    assert all == all[..9] + [Reap(0)];
  }
}
