/** One mirror context of src/patch_async_worker.c, and everything that threads may
  * be about to do to it.  Each function below is one critical section. */
module AsyncContext {

  // ---------- statuses ----------

  /** blk_status_t, by the classes rc_status_rank tells apart. */
  datatype Status =
    | Ok
    | Resource | DevResource
    | ZoneOpenResource | ZoneActiveResource | NoSpc | ResvConflict
    | NotSupp | Target | Transport | Medium | Protection
    | IoErr | Other(code: nat)

  function Rank(s: Status): nat {
    match s
    case Ok => 0
    case Resource | DevResource => 1
    case ZoneOpenResource | ZoneActiveResource | NoSpc | ResvConflict => 2
    case NotSupp | Target | Transport | Medium | Protection => 3
    case IoErr | Other(_) => 4
  }

  /** rc_status_merge: the worse status, and the later one of two equally bad. */
  function Merge(have: Status, incoming: Status): Status {
    if incoming == Ok then have
    else if have == Ok then incoming
    else if Rank(incoming) >= Rank(have) then incoming
    else have
  }

  /** The aggregate of a whole set of reports. */
  function MergeAll(start: Status, reports: seq<Status>): Status {
    if reports == [] then start
    else Merge(MergeAll(start, reports[..|reports| - 1]), reports[|reports| - 1])
  }

  /** The aggregate is one of the statuses merged, none of them is worse, and every
    * one after it is milder. */
  lemma {:induction false} MergeAllIsWorst(start: Status, reports: seq<Status>) returns (k: nat)
    ensures IsWorst([start] + reports, k, MergeAll(start, reports))
    decreases |reports|
  {
    if reports == [] {
      k := 0;
    } else {
      var init, last := reports[..|reports| - 1], reports[|reports| - 1];
      k := MergeAllIsWorst(start, init);
      var have := MergeAll(start, init);
      assert [start] + reports == [start] + init + [last];
      if Rank(last) >= Rank(have) { k := |reports|; }
    }
  }

  predicate IsWorst(all: seq<Status>, k: nat, m: Status) {
    && k < |all| && all[k] == m
    && (forall i :: 0 <= i < |all| ==> Rank(all[i]) <= Rank(m))
    && (forall i :: k < i < |all| ==> Rank(all[i]) < Rank(m))
  }

  /** No failure is masked: the aggregate is OK exactly when everything is. */
  lemma {:induction false} MergeAllOkIff(start: Status, reports: seq<Status>)
    ensures MergeAll(start, reports) == Ok <==> start == Ok && forall i :: 0 <= i < |reports| ==> reports[i] == Ok
    decreases |reports|
  {
    if reports != [] {
      MergeAllOkIff(start, reports[..|reports| - 1]);
    }
  }

  /** "Come back later." */
  predicate IsRetry(s: Status) { s.Resource? || s.DevResource? }

  /** Exhausted resources. */
  predicate IsShortage(s: Status) {
    s.ZoneOpenResource? || s.ZoneActiveResource? || s.NoSpc? || s.ResvConflict?
  }

  /** The device or the operation failed. */
  predicate IsDevice(s: Status) {
    s.NotSupp? || s.Target? || s.Transport? || s.Medium? || s.Protection?
  }

  predicate IsTerminal(s: Status) { s.IoErr? || s.Other? }

  /** What the aggregate may be, given everything that went into it: a milder class never
    * stands for a graver one, and the aggregate is never invented. */
  predicate Graded(all: seq<Status>, m: Status) {
    && m in all
    && (m == Ok ==> forall s :: s in all ==> s == Ok)
    && (IsRetry(m) ==> forall s :: s in all ==> s == Ok || IsRetry(s))
    && (IsShortage(m) ==> forall s :: s in all ==> s == Ok || IsRetry(s) || IsShortage(s))
    && (IsDevice(m) ==> forall s :: s in all ==> !IsTerminal(s))
  }

  lemma AggregateIsGraded(start: Status, reports: seq<Status>)
    ensures Graded([start] + reports, MergeAll(start, reports))
  {
    var k := MergeAllIsWorst(start, reports);
    var all, m := [start] + reports, MergeAll(start, reports);
    assert all[k] == m;
    forall s | s in all ensures Rank(s) <= Rank(m) {
      var i :| 0 <= i < |all| && all[i] == s;
    }
  }

  // ---------- a context ----------

  /** On the registry, in the graveyard, or freed. */
  datatype Home = Live | Tomb | Freed

  /** The completion work: on the worker's queue, its critical section done and the
    * endio to come, or over. */
  datatype Work = NoWork | Queued | Ending(out: Status, free: bool) | Ended

  /** The fields of rc_mirror_context, the threads on their way to it, and its
    * history.
    * stragglers: reports that saw an endio owner and head for the straggler path;
    * claimers: reports that counted down to zero and are about to claim;
    * queuers: claims that won and have not queued the work yet;
    * reapers: observers that found the context dead and are about to reap it.
    * reports, merged: reports that arrived while live, and those that were merged;
    * clean, allOk, aborted: a clean dispatch, no failed merge, claimed by an abort. */
  datatype Ctx = Ctx(
    parent: nat, promised: nat, remaining: int,
    completing: bool, retired: bool, resource: bool, status: Status,
    home: Home, work: Work,
    stragglers: nat, claimers: nat, queuers: nat, reapers: nat,
    reports: nat, merged: seq<Status>, clean: bool, aborted: bool, ends: seq<Status>)
  {
    predicate Dead() { retired && remaining <= 0 }
  }

  function NewCtx(parent: nat, total: nat, clean: bool): Ctx {
    Ctx(parent, total, total, false, false, false, if clean then Ok else IoErr, Live, NoWork,
        0, 0, 0, 0, 0, [], clean, false, [])
  }

  /** rc_amd_mirror_complete, the locked part. */
  function Report(c: Ctx, st: Status): Ctx {
    if c.home != Live then c
    else if c.completing || c.retired then c.(reports := c.reports + 1, stragglers := c.stragglers + 1)
    else
      c.(reports := c.reports + 1, status := Merge(c.status, st), merged := c.merged + [st],
         remaining := c.remaining - 1, claimers := if c.remaining - 1 == 0 then c.claimers + 1 else c.claimers)
  }

  /** rc_amd_straggler_report, the locked part. */
  function Straggle(c: Ctx): Ctx
    requires c.stragglers > 0
  {
    var d := c.(stragglers := c.stragglers - 1);
    if c.home != Live then d
    else
      var e := d.(remaining := d.remaining - 1);
      if e.Dead() then e.(reapers := e.reapers + 1) else e
  }

  /** rc_amd_context_claim by the last report. */
  function ClaimLast(c: Ctx): Ctx
    requires c.claimers > 0
  {
    var d := c.(claimers := c.claimers - 1);
    if c.completing then d else d.(completing := true, queuers := d.queuers + 1)
  }

  /** rc_amd_context_claim by rc_amd_mirror_abort. */
  function Abort(c: Ctx, st: Status): Ctx {
    if c.completing then c
    else c.(status := if st == Ok then c.status else Merge(c.status, st),
            completing := true, queuers := c.queuers + 1, aborted := true)
  }

  /** rc_amd_context_claim by rc_amd_drain_force. */
  function Force(c: Ctx): Ctx {
    if c.completing then c
    else c.(completing := true, queuers := c.queuers + 1, resource := true)
  }

  /** kthread_queue_work refuses a work that is already queued. */
  function Enqueue(c: Ctx): Ctx
    requires c.queuers > 0
  {
    c.(queuers := c.queuers - 1, work := if c.work.NoWork? then Queued else c.work)
  }

  /** The worker's critical section. */
  function Retire(c: Ctx): Ctx
    requires c.work.Queued?
  {
    c.(retired := true, work := Ending(if c.resource then Resource else c.status, c.remaining <= 0))
  }

  /** The endio, and the decision to reap. */
  function End(c: Ctx): Ctx
    requires c.work.Ending?
  {
    c.(ends := c.ends + [c.work.out], work := Ended,
       reapers := if c.work.free then c.reapers + 1 else c.reapers)
  }

  // ---------- what holds of every context ----------

  /** Observers that will reap, or have. */
  function Reaps(c: Ctx): nat {
    c.reapers + (if c.work.Ending? && c.work.free then 1 else 0) + (if c.home == Live then 0 else 1)
  }

  /** The countdown: every promised report is still to come, on the straggler path,
    * or counted. */
  predicate CountOk(c: Ctx) {
    && c.reports <= c.promised && c.promised > 0
    && c.remaining == c.promised - c.reports + c.stragglers
    && (!c.completing ==> c.stragglers == 0 && |c.merged| == c.reports)
    && c.claimers <= 1 && (c.claimers == 1 ==> c.remaining == 0)
    && (c.remaining == 0 && !c.completing ==> c.claimers == 1)
  }

  /** One endio owner, one endio, one reap. */
  predicate OwnerOk(c: Ctx) {
    && c.queuers + (if c.work.NoWork? then 0 else 1) == (if c.completing then 1 else 0)
    && (c.retired <==> c.work.Ending? || c.work.Ended?)
    && |c.ends| == (if c.work.Ended? then 1 else 0)
    && Reaps(c) == (if c.retired && c.remaining == 0 then 1 else 0)
  }

  /** What an OK aggregate stands for. */
  predicate OutcomeOk(c: Ctx) {
    && (c.status == Ok ==> c.clean && !c.aborted && AllOk(c.merged))
    && (c.completing && !c.aborted && !c.resource ==> |c.merged| == c.promised)
    && ((c.aborted || c.resource) ==> c.completing)
    && (c.work.Ending? ==> c.work.out == Outcome(c))
    && (c.work.Ended? ==> c.completing && c.ends == [Outcome(c)])
    && (c.ends != [] ==> c.work.Ended?)
  }

  /** What the dispatch starts the aggregate with. */
  function Initial(c: Ctx): Status {
    if c.clean then Ok else IoErr
  }

  /** The status is the aggregate of the dispatch and of the reports merged, and of the
    * status an abort brought along. */
  ghost predicate AggregateOk(c: Ctx) {
    && (!c.aborted ==> c.status == MergeAll(Initial(c), c.merged))
    && (c.aborted ==> exists st :: c.status == MergeAll(Initial(c), c.merged + [st]))
  }

  lemma ReportAggregates(c: Ctx, st: Status)
    requires AggregateOk(c) && (c.aborted ==> c.completing)
    ensures AggregateOk(Report(c, st))
  {
    assert (c.merged + [st])[..|c.merged|] == c.merged;
    if Report(c, st).aborted {
      var x :| c.status == MergeAll(Initial(c), c.merged + [x]);
      assert Report(c, st).status == MergeAll(Initial(c), Report(c, st).merged + [x]);
    }
  }

  lemma AbortAggregates(c: Ctx, st: Status)
    requires AggregateOk(c) && (c.aborted ==> c.completing)
    ensures AggregateOk(Abort(c, st))
  {
    var d := Abort(c, st);
    if c.completing {
    } else {
      assert (c.merged + [st])[..|c.merged|] == c.merged;
      assert d.status == MergeAll(Initial(d), d.merged + [st]);
    }
  }

  predicate AllOk(reports: seq<Status>) {
    forall i :: 0 <= i < |reports| ==> reports[i] == Ok
  }

  function Outcome(c: Ctx): Status {
    if c.resource then Resource else c.status
  }

  predicate CtxOk(c: Ctx) {
    CountOk(c) && OwnerOk(c) && OutcomeOk(c)
  }

  lemma NewCtxOk(parent: nat, total: nat, clean: bool)
    requires total > 0
    ensures CtxOk(NewCtx(parent, total, clean))
  {
  }

  lemma ReportKeeps(c: Ctx, st: Status)
    requires CtxOk(c) && (c.home == Live ==> c.reports < c.promised)
    ensures CtxOk(Report(c, st))
  {
  }

  lemma StraggleKeeps(c: Ctx)
    requires CtxOk(c) && c.stragglers > 0
    ensures CtxOk(Straggle(c))
  {
  }

  lemma ClaimLastKeeps(c: Ctx)
    requires CtxOk(c) && c.claimers > 0
    ensures CtxOk(ClaimLast(c))
  {
  }

  lemma AbortKeeps(c: Ctx, st: Status)
    requires CtxOk(c) && st != Ok
    ensures CtxOk(Abort(c, st))
  {
  }

  lemma ForceKeeps(c: Ctx)
    requires CtxOk(c)
    ensures CtxOk(Force(c))
  {
  }

  lemma EnqueueKeeps(c: Ctx)
    requires CtxOk(c) && c.queuers > 0
    ensures CtxOk(Enqueue(c)) && Enqueue(c).work == Queued
  {
  }

  lemma RetireKeeps(c: Ctx)
    requires CtxOk(c) && c.work.Queued?
    ensures CtxOk(Retire(c))
  {
  }

  lemma EndKeeps(c: Ctx)
    requires CtxOk(c) && c.work.Ending?
    ensures CtxOk(End(c))
  {
  }
}
