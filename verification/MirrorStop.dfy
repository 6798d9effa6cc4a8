/** rc_volume_resync_stop lets go of its thread before the thread has ended: the
  * machine of Mirror with one more thread, stopped but still running, which shares the
  * window and the generations with whatever rebuild is started meanwhile. */
module MirrorStop {
  import opened Common
  import opened Mirror
  import opened MirrorShape
  import opened MirrorExclusion
  import opened MirrorData
  import opened MirrorSafety

  /** The stopped thread and what it has on its stack. */
  datatype Leaver = Leaver(thread: Thread, target: nat, cursor: nat)

  /** v.thread: the one rc_volume_resync_thread names. */
  datatype Duo = Duo(v: Volume, left: Option<Leaver>)

  datatype DuoStep =
    | Main(l: Step)
    | StopCall
    | Leave(r: RebuildStep)

  /** The volume as the stopped thread sees it. */
  function View(p: Duo): Volume {
    if p.left.None? then p.v
    else p.v.(thread := p.left.value.thread, target := p.left.value.target, cursor := p.left.value.cursor)
  }

  /** After a step of the stopped thread that leaves its view at t. */
  function Back(p: Duo, t: Volume): Duo {
    Duo(if p.v.thread.Idle? then t.(thread := Idle)
        else t.(thread := p.v.thread, target := p.v.target, cursor := p.v.cursor),
        if t.thread.Idle? then None else Some(Leaver(t.thread, t.target, t.cursor)))
  }

  ghost predicate Sane(p: Duo) {
    Shape(p.v) && Shape(View(p))
  }

  ghost predicate DuoEnabled(p: Duo, d: DuoStep)
    requires Sane(p)
  {
    match d
    case Main(l) => Enabled(p.v, l)
    case StopCall => p.left.None? && !p.v.thread.Idle?
    case Leave(r) => p.left.Some? && !r.Start? && RebuildEnabled(View(p), r)
  }

  function DuoApply(p: Duo, d: DuoStep): Duo
    requires Sane(p) && DuoEnabled(p, d)
  {
    match d
    case Main(l) => Duo(Apply(p.v, l), p.left)
    case StopCall => Duo(p.v.(thread := Idle), Some(Leaver(p.v.thread, p.v.target, p.v.cursor)))
    case Leave(r) => Back(p, ApplyRebuild(View(p), r))
  }

  /** No rebuild is started, and no member detached, while a stopped thread still runs:
    * what waiting for the thread before letting go of it would see to. */
  predicate NoLeaver(p: Duo, d: DuoStep) {
    d.Main? && ((d.l.Rebuild? && d.l.r.Start?) || (d.l.Member? && d.l.e.Detach?)) ==> p.left.None?
  }

  type Schedule = (Volume, Step) -> bool

  /** The step is one that ok allows, seen from the thread that takes it. */
  predicate Allowed(ok: Schedule, p: Duo, d: DuoStep) {
    match d
    case Main(l) => ok(if p.v.thread.Idle? then View(p) else p.v, l)
    case StopCall => true
    case Leave(r) => ok(View(p), Rebuild(r))
  }

  /** Step d leads from p to q; ok allows it, and if waits so does NoLeaver. */
  ghost predicate Moves(p: Duo, d: DuoStep, q: Duo, ok: Schedule, waits: bool) {
    && Sane(p) && DuoEnabled(p, d) && Allowed(ok, p, d) && (waits ==> NoLeaver(p, d))
    && q == DuoApply(p, d) && Sane(q)
  }

  /** A run: the steps ds lead through the states ps. */
  ghost predicate Trace(ps: seq<Duo>, ds: seq<DuoStep>, ok: Schedule, waits: bool) {
    && |ps| == |ds| + 1 && Sane(ps[0])
    && forall i :: 0 <= i < |ds| ==> Moves(ps[i], ds[i], ps[i + 1], ok, waits)
  }

  // ---------- two threads keep the shape ----------

  /** The parts of Shape that no thread's own fields enter. */
  lemma SwapThread(s: Volume, t: Volume)
    requires Shape(s) && t == s.(thread := t.thread, target := t.target, cursor := t.cursor)
    requires ThreadOk(t)
    ensures Shape(t)
  {
    WritersStay(s, t);
  }

  /** One thread runs at a time. */
  predicate Alone(p: Duo) {
    p.left.Some? ==> p.v.thread.Idle?
  }

  // ---------- under NoLeaver the second record changes nothing ----------

  /** t is s with another thread in its place. */
  ghost predicate OtherThread(s: Volume, t: Volume) {
    Shape(s) && Shape(t) && t == s.(thread := t.thread, target := t.target, cursor := t.cursor)
  }

  lemma FailCommutes(s: Volume, t: Volume, ms: set<nat>)
    requires t == s.(thread := t.thread, target := t.target, cursor := t.cursor)
    ensures MarkFailed(t, ms) == MarkFailed(s, ms).(thread := t.thread, target := t.target, cursor := t.cursor)
  {
    assert MarkFailed(t, ms).st == MarkFailed(s, ms).st;
  }

  /** Writes and members do not look at the thread. */
  lemma WriteCommutes(s: Volume, t: Volume, id: nat, l: WriteStep)
    requires OtherThread(s, t) && WriteEnabled(s, id, l)
    ensures WriteEnabled(t, id, l)
    ensures ApplyWrite(t, id, l) == ApplyWrite(s, id, l).(thread := t.thread, target := t.target, cursor := t.cursor)
  {
    match l
    case Begin(pos, data) => BeginCommutes(s, t, id, pos, data);
    case Settle => SettleCommutes(s, t, id);
    case Land(m, x) => LandCommutes(s, t, id, m, x);
    case Finish => FailCommutes(s, t, s.writers[id].err);
    case _ => PhaseCommutes(s, t, id, l);
  }

  lemma PhaseCommutes(s: Volume, t: Volume, id: nat, l: WriteStep)
    requires OtherThread(s, t) && WriteEnabled(s, id, l) && !l.Begin? && !l.Settle? && !l.Land? && !l.Finish?
    ensures WriteEnabled(t, id, l)
    ensures ApplyWrite(t, id, l) == ApplyWrite(s, id, l).(thread := t.thread, target := t.target, cursor := t.cursor)
  {
  }

  lemma BeginCommutes(s: Volume, t: Volume, id: nat, pos: nat, data: seq<Value>)
    requires OtherThread(s, t) && WriteEnabled(s, id, WriteStep.Begin(pos, data))
    ensures WriteEnabled(t, id, WriteStep.Begin(pos, data))
    ensures ApplyWrite(t, id, WriteStep.Begin(pos, data))
         == ApplyWrite(s, id, WriteStep.Begin(pos, data)).(thread := t.thread, target := t.target, cursor := t.cursor)
  {
    assert t.writers == s.writers && t.wr == s.wr && t.geo == s.geo;
  }

  lemma SettleCommutes(s: Volume, t: Volume, id: nat)
    requires OtherThread(s, t) && WriteEnabled(s, id, Settle)
    ensures WriteEnabled(t, id, Settle)
    ensures ApplyWrite(t, id, Settle)
         == ApplyWrite(s, id, Settle).(thread := t.thread, target := t.target, cursor := t.cursor)
  {
  }

  lemma LandCommutes(s: Volume, t: Volume, id: nat, m: nat, x: nat)
    requires OtherThread(s, t) && WriteEnabled(s, id, Land(m, x))
    ensures WriteEnabled(t, id, Land(m, x))
    ensures ApplyWrite(t, id, Land(m, x))
         == ApplyWrite(s, id, Land(m, x)).(thread := t.thread, target := t.target, cursor := t.cursor)
  {
  }

  lemma MemberCommutes(s: Volume, t: Volume, m: nat, l: MemberStep)
    requires OtherThread(s, t) && MemberEnabled(s, m, l) && !l.Detach?
    ensures MemberEnabled(t, m, l)
    ensures ApplyMember(t, m, l) == ApplyMember(s, m, l).(thread := t.thread, target := t.target, cursor := t.cursor)
  {
    if l.Fail? { FailCommutes(s, t, {m}); }
  }

  lemma IdleIsSane(s: Volume)
    requires Shape(s)
    ensures Shape(s.(thread := Idle))
  {
    SwapThread(s, s.(thread := Idle));
  }

  /** The step of Mirror that a step of the pair stands for, if any. */
  function Shadow(d: DuoStep): seq<Step> {
    match d
    case Main(l) => [l]
    case StopCall => []
    case Leave(r) => [Rebuild(r)]
  }

  lemma MainCommutes(s: Volume, t: Volume, l: Step)
    requires OtherThread(s, t) && Enabled(s, l) && !l.Rebuild? && !(l.Member? && l.e.Detach?)
    ensures Enabled(t, l)
    ensures Apply(t, l) == Apply(s, l).(thread := t.thread, target := t.target, cursor := t.cursor)
  {
    match l
    case Write(id, w) => WriteCommutes(s, t, id, w);
    case Member(m, e) => MemberCommutes(s, t, m, e);
  }

  lemma IdleRebuilds(s: Volume, r: RebuildStep)
    requires Shape(s) && s.thread.Idle? && RebuildEnabled(s, r)
    ensures r.Start?
  {
  }

  lemma BesideLeaver(p: Duo, l: Step, q: Duo)
    requires Sane(p) && Alone(p) && p.left.Some? && DuoEnabled(p, Main(l)) && q == DuoApply(p, Main(l))
    requires !l.Rebuild? && !(l.Member? && l.e.Detach?)
    ensures Enabled(View(p), l) && Sane(q) && View(q) == Apply(View(p), l)
  {
    MainCommutes(p.v, View(p), l);
    StepKeepsShape(p.v, l);
    StepKeepsShape(View(p), l);
  }

  lemma MainKeepsIdle(s: Volume, l: Step)
    requires Shape(s) && s.thread.Idle? && Enabled(s, l) && !l.Rebuild?
    ensures Apply(s, l).thread.Idle?
  {
  }

  lemma MainShadowed(p: Duo, l: Step)
    requires Sane(p) && Alone(p) && DuoEnabled(p, Main(l)) && NoLeaver(p, Main(l))
    ensures Enabled(View(p), l)
    ensures var q := DuoApply(p, Main(l)); Sane(q) && Alone(q) && View(q) == Apply(View(p), l)
  {
    if p.left.None? {
      StepKeepsShape(p.v, l);
    } else {
      if l.Rebuild? { IdleRebuilds(p.v, l.r); }
      BesideLeaver(p, l, DuoApply(p, Main(l)));
      MainKeepsIdle(p.v, l);
    }
  }

  lemma LeaveShadowed(p: Duo, r: RebuildStep)
    requires Sane(p) && Alone(p) && DuoEnabled(p, Leave(r))
    ensures var q := DuoApply(p, Leave(r)); Sane(q) && Alone(q) && View(q) == Apply(View(p), Rebuild(r))
  {
    var t := ApplyRebuild(View(p), r);
    StepKeepsShape(View(p), Rebuild(r));
    IdleIsSane(t);
  }

  lemma StopShadowed(p: Duo)
    requires Sane(p) && Alone(p) && DuoEnabled(p, StopCall)
    ensures var q := DuoApply(p, StopCall); Sane(q) && Alone(q) && View(q) == View(p)
  {
    IdleIsSane(p.v);
  }

  /** Under NoLeaver a run of the pair is a run of Mirror: the same steps, the thread the
    * driver has let go of still being the one thread. */
  lemma {:induction false} Shadows(ps: seq<Duo>, ds: seq<DuoStep>, ok: Schedule) returns (ls: seq<Step>)
    requires Trace(ps, ds, ok, true) && Alone(ps[0])
    ensures Shape(View(ps[0])) && Run(View(ps[0]), ls, ok) && After(View(ps[0]), ls, ok) == View(ps[|ds|])
    ensures Alone(ps[|ds|])
    decreases |ds|
  {
    if ds == [] {
      ls := [];
    } else {
      var p, d, q := ps[0], ds[0], ps[1];
      assert Moves(p, d, q, ok, true);
      MoveShadowed(p, d, q, ok);
      TraceTail(ps, ds, ok);
      var more := Shadows(ps[1..], ds[1..], ok);
      ls := Shadow(d) + more;
      ShadowRun(p, d, q, more, ok);
    }
  }

  lemma TraceTail(ps: seq<Duo>, ds: seq<DuoStep>, ok: Schedule)
    requires Trace(ps, ds, ok, true) && ds != []
    ensures Trace(ps[1..], ds[1..], ok, true)
  {
    assert Moves(ps[0], ds[0], ps[1], ok, true);
    forall i | 0 <= i < |ds| - 1 ensures Moves(ps[1..][i], ds[1..][i], ps[1..][i + 1], ok, true) {
      assert Moves(ps[i + 1], ds[i + 1], ps[i + 2], ok, true);
    }
  }

  /** What a step of the pair is to the one thread. */
  ghost predicate Shadowed(p: Duo, d: DuoStep, q: Duo, ok: Schedule)
    requires Sane(p)
  {
    match d
    case StopCall => View(q) == View(p)
    case Main(l) => Enabled(View(p), l) && ok(View(p), l) && View(q) == Apply(View(p), l)
    case Leave(r) => Enabled(View(p), Rebuild(r)) && ok(View(p), Rebuild(r)) && View(q) == Apply(View(p), Rebuild(r))
  }

  lemma MoveShadowed(p: Duo, d: DuoStep, q: Duo, ok: Schedule)
    requires Alone(p) && Moves(p, d, q, ok, true)
    ensures Alone(q) && Shadowed(p, d, q, ok)
  {
    match d
    case Main(l) => MainShadowed(p, l);
    case StopCall => StopShadowed(p);
    case Leave(r) => LeaveShadowed(p, r);
  }

  lemma ShadowRun(p: Duo, d: DuoStep, q: Duo, more: seq<Step>, ok: Schedule)
    requires Sane(p) && Sane(q) && Shadowed(p, d, q, ok) && Run(View(q), more, ok)
    ensures Run(View(p), Shadow(d) + more, ok)
    ensures After(View(p), Shadow(d) + more, ok) == After(View(q), more, ok)
  {
    var ls := Shadow(d) + more;
    if d.StopCall? {
      assert ls == more;
    } else {
      assert ls[0] == Shadow(d)[0] && ls[1..] == more;
    }
  }

  /** Nothing is lost to Sane in such runs: every step leads from a sane state of one
    * thread to another. */
  lemma StaysSane(p: Duo, d: DuoStep)
    requires Sane(p) && Alone(p) && DuoEnabled(p, d) && NoLeaver(p, d)
    ensures Sane(DuoApply(p, d)) && Alone(DuoApply(p, d))
  {
    match d
    case Main(l) => MainShadowed(p, l);
    case StopCall => StopShadowed(p);
    case Leave(r) => LeaveShadowed(p, r);
  }

  // ---------- the guarantees, with threads that are stopped ----------

  /** A freshly assembled volume, no thread left over. */
  ghost predicate Begins(p: Duo) {
    p.left.None? && Init(p.v) && Shape(p.v)
  }

  /** As CopyExcludesWrites, for rebuilds that may be stopped at any moment: at most one
    * thread runs, and no admitted write that has not ended overlaps what it copies. */
  lemma StoppedCopyExcludesWrites(ps: seq<Duo>, ds: seq<DuoStep>)
    requires Trace(ps, ds, DrainedOnly, true) && Begins(ps[0])
    ensures Shape(View(ps[|ds|])) && Alone(ps[|ds|]) && ChunkIsQuiet(View(ps[|ds|]))
  {
    var ls := Shadows(ps, ds, DrainedOnly);
    CopyExcludesWrites(ps[0].v, ls);
  }

  /** A run under NoLeaver alone, of which nothing is presupposed but its steps. */
  ghost predicate FreeRun(ps: seq<Duo>, ds: seq<DuoStep>) {
    && |ps| == |ds| + 1 && Begins(ps[0])
    && forall i :: 0 <= i < |ds| ==> FreeMove(ps[i], ds[i], ps[i + 1])
  }

  ghost predicate FreeMove(p: Duo, d: DuoStep, q: Duo) {
    Sane(p) ==> DuoEnabled(p, d) && NoLeaver(p, d) && q == DuoApply(p, d)
  }

  /** Whatever the schedule of requests and failures: one thread runs at a time, and the
    * members it copies between are there as long as it does. */
  lemma {:induction false} EndpointsArePresent(ps: seq<Duo>, ds: seq<DuoStep>, n: nat)
    requires FreeRun(ps, ds) && n <= |ds|
    ensures Sane(ps[n]) && Alone(ps[n])
    ensures
      var s := View(ps[n]);
      && (!s.thread.Idle? ==> s.target < |s.present| && s.present[s.target])
      && (s.thread.HasSurvivor() ==> s.thread.srv < |s.present| && s.present[s.thread.srv])
  {
    if n > 0 {
      EndpointsArePresent(ps, ds, n - 1);
      assert FreeMove(ps[n - 1], ds[n - 1], ps[n]);
      StaysSane(ps[n - 1], ds[n - 1]);
    }
  }

  /** As LiveCopiesHoldLastWrite. */
  lemma StoppedCopiesHoldLastWrite(ps: seq<Duo>, ds: seq<DuoStep>, m: nat, x: nat)
    requires Trace(ps, ds, CarefulStep, true) && Begins(ps[0])
    ensures
      var t := ps[|ds|].v;
      m in t.live && x < t.geo.capacity && t.geo.col(x) == t.geo.colOf(m) && NoWriter(t, x) ==>
        m < |t.media| && t.geo.at(x) < |t.media[m]| && x < |t.want| && t.media[m][t.geo.at(x)] == t.want[x]
  {
    var ls := Shadows(ps, ds, CarefulStep);
    var t, u := ps[|ds|].v, View(ps[|ds|]);
    LiveCopiesHoldLastWrite(ps[0].v, ls, m, x);
    assert NoWriter(t, x) ==> NoWriter(u, x);
  }
}
