/** NoLeaver is needed: a run of a RAID10 volume of two columns in which a rebuild is
  * stopped, another is started on the other column while the stopped thread still runs,
  * and the stopped thread, its last chunk copied, opens the window of the other. */
module MirrorStopRace {
  import opened Common
  import opened Striping
  import opened Mirror
  import opened MirrorShape
  import opened MirrorExclusion
  import opened MirrorData
  import opened MirrorSafety
  import opened MirrorStop
  import R = MirrorRaces

  /** q can follow p through steps that meet every hypothesis of Careful. */
  ghost predicate DuoReaches(p: Duo, q: Duo) {
    exists ps, ds :: Follows(ps, ds, p, q)
  }

  ghost predicate Follows(ps: seq<Duo>, ds: seq<DuoStep>, p: Duo, q: Duo) {
    Trace(ps, ds, CarefulStep, false) && ps[0] == p && ps[|ds|] == q
  }

  lemma GoOn(p: Duo, q: Duo, d: DuoStep, q': Duo)
    requires DuoReaches(p, q) && Moves(q, d, q', CarefulStep, false)
    ensures DuoReaches(p, q')
  {
    var ps, ds :| Follows(ps, ds, p, q);
    Grown(ps, ds, q, d, q');
    assert (ps + [q'])[0] == p && (ps + [q'])[|ds| + 1] == q';
    assert Follows(ps + [q'], ds + [d], p, q');
  }

  lemma Grown(ps: seq<Duo>, ds: seq<DuoStep>, q: Duo, d: DuoStep, q': Duo)
    requires Trace(ps, ds, CarefulStep, false) && ps[|ds|] == q && Moves(q, d, q', CarefulStep, false)
    ensures Trace(ps + [q'], ds + [d], CarefulStep, false)
  {
    var ps', ds' := ps + [q'], ds + [d];
    forall i | 0 <= i < |ds'| ensures Moves(ps'[i], ds'[i], ps'[i + 1], CarefulStep, false) {
      if i < |ds| {
        assert ps'[i] == ps[i] && ps'[i + 1] == ps[i + 1] && ds'[i] == ds[i];
      }
    }
  }

  /** A member step or a write of a pair keeps it sane, unless it makes the stopped
    * thread's target live or takes a member away. */
  lemma MainSane(p: Duo, l: Step)
    requires Sane(p) && Enabled(p.v, l) && !(l.Member? && l.e.Detach?)
    requires p.left.Some? ==> Apply(p.v, l).st[p.left.value.target] != Live
    ensures Sane(DuoApply(p, Main(l)))
  {
    StepKeepsShape(p.v, l);
    if p.left.Some? {
      StaysPresent(p.v, l);
      SwapThread(Apply(p.v, l), View(DuoApply(p, Main(l))));
    }
  }

  lemma StaysPresent(s: Volume, l: Step)
    requires Shape(s) && Enabled(s, l) && !(l.Member? && l.e.Detach?)
    ensures Apply(s, l).geo == s.geo && |Apply(s, l).present| == |s.present|
    ensures forall m :: 0 <= m < |s.present| && s.present[m] ==> Apply(s, l).present[m]
  {
    match l
    case Write(id, w) => WriteKeepsRest(s, id, w);
    case Member(m, e) =>
    case Rebuild(r) => RebuildLeavesWriters(s, r);
  }

  lemma LeaveSane(p: Duo, r: RebuildStep)
    requires Sane(p) && p.left.Some? && !r.Start? && RebuildEnabled(View(p), r)
    requires p.v.thread.Idle? || ApplyRebuild(View(p), r).st[p.v.target] != Live
    ensures Sane(DuoApply(p, Leave(r)))
  {
    var t := ApplyRebuild(View(p), r);
    StepKeepsShape(View(p), Rebuild(r));
    StaysPresent(View(p), Rebuild(r));
    var q := DuoApply(p, Leave(r));
    if p.v.thread.Idle? { IdleIsSane(t); } else { SwapThread(t, q.v); }
    assert Shape(q.v);
    if q.left.None? { assert View(q) == q.v; } else { assert View(q) == t; }
  }

  /** The pair has come to q. */
  ghost predicate Stands(p: Duo, q: Duo) {
    Sane(q) && DuoReaches(p, q)
  }

  /** The running machine may take step l, to t. */
  ghost predicate Leads(s: Volume, l: Step, t: Volume)
    requires Shape(s)
  {
    Enabled(s, l) && !(l.Member? && l.e.Detach?) && t == Apply(s, l)
  }

  /** One step of the running machine, to a state written out. */
  lemma GoMain(p: Duo, q: Duo, l: Step, t: Volume)
    requires Stands(p, q) && Leads(q.v, l, t)
    requires l.Rebuild? && (l.r.Start? || l.r.Drained?) ==> CarefulStep(if q.v.thread.Idle? then View(q) else q.v, l)
    requires q.left.Some? ==> q.left.value.target < |t.st| && t.st[q.left.value.target] != Live
    ensures Stands(p, Duo(t, q.left))
  {
    MainSane(q, l);
    GoOn(p, q, Main(l), Duo(t, q.left));
  }

  // ---------- the volume of the run ----------

  /** Columns {0, 1} and {2, 3}, one sector each. */
  predicate TwoColumns(geo: Layout) {
    && geo.members == 4 && geo.total == 1 && geo.capacity == 2
    && geo.col(0) == 0 && geo.col(1) == 1 && geo.at(0) == 0 && geo.at(1) == 0
    && geo.logical(0, 0) == 0 && geo.logical(1, 0) == 1 && geo.room(0) == 1
    && geo.colOf(0) == 0 && geo.colOf(1) == 0 && geo.colOf(2) == 1 && geo.colOf(3) == 1
  }

  lemma OneSectorStripes(x: nat)
    requires x < 2
    ensures Column(x, 1, 2) == x && Phys(x, 1, 2) == 0 && Logical(x, 0, 1, 2) == x
  {
    assert x / 1 == x && x % 1 == 0 && x / 2 == 0 && x % 2 == x;
    assert 0 / 1 == 0 && 0 % 1 == 0;
  }

  lemma SectorOfRaid10(geo: Layout, stripe: nat, cols: nat, total: nat, x: nat)
    requires stripe == 1 && cols == 2 && geo == Raid10(stripe, cols, total) && x < 2
    ensures geo.col(x) == x && geo.at(x) == 0 && geo.logical(x, 0) == x
  {
    OneSectorStripes(x);
    assert geo.col(x) == Column(x, stripe, cols);
    assert geo.at(x) == Phys(x, stripe, cols);
    assert geo.logical(x, 0) == Logical(x, 0, stripe, cols);
  }

  lemma MembersOfRaid10(geo: Layout, stripe: nat, cols: nat, total: nat)
    requires stripe == 1 && cols == 2 && total == 1 && geo == Raid10(stripe, cols, total)
    ensures geo.members == 4 && geo.total == 1 && geo.capacity == 2 && geo.room(0) == 1
    ensures geo.colOf(0) == 0 && geo.colOf(1) == 0 && geo.colOf(2) == 1 && geo.colOf(3) == 1
  {
    assert 0 / 2 == 0 && 1 / 2 == 0 && 2 / 2 == 1 && 3 / 2 == 1 && 0 % 1 == 0;
  }

  lemma Raid10IsTwoColumns(geo: Layout, stripe: nat, cols: nat, total: nat)
    requires stripe == 1 && cols == 2 && total == 1 && geo == Raid10(stripe, cols, total)
    ensures geo.Sound() && TwoColumns(geo)
  {
    Raid10Sound(stripe, cols, total);
    MembersOfRaid10(geo, stripe, cols, total);
    SectorOfRaid10(geo, stripe, cols, total, 0);
    SectorOfRaid10(geo, stripe, cols, total, 1);
  }

  /** Members 0 and 2 live, 1 and 3 as told; nothing counted, nothing written. */
  function Vol(geo: Layout, one: MemberState, three: MemberState, wr: set<nat>, wgen: nat,
               window: Option<nat>, thread: Thread, target: nat): Volume {
    Volume(geo, [[0], [0], [0], [0]], [true, true, true, true], [Live, one, Live, three],
           {0, 2}, wr, map[], wgen, [0, 0], window, thread, target, 0, [0, 0])
  }

  function Assembled(geo: Layout): Volume {
    Vol(geo, Live, Live, {0, 1, 2, 3}, 0, None, Idle, 0).(live := {0, 1, 2, 3})
  }

  lemma FreshPair(geo: Layout)
    requires geo.Sound() && TwoColumns(geo)
    ensures Begins(Duo(Assembled(geo), None)) && Sane(Duo(Assembled(geo), None))
    ensures DuoReaches(Duo(Assembled(geo), None), Duo(Assembled(geo), None))
  {
    var s := Assembled(geo);
    assert Init(s);
    InitShape(s);
    assert Follows([Duo(s, None)], [], Duo(s, None), Duo(s, None));
  }

  // ---------- the run ----------

  /** Members 1 and 3 fail and come back stale. */
  lemma ParkBoth(geo: Layout)
    requires geo.Sound() && TwoColumns(geo)
    ensures
      var q := Duo(Vol(geo, NeedsResync, NeedsResync, {0, 2}, 0, None, Idle, 0), None);
      Stands(Duo(Assembled(geo), None), q)
  {
    FreshPair(geo);
    var p, s := Duo(Assembled(geo), None), Assembled(geo);
    var t := s.(st := [Live, Failed, Live, Live], live := {0, 2, 3}, wr := {0, 2, 3});
    GoMain(p, p, Member(1, Fail), t);
    var u := s.(st := [Live, NeedsResync, Live, Live], live := {0, 2, 3}, wr := {0, 2, 3});
    GoMain(p, Duo(t, None), Member(1, Reset), u);
    ParkThree(geo, p, u);
  }

  lemma ParkThree(geo: Layout, p: Duo, s: Volume)
    requires geo.Sound() && TwoColumns(geo) && DuoReaches(p, Duo(s, None)) && Shape(s)
    requires s == Vol(geo, NeedsResync, Live, {0, 2, 3}, 0, None, Idle, 0).(live := {0, 2, 3})
    ensures
      var q := Duo(Vol(geo, NeedsResync, NeedsResync, {0, 2}, 0, None, Idle, 0), None);
      Stands(p, q)
  {
    var t := Vol(geo, NeedsResync, Failed, {0, 2}, 0, None, Idle, 0);
    GoMain(p, Duo(s, None), Member(3, Fail), t);
    GoMain(p, Duo(t, None), Member(3, Reset), Vol(geo, NeedsResync, NeedsResync, {0, 2}, 0, None, Idle, 0));
  }

  /** The rebuild of member 1 begins and is drained when it is stopped. */
  lemma FirstRebuild(geo: Layout, p: Duo)
    requires geo.Sound() && TwoColumns(geo)
    requires var q := Duo(Vol(geo, NeedsResync, NeedsResync, {0, 2}, 0, None, Idle, 0), None); Stands(p, q)
    ensures
      var q := Duo(Vol(geo, Resyncing, NeedsResync, {0, 1, 2}, 1, Some(0), Draining(0, 0), 1), None);
      Stands(p, q)
  {
    var s := Vol(geo, NeedsResync, NeedsResync, {0, 2}, 0, None, Idle, 0);
    var t := Vol(geo, Resyncing, NeedsResync, {0, 1, 2}, 0, None, Top, 1);
    GoMain(p, Duo(s, None), Rebuild(Start(1)), t);
    var u := Vol(geo, Resyncing, NeedsResync, {0, 1, 2}, 0, Some(0), Published(0), 1);
    GoMain(p, Duo(t, None), Rebuild(Pick), u);
    GoMain(p, Duo(u, None), Rebuild(Flip), Vol(geo, Resyncing, NeedsResync, {0, 1, 2}, 1, Some(0), Draining(0, 0), 1));
  }

  /** The thread is let go of while it drains. */
  lemma PointerGone(geo: Layout, p: Duo)
    requires geo.Sound() && TwoColumns(geo)
    requires var q := Duo(Vol(geo, Resyncing, NeedsResync, {0, 1, 2}, 1, Some(0), Draining(0, 0), 1),
        None); Stands(p, q)
    ensures
      var q := Duo(Vol(geo, Resyncing, NeedsResync, {0, 1, 2}, 1, Some(0), Idle, 1),
          Some(Leaver(Draining(0, 0), 1, 0)));
      Stands(p, q)
  {
    var s := Vol(geo, Resyncing, NeedsResync, {0, 1, 2}, 1, Some(0), Draining(0, 0), 1);
    IdleIsSane(s);
    var t := Duo(s.(thread := Idle), Some(Leaver(Draining(0, 0), 1, 0)));
    assert View(t) == s;
    GoOn(p, Duo(s, None), StopCall, t);
  }

  /** The rebuild of member 3 begins on the other column. */
  lemma SecondRebuild(geo: Layout, p: Duo, gone: Leaver)
    requires geo.Sound() && TwoColumns(geo) && gone == Leaver(Draining(0, 0), 1, 0)
    requires var q := Duo(Vol(geo, Resyncing, NeedsResync, {0, 1, 2}, 1, Some(0), Idle, 1), Some(gone)); Stands(p, q)
    ensures
      var q := Duo(Vol(geo, Resyncing, Resyncing, {0, 1, 2, 3}, 1, Some(1), Published(2), 3), Some(gone));
      Stands(p, q)
  {
    var s := Vol(geo, Resyncing, NeedsResync, {0, 1, 2}, 1, Some(0), Idle, 1);
    SurvivorIsTwo(s);
    var t := Vol(geo, Resyncing, Resyncing, {0, 1, 2, 3}, 1, Some(0), Top, 3);
    NothingStale(s, gone);
    GoMain(p, Duo(s, Some(gone)), Rebuild(Start(3)), t);
    SecondPicks(geo, p, gone);
  }

  lemma NothingStale(s: Volume, gone: Leaver)
    requires Shape(s) && s.thread.Idle? && s.count == [0, 0] && s.writers == map[] && Shape(View(Duo(s, Some(gone))))
    ensures CarefulStep(View(Duo(s, Some(gone))), Rebuild(Start(3)))
  {
  }

  lemma SecondPicks(geo: Layout, p: Duo, gone: Leaver)
    requires geo.Sound() && TwoColumns(geo) && gone == Leaver(Draining(0, 0), 1, 0)
    requires var q := Duo(Vol(geo, Resyncing, Resyncing, {0, 1, 2, 3}, 1, Some(0), Top, 3), Some(gone)); Stands(p, q)
    ensures
      var q := Duo(Vol(geo, Resyncing, Resyncing, {0, 1, 2, 3}, 1, Some(1), Published(2), 3), Some(gone));
      Stands(p, q)
  {
    var s := Vol(geo, Resyncing, Resyncing, {0, 1, 2, 3}, 1, Some(0), Top, 3);
    SurvivorIsTwo(s);
    GoMain(p, Duo(s, Some(gone)), Rebuild(Pick), Vol(geo, Resyncing, Resyncing, {0, 1, 2, 3}, 1, Some(1),
        Published(2), 3));
  }

  /** It drains and reads its sector. */
  lemma SecondReads(geo: Layout, p: Duo, gone: Leaver)
    requires geo.Sound() && TwoColumns(geo) && gone == Leaver(Draining(0, 0), 1, 0)
    requires var q := Duo(Vol(geo, Resyncing, Resyncing, {0, 1, 2, 3}, 1, Some(1), Published(2), 3),
        Some(gone)); Stands(p, q)
    ensures
      var q := Duo(Vol(geo, Resyncing, Resyncing, {0, 1, 2, 3}, 2, Some(1), Copying(2, [0], 0), 3), Some(gone));
      Stands(p, q)
  {
    var w := {0, 1, 2, 3};
    var t := Vol(geo, Resyncing, Resyncing, w, 1, Some(1), Published(2), 3);
    var u := Vol(geo, Resyncing, Resyncing, w, 2, Some(1), Draining(2, 1), 3);
    GoMain(p, Duo(t, Some(gone)), Rebuild(Flip), u);
    var v := Vol(geo, Resyncing, Resyncing, w, 2, Some(1), Copying(2, [], 0), 3);
    GoMain(p, Duo(u, Some(gone)), Rebuild(Drained), v);
    assert [] + [0] == [0];
    GoMain(p, Duo(v, Some(gone)), Rebuild(CopyRead), Vol(geo, Resyncing, Resyncing, w, 2, Some(1),
        Copying(2, [0], 0), 3));
  }

  lemma SurvivorIsTwo(s: Volume)
    requires TwoColumns(s.geo) && s.present == [true, true, true, true] && s.live == {0, 2}
    ensures PickSurvivor(s, 3, 0) == Some(2)
  {
    assert PickSurvivor(s, 3, 1) == PickSurvivor(s, 3, 2);
  }

  // ---------- the stopped thread runs on ----------

  /** A step of the stopped thread that leaves the volume at t and itself at after. */
  ghost predicate LeaveLeads(q: Duo, r: RebuildStep, t: Volume, after: Leaver)
    requires Sane(q)
  {
    && DuoEnabled(q, Leave(r)) && DuoApply(q, Leave(r)) == Duo(t, Some(after))
    && ApplyRebuild(View(q), r).st == q.v.st
  }

  lemma GoLeave(p: Duo, q: Duo, r: RebuildStep, t: Volume, after: Leaver)
    requires Stands(p, q) && LeaveLeads(q, r, t, after) && (r.Drained? ==> SurvivorTrusted(View(q)))
    requires q.v.thread.Idle? || (q.v.target < |q.v.st| && q.v.st[q.v.target] != Live)
    ensures Stands(p, Duo(t, Some(after)))
  {
    LeaveSane(q, r);
    GoOn(p, q, Leave(r), Duo(t, Some(after)));
  }

  /** The volume the stopped thread copies in: member 1 from member 0, sector 0. */
  ghost predicate Quieted(v: Volume) {
    && v.geo.Sound() && TwoColumns(v.geo) && v.media == ZEROS && v.count == [0, 0] && v.writers == map[]
    && |v.st| == 4 && 0 in v.live
    && (if v.thread.Idle? then v.target == 1 && v.cursor == 0 else v.target == 3 && v.st[3] != Live)
  }

  /** Its bucket is empty: it reads its sector. */
  lemma LeaverReads(p: Duo, v: Volume)
    requires Quieted(v) && Stands(p, Duo(v, Some(Leaver(Draining(0, 0), 1, 0))))
    ensures Stands(p, Duo(v, Some(Leaver(Copying(0, [0], 0), 1, 0))))
  {
    var q := Duo(v, Some(Leaver(Draining(0, 0), 1, 0)));
    GoLeave(p, q, Drained, v, Leaver(Copying(0, [], 0), 1, 0));
    assert [] + [0] == [0];
    GoLeave(p, Duo(v, Some(Leaver(Copying(0, [], 0), 1, 0))), CopyRead, v, Leaver(Copying(0, [0], 0), 1, 0));
  }

  lemma LeaverWrites(p: Duo, v: Volume)
    requires Quieted(v) && !v.thread.Idle? && Stands(p, Duo(v, Some(Leaver(Copying(0, [0], 0), 1, 0))))
    ensures Stands(p, Duo(v, Some(Leaver(Top, 1, 1))))
  {
    assert [0][0 := 0] == [0] && ZEROS[1 := [0]] == ZEROS;
    GoLeave(p, Duo(v, Some(Leaver(Copying(0, [0], 0), 1, 0))), CopyWrite, v, Leaver(Copying(0, [0], 1), 1, 0));
    GoLeave(p, Duo(v, Some(Leaver(Copying(0, [0], 1), 1, 0))), Advance, v, Leaver(Top, 1, 1));
  }

  /** It was its last chunk, and on its way out it opens the window, although the other
    * thread still copies. */
  lemma WindowOpens(geo: Layout, p: Duo, gone: Leaver)
    requires geo.Sound() && TwoColumns(geo) && gone == Leaver(Draining(0, 0), 1, 0)
    requires
      var q := Duo(Vol(geo, Resyncing, Resyncing, {0, 1, 2, 3}, 2, Some(1), Copying(2, [0], 0), 3), Some(gone));
      Stands(p, q)
    ensures
      var q := Duo(Vol(geo, Resyncing, Resyncing, {0, 1, 2, 3}, 2, None, Copying(2, [0], 0), 3),
          Some(Leaver(Ending(true), 1, 1)));
      Stands(p, q)
  {
    var v := Vol(geo, Resyncing, Resyncing, {0, 1, 2, 3}, 2, Some(1), Copying(2, [0], 0), 3);
    LeaverReads(p, v);
    LeaverWrites(p, v);
    GoLeave(p, Duo(v, Some(Leaver(Top, 1, 1))), Pick, v.(window := None), Leaver(Ending(true), 1, 1));
  }

  // ---------- the write that gets in ----------

  /** Member 3 is copied from member 2 with the window open, and the write w is at hand. */
  function Open(geo: Layout, w: Writer, count: seq<int>, media: seq<seq<Value>>): Volume {
    Vol(geo, Resyncing, Resyncing, {0, 1, 2, 3}, 2, None, Copying(2, [0], 0), 3)
      .(writers := map[7 := w], count := count, media := media)
  }

  /** 5 to logical sector 1, which members 2 and 3 store. */
  function Five(phase: Phase, landed: set<(nat, nat)>, acked: set<nat>): Writer {
    Writer(1, [5], {2, 3}, phase, landed, acked, {})
  }

  const ZEROS: seq<seq<Value>> := [[0], [0], [0], [0]]

  lemma WriteBegins(geo: Layout, p: Duo, gone: Leaver)
    requires geo.Sound() && TwoColumns(geo) && gone.target == 1
    requires var q := Duo(Vol(geo, Resyncing, Resyncing, {0, 1, 2, 3}, 2, None, Copying(2, [0], 0), 3),
        Some(gone)); Stands(p, q)
    ensures
      var q := Duo(Open(geo, Five(Snapped, {}, {}), [0, 0], ZEROS), Some(gone)); Stands(p, q)
  {
    var s := Vol(geo, Resyncing, Resyncing, {0, 1, 2, 3}, 2, None, Copying(2, [0], 0), 3);
    assert Touches(geo, 1, 1, 1) && !Touches(geo, 1, 1, 0);
    assert MaskFor(geo, {0, 1, 2, 3}, 1, 1) == {2, 3};
    assert 2 in s.wr;
    GoMain(p, Duo(s, Some(gone)), Write(7, Begin(1, [5])), Open(geo, Five(Snapped, {}, {}), [0, 0], ZEROS));
  }

  /** Reading the generation, the re-check and the window only move the record on. */
  lemma GateMoves(geo: Layout, p: Duo, gone: Leaver, l: WriteStep, w: Writer, w': Writer, count: seq<int>)
    requires geo.Sound() && TwoColumns(geo) && gone.target == 1
    requires
      || (l == ReadGen && w == Five(Snapped, {}, {}) && w' == Five(GenRead(0), {}, {}))
      || (l == Recheck && w == Five(Counted(0), {}, {}) && w' == Five(Rechecked(0), {}, {}))
      || (l == CheckWindow && w == Five(Rechecked(0), {}, {}) && w' == Five(Admitted(0), {}, {}))
    requires var q := Duo(Open(geo, w, count, ZEROS), Some(gone)); Stands(p, q)
    ensures
      var q := Duo(Open(geo, w', count, ZEROS), Some(gone)); Stands(p, q)
  {
    var s := Open(geo, w, count, ZEROS);
    GateStep(s, l, w, w');
    GoMain(p, Duo(s, Some(gone)), Write(7, l), Open(geo, w', count, ZEROS));
  }

  lemma GateStep(s: Volume, l: WriteStep, w: Writer, w': Writer)
    requires Shape(s) && s.writers == map[7 := w] && s.wgen == 2 && s.window == None
    requires
      || (l == ReadGen && w == Five(Snapped, {}, {}) && w' == Five(GenRead(0), {}, {}))
      || (l == Recheck && w == Five(Counted(0), {}, {}) && w' == Five(Rechecked(0), {}, {}))
      || (l == CheckWindow && w == Five(Rechecked(0), {}, {}) && w' == Five(Admitted(0), {}, {}))
    ensures Leads(s, Write(7, l), s.(writers := map[7 := w']))
  {
    R.MovedOn(s, l, w', Apply(s, Write(7, l)));
  }

  lemma CountLeads(s: Volume, w: Writer, w': Writer)
    requires Shape(s) && s.writers == map[7 := w] && s.count == [0, 0]
    requires w == Five(GenRead(0), {}, {}) && w' == Five(Counted(0), {}, {})
    ensures Leads(s, Write(7, Count), s.(writers := map[7 := w'], count := [1, 0]))
  {
    assert s.writers[7] == w && s.writers[7 := w'] == map[7 := w'];
    assert [0, 0][0 := 0 + 1] == [1, 0];
  }

  lemma WriteCounted(geo: Layout, p: Duo, gone: Leaver)
    requires geo.Sound() && TwoColumns(geo) && gone.target == 1
    requires var q := Duo(Open(geo, Five(GenRead(0), {}, {}), [0, 0], ZEROS), Some(gone)); Stands(p, q)
    ensures
      var q := Duo(Open(geo, Five(Counted(0), {}, {}), [1, 0], ZEROS), Some(gone)); Stands(p, q)
  {
    var s := Open(geo, Five(GenRead(0), {}, {}), [0, 0], ZEROS);
    CountLeads(s, Five(GenRead(0), {}, {}), Five(Counted(0), {}, {}));
    GoMain(p, Duo(s, Some(gone)), Write(7, Count), Open(geo, Five(Counted(0), {}, {}), [1, 0], ZEROS));
  }

  lemma WriteAdmitted(geo: Layout, p: Duo, gone: Leaver)
    requires geo.Sound() && TwoColumns(geo) && gone.target == 1
    requires var q := Duo(Open(geo, Five(Snapped, {}, {}), [0, 0], ZEROS), Some(gone)); Stands(p, q)
    ensures
      var q := Duo(Open(geo, Five(Admitted(0), {}, {}), [1, 0], ZEROS), Some(gone)); Stands(p, q)
  {
    GateMoves(geo, p, gone, ReadGen, Five(Snapped, {}, {}), Five(GenRead(0), {}, {}), [0, 0]);
    WriteCounted(geo, p, gone);
    GateMoves(geo, p, gone, Recheck, Five(Counted(0), {}, {}), Five(Rechecked(0), {}, {}), [1, 0]);
    GateMoves(geo, p, gone, CheckWindow, Five(Rechecked(0), {}, {}), Five(Admitted(0), {}, {}), [1, 0]);
  }

  lemma LandLeads(s: Volume, m: nat, w: Writer)
    requires Shape(s) && TwoColumns(s.geo) && s.writers == map[7 := w] && (m == 2 || m == 3) && |s.media| == 4
    requires w.pos == 1 && w.data == [5] && w.mask == {2, 3} && w.phase == Admitted(0) && m !in w.acked
    ensures
      Leads(s, Write(7, Land(m, 1)),
            s.(writers := map[7 := w.(landed := w.landed + {(m, 1)})], media := s.media[m := [5]]))
  {
    assert |s.media[m]| == 1;
    assert s.media[m][0 := 5] == [5];
    var w' := w.(landed := w.landed + {(m, 1)});
    assert s.writers[7] == w && s.writers[7 := w'] == map[7 := w'];
  }

  /** Member m stores the sector and answers. */
  lemma WriteLands(geo: Layout, p: Duo, gone: Leaver, m: nat, w: Writer, media: seq<seq<Value>>)
    requires geo.Sound() && TwoColumns(geo) && gone.target == 1 && (m == 2 || m == 3) && |media| == 4
    requires w.pos == 1 && w.data == [5] && w.mask == {2, 3} && w.phase == Admitted(0) && m !in w.acked
        && |media[m]| == 1
    requires var q := Duo(Open(geo, w, [1, 0], media), Some(gone)); Stands(p, q)
    ensures
      var q := Duo(Open(geo, w.(landed := w.landed + {(m, 1)}), [1, 0], media[m := [5]]), Some(gone));
      Stands(p, q)
  {
    var s := Open(geo, w, [1, 0], media);
    LandLeads(s, m, w);
    GoMain(p, Duo(s, Some(gone)), Write(7, Land(m, 1)), Open(geo, w.(landed := w.landed + {(m, 1)}), [1, 0],
        media[m := [5]]));
  }

  lemma LandedAll(geo: Layout, w: Writer, m: nat)
    requires TwoColumns(geo) && w.pos == 1 && w.data == [5] && (m, 1) in w.landed
    ensures AllLanded(geo, w, m)
  {
    forall x | w.pos <= x < w.End() && geo.col(x) == geo.colOf(m) ensures (m, x) in w.landed { assert x == 1; }
  }

  lemma AckLeads(s: Volume, m: nat, w: Writer, w': Writer)
    requires Shape(s) && TwoColumns(s.geo) && s.writers == map[7 := w] && (m == 2 || m == 3)
    requires w.pos == 1 && w.data == [5] && w.mask == {2, 3} && w.phase == Admitted(0) && m !in w.acked
        && (m, 1) in w.landed
    requires w' == w.(acked := w.acked + {m})
    ensures Leads(s, Write(7, Ack(m, true)), s.(writers := map[7 := w']))
  {
    assert s.writers[7] == w && s.writers[7 := w'] == map[7 := w'];
    LandedAll(s.geo, w, m);
  }

  lemma WriteAnswered(geo: Layout, p: Duo, gone: Leaver, m: nat, w: Writer, w': Writer, media: seq<seq<Value>>)
    requires geo.Sound() && TwoColumns(geo) && gone.target == 1 && (m == 2 || m == 3)
    requires w.pos == 1 && w.data == [5] && w.mask == {2, 3} && w.phase == Admitted(0) && m !in w.acked
        && (m, 1) in w.landed
    requires w' == w.(acked := w.acked + {m})
    requires var q := Duo(Open(geo, w, [1, 0], media), Some(gone)); Stands(p, q)
    ensures
      var q := Duo(Open(geo, w', [1, 0], media), Some(gone)); Stands(p, q)
  {
    var s := Open(geo, w, [1, 0], media);
    AckLeads(s, m, w, w');
    GoMain(p, Duo(s, Some(gone)), Write(7, Ack(m, true)), Open(geo, w', [1, 0], media));
  }

  /** The write is over: its data is on both members of the pair. */
  function Over(geo: Layout, thread: Thread, three: seq<Value>): Volume {
    Vol(geo, Resyncing, Resyncing, {0, 1, 2, 3}, 2, None, thread, 3)
      .(media := [[0], [0], [5], three], want := [0, 5])
  }

  lemma SettleLeads(s: Volume, w: Writer, w': Writer)
    requires Shape(s) && s.writers == map[7 := w] && s.count == [1, 0] && s.want == [0, 0]
    requires w == Five(Admitted(0), {(2, 1), (3, 1)}, {2, 3}) && w' == w.(phase := Settled)
    ensures Leads(s, Write(7, Settle), s.(writers := map[7 := w'], count := [0, 0], want := [0, 5]))
  {
    assert s.writers[7] == w && s.writers[7 := w'] == map[7 := w'] && Overwrite([0, 0], w) == [0, 5];
    assert [1, 0][0 := 1 + -1] == [0, 0];
  }

  lemma WriteSettles(geo: Layout, p: Duo, gone: Leaver, w: Writer, w': Writer)
    requires geo.Sound() && TwoColumns(geo) && gone.target == 1
    requires w == Five(Admitted(0), {(2, 1), (3, 1)}, {2, 3}) && w' == w.(phase := Settled)
    requires var q := Duo(Open(geo, w, [1, 0], [[0], [0], [5], [5]]), Some(gone)); Stands(p, q)
    ensures
      var q := Duo(Open(geo, w', [0, 0], [[0], [0], [5], [5]]).(want := [0, 5]), Some(gone)); Stands(p, q)
  {
    var s := Open(geo, w, [1, 0], [[0], [0], [5], [5]]);
    SettleLeads(s, w, w');
    GoMain(p, Duo(s, Some(gone)), Write(7, Settle), Open(geo, w', [0, 0], [[0], [0], [5], [5]]).(want := [0, 5]));
  }

  lemma FinishLeads(t: Volume, w: Writer)
    requires Shape(t) && t.writers == map[7 := w] && w == Five(Settled, {(2, 1), (3, 1)}, {2, 3})
    ensures Leads(t, Write(7, Finish), t.(writers := map[]))
  {
    assert t.writers[7] == w && t.writers - {7} == map[];
    assert MarkFailed(t, {}).st == t.st && t.live - {} == t.live && t.wr - {} == t.wr;
  }

  lemma WriteFinishes(geo: Layout, p: Duo, gone: Leaver, w: Writer)
    requires geo.Sound() && TwoColumns(geo) && gone.target == 1 && w == Five(Settled, {(2, 1), (3, 1)}, {2, 3})
    requires
      var q := Duo(Open(geo, w, [0, 0], [[0], [0], [5], [5]]).(want := [0, 5]), Some(gone)); Stands(p, q)
    ensures
      var q := Duo(Over(geo, Copying(2, [0], 0), [5]), Some(gone)); Stands(p, q)
  {
    var t := Open(geo, w, [0, 0], [[0], [0], [5], [5]]).(want := [0, 5]);
    FinishLeads(t, w);
    GoMain(p, Duo(t, Some(gone)), Write(7, Finish), Over(geo, Copying(2, [0], 0), [5]));
  }

  /** The copy overwrites it, and member 3 is promoted. */
  lemma CopyOverwrites(geo: Layout, p: Duo, gone: Leaver)
    requires geo.Sound() && TwoColumns(geo) && gone.target == 1
    requires var q := Duo(Over(geo, Copying(2, [0], 0), [5]), Some(gone)); Stands(p, q)
    ensures
      var q := Duo(Over(geo, Top, [0]).(cursor := 1), Some(gone)); Stands(p, q)
  {
    var s := Over(geo, Copying(2, [0], 0), [5]);
    var t := Over(geo, Copying(2, [0], 1), [0]);
    assert [5][0 := 0] == [0];
    assert s.media[3 := [0]] == t.media;
    GoMain(p, Duo(s, Some(gone)), Rebuild(CopyWrite), t);
    GoMain(p, Duo(t, Some(gone)), Rebuild(Advance), Over(geo, Top, [0]).(cursor := 1));
  }

  lemma PromoteLeads(t: Volume)
    requires Shape(t) && t.thread == Ending(true) && t.target == 3 && t.st == [Live, Resyncing, Live, Resyncing]
    requires t.live == {0, 2} && t.wr == {0, 1, 2, 3}
    ensures Leads(t, Rebuild(Conclude), t.(st := [Live, Resyncing, Live, Live], live := {0, 2, 3}, thread := Idle))
  {
    assert t.live + {3} == {0, 2, 3} && t.wr + {3} == t.wr;
  }

  lemma PromotedStale(geo: Layout, p: Duo, gone: Leaver)
    requires geo.Sound() && TwoColumns(geo) && gone.target == 1
    requires var q := Duo(Over(geo, Top, [0]).(cursor := 1), Some(gone)); Stands(p, q)
    ensures
      var q := Duo(Over(geo, Idle, [0]).(cursor := 1, st := [Live, Resyncing, Live, Live], live := {0, 2, 3}),
          Some(gone));
      Stands(p, q)
  {
    var s := Over(geo, Top, [0]).(cursor := 1);
    var t := Over(geo, Ending(true), [0]).(cursor := 1);
    GoMain(p, Duo(s, Some(gone)), Rebuild(Pick), t);
    PromoteLeads(t);
    GoMain(p, Duo(t, Some(gone)), Rebuild(Conclude),
           Over(geo, Idle, [0]).(cursor := 1, st := [Live, Resyncing, Live, Live], live := {0, 2, 3}));
  }

  // ---------- together ----------

  /** A live copy that does not hold an acknowledged write, with no write in flight. */
  ghost predicate HoldsStale(t: Volume, m: nat, x: nat) {
    && m in t.live && m < |t.media| && t.geo.col(x) == t.geo.colOf(m) && NoWriter(t, x)
    && t.geo.at(x) < |t.media[m]| && x < |t.want| && t.media[m][t.geo.at(x)] != t.want[x]
  }

  lemma UpToWindow(geo: Layout, p: Duo)
    requires geo.Sound() && TwoColumns(geo) && p == Duo(Assembled(geo), None)
    ensures
      var q := Duo(Vol(geo, Resyncing, Resyncing, {0, 1, 2, 3}, 2, None, Copying(2, [0], 0), 3),
          Some(Leaver(Ending(true), 1, 1)));
      Stands(p, q)
  {
    var gone := Leaver(Draining(0, 0), 1, 0);
    ParkBoth(geo);
    FirstRebuild(geo, p);
    PointerGone(geo, p);
    SecondRebuild(geo, p, gone);
    SecondReads(geo, p, gone);
    WindowOpens(geo, p, gone);
  }

  lemma UpToAnswers(geo: Layout, p: Duo, gone: Leaver)
    requires geo.Sound() && TwoColumns(geo) && gone.target == 1
    requires var q := Duo(Open(geo, Five(Admitted(0), {}, {}), [1, 0], ZEROS), Some(gone)); Stands(p, q)
    ensures
      var q := Duo(Open(geo, Five(Admitted(0), {(2, 1), (3, 1)}, {2, 3}), [1, 0], [[0], [0], [5], [5]]), Some(gone));
      Stands(p, q)
  {
    WriteLands(geo, p, gone, 2, Five(Admitted(0), {}, {}), ZEROS);
    assert {} + {(2, 1)} == {(2, 1)} && ZEROS[2 := [5]] == [[0], [0], [5], [0]];
    WriteAnswered(geo, p, gone, 2, Five(Admitted(0), {(2, 1)}, {}), Five(Admitted(0), {(2, 1)}, {2}),
        [[0], [0], [5], [0]]);
    SecondAnswers(geo, p, gone);
  }

  lemma SecondAnswers(geo: Layout, p: Duo, gone: Leaver)
    requires geo.Sound() && TwoColumns(geo) && gone.target == 1
    requires
      var q := Duo(Open(geo, Five(Admitted(0), {(2, 1)}, {2}), [1, 0], [[0], [0], [5], [0]]), Some(gone)); Stands(p, q)
    ensures
      var q := Duo(Open(geo, Five(Admitted(0), {(2, 1), (3, 1)}, {2, 3}), [1, 0], [[0], [0], [5], [5]]), Some(gone));
      Stands(p, q)
  {
    WriteLands(geo, p, gone, 3, Five(Admitted(0), {(2, 1)}, {2}), [[0], [0], [5], [0]]);
    assert {(2, 1)} + {(3, 1)} == {(2, 1), (3, 1)} && [[0], [0], [5], [0]][3 := [5]] == [[0], [0], [5], [5]];
    WriteAnswered(geo, p, gone, 3, Five(Admitted(0), {(2, 1), (3, 1)}, {2}),
        Five(Admitted(0), {(2, 1), (3, 1)}, {2, 3}), [[0], [0], [5], [5]]);
  }

  /** Every hypothesis of Careful kept, one rebuild started while a stopped one still
    * runs: a live member holds old data. */
  lemma StartBesideLeaver()
    ensures exists p, q, m, x :: Begins(p) && DuoReaches(p, q) && HoldsStale(q.v, m, x)
  {
    var geo := Raid10(1, 2, 1);
    Raid10IsTwoColumns(geo, 1, 2, 1);
    var p := Duo(Assembled(geo), None);
    FreshPair(geo);
    UpToWindow(geo, p);
    StaleEnds(geo, p, Leaver(Ending(true), 1, 1));
  }

  // ---------- a member that departs beside a stopped thread ----------

  /** The stopped thread's next access is to write its buffer to a member that is gone. */
  ghost predicate WritesToGone(p: Duo) {
    p.left.Some? &&
    var s := View(p);
    && s.thread.Copying? && s.cursor <= s.geo.total && s.thread.k < |s.thread.buf| == ChunkLen(s)
    && s.target < |s.present| && !s.present[s.target]
  }

  ghost predicate Departs(q: Duo, m: nat) {
    Sane(q) && DuoEnabled(q, Main(Member(m, Detach))) && WritesToGone(DuoApply(q, Main(Member(m, Detach))))
  }

  /** The other half of NoLeaver: every hypothesis of Careful kept and no rebuild started
    * beside the stopped thread, its target can be removed and detached under it.  The
    * remover finds no thread to stop, and the thread writes to what has departed. */
  lemma DetachBesideLeaver()
    ensures exists p, q, m :: Begins(p) && DuoReaches(p, q) && Departs(q, m)
  {
    var geo := Raid10(1, 2, 1);
    Raid10IsTwoColumns(geo, 1, 2, 1);
    var p := Duo(Assembled(geo), None);
    FreshPair(geo);
    ParkBoth(geo);
    FirstRebuild(geo, p);
    PointerGone(geo, p);
    TargetDeparts(p, geo, Vol(geo, Resyncing, NeedsResync, {0, 1, 2}, 1, Some(0), Idle, 1));
  }

  lemma TargetDeparts(p: Duo, geo: Layout, v: Volume)
    requires geo.Sound() && TwoColumns(geo) && v == Vol(geo, Resyncing, NeedsResync, {0, 1, 2}, 1, Some(0), Idle, 1)
    requires Stands(p, Duo(v, Some(Leaver(Draining(0, 0), 1, 0))))
    ensures exists q, m :: DuoReaches(p, q) && Departs(q, m)
  {
    LeaverReads(p, v);
    var gone := Leaver(Copying(0, [0], 0), 1, 0);
    var t := v.(st := [Live, Failed, Live, NeedsResync], wr := {0, 2});
    GoMain(p, Duo(v, Some(gone)), Member(1, Remove), t);
    assert Departs(Duo(t, Some(gone)), 1);
  }

  lemma StaleEnds(geo: Layout, p: Duo, gone: Leaver)
    requires geo.Sound() && TwoColumns(geo) && gone.target == 1 && Begins(p)
    requires var q := Duo(Vol(geo, Resyncing, Resyncing, {0, 1, 2, 3}, 2, None, Copying(2, [0], 0), 3),
        Some(gone)); Stands(p, q)
    ensures exists q, m, x :: DuoReaches(p, q) && HoldsStale(q.v, m, x)
  {
    WriteBegins(geo, p, gone);
    WriteAdmitted(geo, p, gone);
    UpToAnswers(geo, p, gone);
    var w := Five(Admitted(0), {(2, 1), (3, 1)}, {2, 3});
    WriteSettles(geo, p, gone, w, w.(phase := Settled));
    WriteFinishes(geo, p, gone, w.(phase := Settled));
    CopyOverwrites(geo, p, gone);
    PromotedStale(geo, p, gone);
    var q := Duo(Over(geo, Idle, [0]).(cursor := 1, st := [Live, Resyncing, Live, Live], live := {0, 2, 3}),
        Some(gone));
    assert HoldsStale(q.v, 3, 1);
  }
}
